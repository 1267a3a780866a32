# Session and cart store of the hamburgueria storefront

This project models the client-side store that the storefront's pages share
(`AuthProvider` in `src/contexts/Auth/index.tsx`). The store holds three
things: an authentication token mirrored into the browser's persistent
storage under the key `"token"`, the product catalog, and the shopping cart.

- `cart.dfy`, module `Cart`: the `Product` value and the two cart transforms
  the store computes, `Append` (the array spread of `addCart`) and
  `RemoveById` (the filter of `removeCart`). The lemmas prove what removal
  means. It removes every entry with the id, not just the first. It keeps
  all other entries in their order. It is idempotent. Removing right after
  an add leaves what removing alone would (`AddThenRemove`). It restores the
  cart exactly when the cart held no entry of that id (`AddThenRemoveRestores`).
  `RemoveByIdIsUnique` shows that `RemoveById` is the only order-preserving
  selection of exactly the non-matching entries.
- `session.dfy`, module `Session`: the storage as a `map<string, string>`,
  `getItem` returning `None` for a missing key, the laws of writing,
  reading and clearing it, and the token a store starts
  with (`localStorage.getItem("token") || ""`).
- `store.dfy`, module `AuthProvider`: class `Store`, whose fields are the
  store's state (`token`, `products`, `cart`, `storage`) and whose methods
  are its operations. Each method's frame (``modifies this`cart`` and the like) and
  `ensures` state its whole new state. The network answer an operation
  waits for is an argument: `Success(payload)` or `Failure`. `Synced()`
  says that the token in memory is the one a reload would read back from
  storage. The constructor, `SignIn` on success and `Logout` establish it,
  `SignIn` on failure keeps it, and the other methods do not touch either
  field.

`removeCart` (`cart.filter`, lines 64-66) drops every entry with the id,
not only the first; the model follows the code.

## Model

| member | source | states |
|---|---|---|
| Cart.Append | src/contexts/Auth/index.tsx:56-59 | the new cart is one longer, starts with the old cart unchanged and ends in `p`; `p` occurs once more than before even if it or its id was already present (no deduplication) |
| Cart.RemoveById | src/contexts/Auth/index.tsx:61-68 | no entry of the result has the id (all duplicates go, not only the first); the result is a subsequence of the old cart (order kept) and no longer |
| Cart.RemoveByIdCounts | src/contexts/Auth/index.tsx:63-67 | every entry whose id differs is kept exactly as many times as the old cart held it; entries with the id occur zero times |
| Cart.RemoveByIdIsUnique | src/contexts/Auth/index.tsx:63-67 | any order-preserving selection from the cart that keeps exactly the entries with a different id, each as often as before, equals `RemoveById` |
| Cart.RemoveByIdUnchanged | src/contexts/Auth/index.tsx:63-67 | removing an id leaves the cart as it is exactly when no entry carries that id |
| Cart.RemoveByIdConcat | src/contexts/Auth/index.tsx:64-66 | removal by id distributes over concatenation of carts |
| Cart.RemoveByIdIdempotent | src/contexts/Auth/index.tsx:61-68 | removing the same id twice gives the same cart as removing it once |
| Cart.AddThenRemove | src/contexts/Auth/index.tsx:56-68 | adding `p` then removing `p`'s id equals removing `p`'s id from the old cart, so the added entry and all earlier duplicates go |
| Cart.AddThenRemoveRestores | src/contexts/Auth/index.tsx:56-68 | on a cart with no entry of `p`'s id, adding `p` then removing it restores the original cart |
| Session.StorageLaws | src/contexts/Auth/index.tsx:49 | a key written reads back the value written; writing one key leaves every other key's reading unchanged; a cleared storage reads no key |
| Session.ReloadReadsBack | src/contexts/Auth/index.tsx:48-50 | the token a new store reads after the token was written is that token, and after storage was cleared it is the empty string |
| Session.InitialToken | src/contexts/Auth/index.tsx:48-50 | the initial token is the stored `"token"` value when that key exists (the `\|\| ""` fallback returns an empty stored value unchanged) and the empty string otherwise |
| AuthProvider.Store.constructor | src/contexts/Auth/index.tsx:48-54 | a new store reads its token from storage, starts with an empty catalog and an empty cart, and is in sync with storage |
| AuthProvider.Store.AddCart | src/contexts/Auth/index.tsx:56-59 | the cart becomes `Append(old cart, p)`; token, catalog and storage are unchanged |
| AuthProvider.Store.RemoveCart | src/contexts/Auth/index.tsx:61-68 | the cart becomes `RemoveById(old cart, p.id)`; token, catalog and storage are unchanged |
| AuthProvider.Store.RemoveAll | src/contexts/Auth/index.tsx:70-73 | the cart is empty whatever it held; token, catalog and storage are unchanged |
| AuthProvider.Store.SignIn | src/contexts/Auth/index.tsx:76-92 | on success the token is written to storage under `"token"` and to memory, leaving the two in sync; on failure token and storage are unchanged; catalog and cart never change |
| AuthProvider.Store.Logout | src/contexts/Auth/index.tsx:112-119 | the whole storage is cleared (every key, not only `"token"`) and the token becomes empty (signed out, in sync); catalog and cart are unchanged |
| AuthProvider.Store.LoadProducts | src/contexts/Auth/index.tsx:121-129 | on success the catalog is replaced wholesale by the answer; on failure it is unchanged; token, cart and storage never change |

## Left out

- `signUp` (lines 94-109): it changes no state of the store, only shows a notification and navigates.
- The HTTP requests to the login, register and listing endpoints: network I/O. Their outcome is the `Response` argument of `SignIn` and `LoadProducts`.
- Notifications, `console.log` and navigation with `history.push`: presentation effects with no state in the store.
- The React machinery (`createContext`, `useContext`, `useState`, the provider element): the store is a plain class whose methods run one after another.
- Asynchrony: overlapping requests whose answers arrive in any order (the last answer wins), and stale `cart` closures when several cart updates happen in one render. Each method sees the latest state.
- AuthProvider.Store.SignIn: assumes the login answer carries a string token. A missing `token` field would be stored as the string `"undefined"` but kept in memory as `undefined`, which the model cannot express.
- AuthProvider.Store.LoadProducts: assumes the listing answer is an array of products; any other body would be stored as it is.
- Product fields other than `id` are opaque payload. `price` is carried as an opaque payload value and modelled as a `real`, so `NaN` and infinite prices are not represented; nothing in the store reads them. `id` is an integer, so the JavaScript corner case of a `NaN` id (never equal to itself, so never removed) is not modelled.
- Other code writing to persistent storage between operations is not modelled: the storage changes only through the store's own methods.
