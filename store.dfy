/** The session and cart store that the storefront's pages share: the token,
    the catalog and the cart, with the operations that change them. Network
    answers arrive as `Response` arguments; notifications, logging and
    navigation change none of this state and are not modelled. */
module AuthProvider {
  import opened Cart
  import opened Session

  /** Outcome of a backend call: the payload it answered with, or a failure of
      any kind (the store never inspects why a call failed). */
  datatype Response<T> = Success(value: T) | Failure

  class Store {
    /** The token held in memory; empty while signed out. */
    var token: string
    /** The catalog as last loaded. */
    var products: seq<Product>
    /** The cart, in the order entries were added; duplicates allowed. */
    var cart: seq<Product>
    /** Persistent client storage, which outlives the store. */
    var storage: Storage

    /** The token in memory is the one a fresh store would read back from
        storage, so reloading the page keeps the session as it is. */
    ghost predicate Synced()
      reads this
    {
      token == InitialToken(storage)
    }

    /** A fresh store over the current storage: the token read back from it,
        the catalog and the cart empty. */
    constructor (persisted: Storage)
      ensures storage == persisted
      ensures token == InitialToken(persisted)
      ensures products == [] && cart == []
      ensures Synced()
    {
      storage := persisted;
      token := InitialToken(persisted);
      products := [];
      cart := [];
    }

    /** Appends `p` to the cart, even when an entry with its id is present. */
    method AddCart(p: Product)
      modifies this`cart
      ensures cart == Append(old(cart), p)
      ensures token == old(token) && products == old(products) && storage == old(storage)
    {
      cart := cart + [p];
    }

    /** Drops every cart entry whose id is `p`'s id. */
    method RemoveCart(p: Product)
      modifies this`cart
      ensures cart == RemoveById(old(cart), p.id)
      ensures token == old(token) && products == old(products) && storage == old(storage)
    {
      cart := RemoveById(cart, p.id);
    }

    /** Empties the cart, whatever it held. */
    method RemoveAll()
      modifies this`cart
      ensures cart == []
      ensures token == old(token) && products == old(products) && storage == old(storage)
    {
      cart := [];
    }

    /** Applies the answer of the login endpoint. On success the returned
        token is persisted under TokenKey and becomes the token in memory;
        on failure nothing changes. Signing in again while signed in is
        allowed and replaces the token. */
    method SignIn(response: Response<string>)
      modifies this`token, this`storage
      ensures response.Success? ==>
                storage == old(storage)[TokenKey := response.value] &&
                token == response.value && Synced()
      ensures response.Failure? ==> token == old(token) && storage == old(storage)
      ensures old(Synced()) ==> Synced()
      ensures products == old(products) && cart == old(cart)
    {
      match response
      case Success(t) =>
        storage := storage[TokenKey := t];
        token := t;
      case Failure =>
    }

    /** Signs out: clears the whole storage, not only TokenKey, and empties
        the token. */
    method Logout()
      modifies this`token, this`storage
      ensures storage == map[] && token == ""
      ensures Synced()
      ensures products == old(products) && cart == old(cart)
    {
      storage := map[];
      token := "";
    }

    /** Applies the answer of the listing endpoint: a successful answer
        replaces the catalog wholesale, a failure leaves it as it was. */
    method LoadProducts(response: Response<seq<Product>>)
      modifies this`products
      ensures products == if response.Success? then response.value else old(products)
      ensures token == old(token) && cart == old(cart) && storage == old(storage)
    {
      if response.Success? {
        products := response.value;
      }
    }
  }
}
