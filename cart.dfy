/** The cart transforms of the storefront's session and cart store.
    The store computes each new cart as a value from the old one (an array
    spread for adding, a filter for removing); those values are defined here,
    and the store's methods assign them. */
module Cart {

  /** A catalog entry as served by the product listing endpoint. Only `id`
      is ever inspected; the other fields are carried along untouched. */
  datatype Product = Product(id: int, name: string, category: string, price: real, img: string)

  /** `r` can be obtained from `s` by deleting entries, keeping the order of
      the entries that remain. */
  ghost predicate IsSubsequence(r: seq<Product>, s: seq<Product>)
    decreases |s|
  {
    r == [] ||
    (s != [] && ((r[0] == s[0] && IsSubsequence(r[1..], s[1..])) || IsSubsequence(r, s[1..])))
  }

  /** No entry of `cart` has the given id. */
  predicate NoneWithId(cart: seq<Product>, id: int)
  {
    forall i :: 0 <= i < |cart| ==> cart[i].id != id
  }

  /** The cart after adding `p`: appended at the end, with no check whether an
      entry with the same id (or the same product) is already present. */
  function Append(cart: seq<Product>, p: Product): (r: seq<Product>)
    ensures |r| == |cart| + 1
    ensures r[..|cart|] == cart && r[|cart|] == p
    ensures multiset(r)[p] == multiset(cart)[p] + 1
    ensures forall x :: x != p ==> multiset(r)[x] == multiset(cart)[x]
  {
    cart + [p]
  }

  /** The cart after removing the product with id `id`: every entry with that
      id goes, not only the first; all others stay, in their old order. */
  function RemoveById(cart: seq<Product>, id: int): (r: seq<Product>)
    ensures |r| <= |cart|
    ensures NoneWithId(r, id)
    ensures IsSubsequence(r, cart)
  {
    if cart == [] then []
    else if cart[0].id == id then RemoveById(cart[1..], id)
    else [cart[0]] + RemoveById(cart[1..], id)
  }

  /** Removal keeps every entry whose id differs, exactly as often as the cart
      held it, and no entry of the removed id. */
  lemma {:induction false} RemoveByIdCounts(cart: seq<Product>, id: int)
    ensures forall x :: multiset(RemoveById(cart, id))[x] == if x.id == id then 0 else multiset(cart)[x]
  {
    if cart != [] {
      assert cart == [cart[0]] + cart[1..];
      RemoveByIdCounts(cart[1..], id);
    }
  }

  /** A subsequence holds no entry more often than the sequence it comes from. */
  lemma {:induction false} SubsequenceMultiset(r: seq<Product>, s: seq<Product>)
    requires IsSubsequence(r, s)
    ensures multiset(r) <= multiset(s)
    decreases |s|
  {
    if r != [] {
      assert s == [s[0]] + s[1..];
      if r[0] == s[0] && IsSubsequence(r[1..], s[1..]) {
        SubsequenceMultiset(r[1..], s[1..]);
        assert r == [r[0]] + r[1..];
      } else {
        SubsequenceMultiset(r, s[1..]);
      }
    }
  }

  /** RemoveById is the only order-preserving selection from `cart` that keeps
      exactly the entries whose id differs from `id`, each as often as before. */
  lemma {:induction false} RemoveByIdIsUnique(cart: seq<Product>, id: int, r: seq<Product>)
    requires IsSubsequence(r, cart)
    requires forall x :: multiset(r)[x] == if x.id == id then 0 else multiset(cart)[x]
    ensures r == RemoveById(cart, id)
    decreases |cart|
  {
    if cart == [] {
      SubsequenceMultiset(r, cart);
    } else {
      var x, rest := cart[0], cart[1..];
      assert cart == [x] + rest;
      if x.id == id {
        if r != [] && r[0] == x {
          assert false;
        }
        assert IsSubsequence(r, rest);
        forall y ensures multiset(r)[y] == if y.id == id then 0 else multiset(rest)[y] {
          if y.id != id {
            assert y != x;
          }
        }
        RemoveByIdIsUnique(rest, id, r);
      } else {
        assert multiset(r)[x] == multiset(cart)[x] > multiset(rest)[x];
        if !(r != [] && r[0] == x && IsSubsequence(r[1..], rest)) {
          assert IsSubsequence(r, rest);
          SubsequenceMultiset(r, rest);
          assert false;
        }
        assert r == [x] + r[1..];
        forall y ensures multiset(r[1..])[y] == if y.id == id then 0 else multiset(rest)[y] {
          assert multiset(r)[y] == multiset{x}[y] + multiset(r[1..])[y];
        }
        RemoveByIdIsUnique(rest, id, r[1..]);
      }
    }
  }

  /** Removing an id that no entry carries leaves the cart as it is, and only then. */
  lemma {:induction false} RemoveByIdUnchanged(cart: seq<Product>, id: int)
    ensures RemoveById(cart, id) == cart <==> NoneWithId(cart, id)
  {
    if NoneWithId(cart, id) && cart != [] {
      assert NoneWithId(cart[1..], id);
      RemoveByIdUnchanged(cart[1..], id);
    }
  }

  /** Removing by id splits over concatenation: each part loses its own matches. */
  lemma {:induction false} RemoveByIdConcat(a: seq<Product>, b: seq<Product>, id: int)
    ensures RemoveById(a + b, id) == RemoveById(a, id) + RemoveById(b, id)
  {
    if a == [] {
      assert a + b == b;
    } else {
      assert (a + b)[0] == a[0];
      assert (a + b)[1..] == a[1..] + b;
      RemoveByIdConcat(a[1..], b, id);
    }
  }

  /** Removing the same id a second time changes nothing. */
  lemma {:induction false} RemoveByIdIdempotent(cart: seq<Product>, id: int)
    ensures RemoveById(RemoveById(cart, id), id) == RemoveById(cart, id)
  {
    RemoveByIdUnchanged(RemoveById(cart, id), id);
  }

  /** Adding `p` and then removing `p`'s id leaves what removing alone would:
      the added entry goes together with every earlier entry of that id. */
  lemma {:induction false} AddThenRemove(cart: seq<Product>, p: Product)
    ensures RemoveById(Append(cart, p), p.id) == RemoveById(cart, p.id)
  {
    RemoveByIdConcat(cart, [p], p.id);
    assert RemoveById([p], p.id) == [];
  }

  /** On a cart holding no entry of `p`'s id, adding `p` and removing it again
      restores the cart exactly. */
  lemma {:induction false} AddThenRemoveRestores(cart: seq<Product>, p: Product)
    requires NoneWithId(cart, p.id)
    ensures RemoveById(Append(cart, p), p.id) == cart
  {
    AddThenRemove(cart, p);
    RemoveByIdUnchanged(cart, p.id);
  }
}
