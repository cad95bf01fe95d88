/** `addToCart`, `removeFromCart` and the cart total. A cart line is a copy
    of a catalogue product with a quantity; lines are keyed by product id. */
module Cart {
  import opened Options
  import opened Seqs
  import opened Catalogue

  datatype CartLine = CartLine(product: Product, quantity: int)

  type Cart = seq<CartLine>

  /** No two lines share a product id. */
  predicate UniqueIds(cart: Cart)
  {
    forall i, j :: 0 <= i < j < |cart| ==> cart[i].product.id != cart[j].product.id
  }

  /** The product ids in the cart. */
  function Ids(cart: Cart): set<ProductId>
  {
    set i | 0 <= i < |cart| :: cart[i].product.id
  }

  /** The line at index `i` is for `id`. */
  function HasIdAt(cart: Cart, id: ProductId): nat -> bool
  {
    (i: nat) => i < |cart| && cart[i].product.id == id
  }

  /** `cart.find(item => item.id === id)`, as the index of the line. */
  function FindLine(cart: Cart, id: ProductId): (r: Option<nat>)
    ensures r.None? <==> id !in Ids(cart)
    ensures r.Some? ==> r.value < |cart| && cart[r.value].product.id == id
    ensures r.Some? ==> forall k :: 0 <= k < r.value ==> cart[k].product.id != id
  {
    var r := FirstWhere(|cart|, 0, HasIdAt(cart, id));
    assert r.None? ==> id !in Ids(cart) by {
      if r.None? {
        forall k | 0 <= k < |cart| ensures cart[k].product.id != id {
          assert !HasIdAt(cart, id)(k);
        }
      }
    }
    assert r.Some? ==> forall k :: 0 <= k < r.value ==> cart[k].product.id != id by {
      if r.Some? {
        forall k | 0 <= k < r.value ensures cart[k].product.id != id {
          assert !HasIdAt(cart, id)(k);
        }
      }
    }
    r
  }

  /** `addToCart(product, quantity)`: an existing line for the id grows by
      `quantity` and keeps its position and product copy; otherwise a new
      line is appended. */
  function AddToCart(cart: Cart, product: Product, quantity: int): (r: Cart)
    ensures UniqueIds(cart) ==> UniqueIds(r)
    ensures Ids(r) == Ids(cart) + {product.id}
    ensures product.id in Ids(cart) ==> (
      && |r| == |cart|
      && (forall k :: 0 <= k < |cart| && cart[k].product.id != product.id ==> r[k] == cart[k])
      && (forall k :: 0 <= k < |cart| && cart[k].product.id == product.id ==>
            r[k].product == cart[k].product && (UniqueIds(cart) ==> r[k].quantity == cart[k].quantity + quantity)))
    ensures product.id !in Ids(cart) ==> r == cart + [CartLine(product, quantity)]
  {
    match FindLine(cart, product.id)
    case Some(i) =>
      var r := cart[i := CartLine(cart[i].product, cart[i].quantity + quantity)];
      assert Ids(r) == Ids(cart) by {
        forall x | x in Ids(cart) ensures x in Ids(r) {
          var k :| 0 <= k < |cart| && cart[k].product.id == x;
          assert r[k].product.id == x;
        }
        forall x | x in Ids(r) ensures x in Ids(cart) {
          var k :| 0 <= k < |r| && r[k].product.id == x;
          assert cart[k].product.id == x;
        }
      }
      r
    case None =>
      var r := cart + [CartLine(product, quantity)];
      assert Ids(r) == Ids(cart) + {product.id} by {
        assert r[|cart|].product.id == product.id;
        forall x | x in Ids(r) ensures x in Ids(cart) + {product.id} {
          var k :| 0 <= k < |r| && r[k].product.id == x;
          if k < |cart| {
            assert cart[k].product.id == x;
          }
        }
        forall x | x in Ids(cart) ensures x in Ids(r) {
          var k :| 0 <= k < |cart| && cart[k].product.id == x;
          assert r[k].product.id == x;
        }
      }
      r
  }

  function NotId(id: ProductId): CartLine -> bool
  {
    (l: CartLine) => l.product.id != id
  }

  /** `removeFromCart(productId)`: every line for the id goes, the others
      stay in order. */
  function RemoveFromCart(cart: Cart, id: ProductId): (r: Cart)
    ensures forall l :: l in r <==> l in cart && l.product.id != id
    ensures id !in Ids(r)
    ensures Ids(r) == Ids(cart) - {id}
  {
    var r := Filter(cart, NotId(id));
    assert Ids(r) == Ids(cart) - {id} by {
      forall x | x in Ids(r) ensures x in Ids(cart) - {id} {
        var k :| 0 <= k < |r| && r[k].product.id == x;
        assert r[k] in r;
        var j :| 0 <= j < |cart| && cart[j] == r[k];
      }
      forall x | x in Ids(cart) - {id} ensures x in Ids(r) {
        var k :| 0 <= k < |cart| && cart[k].product.id == x;
        assert cart[k] in r;
        var j :| 0 <= j < |r| && r[j] == cart[k];
      }
    }
    r
  }

  /** Removal works line by line: on a joined cart it is the removal from
      each part, joined in the same order. */
  lemma RemoveConcat(a: Cart, b: Cart, id: ProductId)
    ensures RemoveFromCart(a + b, id) == RemoveFromCart(a, id) + RemoveFromCart(b, id)
  {
    FilterConcat(a, b, NotId(id));
  }

  /** A single line stays exactly when its id is another one. */
  lemma RemoveLine(l: CartLine, id: ProductId)
    ensures RemoveFromCart([l], id) == if l.product.id != id then [l] else []
  {
    assert [l][1..] == [];
  }

  /** Removing an id that is not in the cart changes nothing. */
  lemma RemoveAbsent(cart: Cart, id: ProductId)
    requires id !in Ids(cart)
    ensures RemoveFromCart(cart, id) == cart
  {
    forall i | 0 <= i < |cart| ensures NotId(id)(cart[i]) {
      assert cart[i].product.id in Ids(cart);
    }
    FilterKeepsAll(cart, NotId(id));
  }

  /** Removal keeps the cart free of duplicate ids. */
  lemma {:induction false} RemoveKeepsUnique(cart: Cart, id: ProductId)
    requires UniqueIds(cart)
    ensures UniqueIds(RemoveFromCart(cart, id))
    decreases |cart|
  {
    if |cart| > 0 {
      var tail := cart[1..];
      assert UniqueIds(tail) by {
        forall i, j | 0 <= i < j < |tail| ensures tail[i].product.id != tail[j].product.id {
          assert tail[i] == cart[i + 1] && tail[j] == cart[j + 1];
        }
      }
      RemoveKeepsUnique(tail, id);
      var rest := RemoveFromCart(tail, id);
      assert cart[0].product.id !in Ids(rest);
      var head := if NotId(id)(cart[0]) then [cart[0]] else [];
      assert RemoveFromCart(cart, id) == head + rest;
      forall i, j | 0 <= i < j < |head + rest|
        ensures (head + rest)[i].product.id != (head + rest)[j].product.id
      {
        if |head| == 1 && i == 0 {
          assert (head + rest)[j] == rest[j - 1];
          assert rest[j - 1].product.id in Ids(rest);
        }
      }
    }
  }

  /** Adding a product that was not in the cart and then removing it gives
      the cart back. */
  lemma AddThenRemove(cart: Cart, product: Product, quantity: int)
    requires product.id !in Ids(cart)
    ensures RemoveFromCart(AddToCart(cart, product, quantity), product.id) == cart
  {
    var line := CartLine(product, quantity);
    FilterConcat(cart, [line], NotId(product.id));
    RemoveAbsent(cart, product.id);
  }

  /** `item.price * item.quantity`. */
  function LineTotal(l: CartLine): (t: real)
    ensures l.product.price >= 0.0 && l.quantity >= 0 ==> t >= 0.0
  {
    l.product.price * l.quantity as real
  }

  /** `cart.reduce((sum, item) => sum + item.price * item.quantity, 0)`. */
  function CartTotal(cart: Cart): (t: real)
    ensures (forall k :: 0 <= k < |cart| ==> cart[k].product.price >= 0.0 && cart[k].quantity >= 0) ==> t >= 0.0
  {
    if |cart| == 0 then 0.0
    else LineTotal(cart[0]) + CartTotal(cart[1..])
  }

  /** The total of a concatenation is the sum of the totals. */
  lemma {:induction false} CartTotalConcat(a: Cart, b: Cart)
    ensures CartTotal(a + b) == CartTotal(a) + CartTotal(b)
    decreases |a|
  {
    if |a| > 0 {
      assert (a + b)[0] == a[0];
      assert (a + b)[1..] == a[1..] + b;
      CartTotalConcat(a[1..], b);
    } else {
      assert a + b == b;
    }
  }

  /** Changing one line changes the total by that line's difference. */
  lemma {:induction false} CartTotalUpdate(cart: Cart, i: nat, line: CartLine)
    requires i < |cart|
    ensures CartTotal(cart[i := line]) == CartTotal(cart) - LineTotal(cart[i]) + LineTotal(line)
    decreases |cart|
  {
    if i > 0 {
      assert cart[i := line][1..] == cart[1..][i - 1 := line];
      CartTotalUpdate(cart[1..], i - 1, line);
    } else {
      assert cart[i := line][1..] == cart[1..];
    }
  }

  /** Adding `quantity` of a product already in the cart swaps the old
      line's amount for the grown line's, priced at the product copy already
      on the line (which may differ from the price of the product passed in). */
  lemma AddExistingTotal(cart: Cart, product: Product, quantity: int, i: nat)
    requires UniqueIds(cart) && i < |cart| && cart[i].product.id == product.id
    ensures CartTotal(AddToCart(cart, product, quantity)) == CartTotal(cart) - LineTotal(cart[i])
      + LineTotal(CartLine(cart[i].product, cart[i].quantity + quantity))
  {
    var line := CartLine(cart[i].product, cart[i].quantity + quantity);
    AddExistingIsUpdate(cart, product, quantity, i);
    CartTotalUpdate(cart, i, line);
  }

  /** With unique ids, adding an existing product rewrites just its line. */
  lemma AddExistingIsUpdate(cart: Cart, product: Product, quantity: int, i: nat)
    requires UniqueIds(cart) && i < |cart| && cart[i].product.id == product.id
    ensures AddToCart(cart, product, quantity)
      == cart[i := CartLine(cart[i].product, cart[i].quantity + quantity)]
  {
    var r := AddToCart(cart, product, quantity);
    assert cart[i].product.id in Ids(cart);
    var line := CartLine(cart[i].product, cart[i].quantity + quantity);
    forall k | 0 <= k < |cart| ensures r[k] == cart[i := line][k] {
      if k != i {
        assert cart[k].product.id != product.id;
      }
    }
  }

  /** Adding a product that is not in the cart adds its line's amount to
      the total. */
  lemma AddNewTotal(cart: Cart, product: Product, quantity: int)
    requires product.id !in Ids(cart)
    ensures CartTotal(AddToCart(cart, product, quantity))
         == CartTotal(cart) + LineTotal(CartLine(product, quantity))
  {
    var line := CartLine(product, quantity);
    CartTotalConcat(cart, [line]);
    assert CartTotal([line]) == LineTotal(line);
  }

  /** Adding the same new product twice leaves one line whose quantity is
      the sum of the two. */
  lemma AddTwice(cart: Cart, product: Product, q1: int, q2: int)
    requires UniqueIds(cart) && product.id !in Ids(cart)
    ensures AddToCart(AddToCart(cart, product, q1), product, q2)
      == cart + [CartLine(product, q1 + q2)]
  {
    var once := AddToCart(cart, product, q1);
    assert once == cart + [CartLine(product, q1)];
    assert once[|cart|].product.id == product.id;
    var twice := AddToCart(once, product, q2);
    assert |twice| == |once|;
    forall k | 0 <= k < |cart| ensures twice[k] == cart[k] {
      assert once[k] == cart[k];
      assert cart[k].product.id in Ids(cart);
    }
    assert twice[|cart|] == CartLine(product, q1 + q2);
  }
}
