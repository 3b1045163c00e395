/** The saved-properties cart (CartController.cs). One cart per user, created
    lazily; re-adding a property bumps its quantity and keeps the first price;
    removal drops the whole line. */
module CartService {
  import opened Wrappers
  import opened GatewayHeaders
  import opened Seqs

  /** A cart line (CartItem.cs). The decimal price is an integer number of the
      smallest currency unit; it is stored, never computed with. */
  datatype CartItem = CartItem(propertyId: int, price: int, quantity: int)

  /** A user's cart (Cart.cs). The owning user is the key of the cart table. */
  datatype Cart = Cart(items: seq<CartItem>)

  /** The carts table. The unique index on `Cart.UserId` makes it a map from
      user id to that user's cart. */
  type CartDb = map<int, Cart>

  datatype AddToCartRequest = AddToCartRequest(propertyId: int, price: int)

  /** The projection GetCart answers with (CartDto.cs). */
  datatype CartItemView = CartItemView(propertyId: int, price: int, quantity: int)
  datatype CartView = CartView(userId: int, items: seq<CartItemView>)

  datatype CartError = HeadersRejected(why: Rejection) | CartNotFound | ItemNotFound

  predicate HasItem(items: seq<CartItem>, propertyId: int) {
    exists i | 0 <= i < |items| :: items[i].propertyId == propertyId
  }

  /** `Items.FirstOrDefault(i => i.PropertyId == propertyId)`: the index of the
      first line for the property, if any. */
  function FindItem(items: seq<CartItem>, propertyId: int): (r: Option<nat>)
    ensures r.Some? <==> HasItem(items, propertyId)
    ensures r.Some? ==> r.value < |items| && items[r.value].propertyId == propertyId
    ensures r.Some? ==> forall j | 0 <= j < r.value :: items[j].propertyId != propertyId
  {
    FirstIndex((i: CartItem) => i.propertyId == propertyId, items)
  }

  /** At most one line per property: kept only by the add logic, the database
      does not enforce it. */
  predicate UniqueItems(items: seq<CartItem>) {
    forall i, j | 0 <= i < j < |items| :: items[i].propertyId != items[j].propertyId
  }

  predicate PositiveQuantities(items: seq<CartItem>) {
    forall i | 0 <= i < |items| :: items[i].quantity >= 1
  }

  predicate WellFormedCart(cart: Cart) {
    UniqueItems(cart.items) && PositiveQuantities(cart.items)
  }

  predicate WellFormedDb(db: CartDb) {
    forall u | u in db :: WellFormedCart(db[u])
  }

  /** The number of copies of a property the cart holds: the cart read as a bag
      of property ids. */
  function QuantityOf(items: seq<CartItem>, propertyId: int): int {
    if |items| == 0 then 0
    else (if items[0].propertyId == propertyId then items[0].quantity else 0)
         + QuantityOf(items[1..], propertyId)
  }

  /** The add step on an existing cart (CartController.cs:48-64). */
  function AddItem(cart: Cart, req: AddToCartRequest): (r: Cart)
    ensures HasItem(cart.items, req.propertyId) ==>
              var k := FindItem(cart.items, req.propertyId).value;
              && |r.items| == |cart.items|
              && r.items[k].propertyId == req.propertyId
              && r.items[k].price == cart.items[k].price
              && r.items[k].quantity == cart.items[k].quantity + 1
              && forall i | 0 <= i < |r.items| && i != k :: r.items[i] == cart.items[i]
    ensures !HasItem(cart.items, req.propertyId) ==>
              && |r.items| == |cart.items| + 1
              && r.items[..|cart.items|] == cart.items
              && r.items[|cart.items|] == CartItem(req.propertyId, req.price, 1)
  {
    match FindItem(cart.items, req.propertyId)
    case Some(k) =>
      var line := cart.items[k];
      Cart(cart.items[k := line.(quantity := line.quantity + 1)])
    case None =>
      Cart(cart.items + [CartItem(req.propertyId, req.price, 1)])
  }

  /** The user's cart, or a fresh empty one saved before the item is added
      (CartController.cs:36-46). */
  function EnsureCart(db: CartDb, userId: int): (r: CartDb)
    ensures userId in r
    ensures userId in db ==> r == db
    ensures userId !in db ==> r.Keys == db.Keys + {userId} && r[userId] == Cart([])
    ensures forall u | u in db :: u in r && r[u] == db[u]
  {
    if userId in db then db else db[userId := Cart([])]
  }

  /** POST /cart/add (CartController.cs:24-69). */
  function AddToCart(db: CartDb, userId: Option<int>, role: Option<string>, req: AddToCartRequest)
    : (r: Result<CartDb, CartError>)
    ensures CartCheck(userId, role).Fail? ==> r == Err(HeadersRejected(CartCheck(userId, role).error))
    ensures CartCheck(userId, role).Pass? ==> r.Ok?
    ensures r.Ok? ==> var u := userId.value;
              && r.value.Keys == db.Keys + {u}
              && (forall v | v in db && v != u :: r.value[v] == db[v])
              && (u !in db ==> r.value[u] == Cart([CartItem(req.propertyId, req.price, 1)]))
              && (u in db ==> r.value[u] == AddItem(db[u], req))
  {
    match CartCheck(userId, role)
    case Fail(why) => Err(HeadersRejected(why))
    case Pass =>
      var u := userId.value;
      var withCart := EnsureCart(db, u);
      Ok(withCart[u := AddItem(withCart[u], req)])
  }

  function ViewItem(item: CartItem): CartItemView {
    CartItemView(item.propertyId, item.price, item.quantity)
  }

  /** GET /cart (CartController.cs:75-109): a missing cart reads as an empty one. */
  function GetCart(db: CartDb, userId: Option<int>, role: Option<string>): (r: Result<CartView, CartError>)
    ensures CartCheck(userId, role).Fail? ==> r == Err(HeadersRejected(CartCheck(userId, role).error))
    ensures CartCheck(userId, role).Pass? ==> r.Ok? && r.value.userId == userId.value
    ensures r.Ok? && userId.value !in db ==> r.value.items == []
    ensures r.Ok? && userId.value in db ==>
              var items := db[userId.value].items;
              && |r.value.items| == |items|
              && forall i | 0 <= i < |items| ::
                   && r.value.items[i].propertyId == items[i].propertyId
                   && r.value.items[i].price == items[i].price
                   && r.value.items[i].quantity == items[i].quantity
  {
    match CartCheck(userId, role)
    case Fail(why) => Err(HeadersRejected(why))
    case Pass =>
      var u := userId.value;
      if u !in db then Ok(CartView(u, []))
      else
        var items := db[u].items;
        Ok(CartView(u, seq(|items|, i requires 0 <= i < |items| => ViewItem(items[i]))))
  }

  /** DELETE /cart/remove/{propertyId} (CartController.cs:115-143). */
  function RemoveItem(db: CartDb, userId: Option<int>, role: Option<string>, propertyId: int)
    : (r: Result<CartDb, CartError>)
    ensures CartCheck(userId, role).Fail? ==> r == Err(HeadersRejected(CartCheck(userId, role).error))
    ensures CartCheck(userId, role).Pass? && userId.value !in db ==> r == Err(CartNotFound)
    ensures (CartCheck(userId, role).Pass? && userId.value in db
             && !HasItem(db[userId.value].items, propertyId)) ==> r == Err(ItemNotFound)
    ensures (CartCheck(userId, role).Pass? && userId.value in db
             && HasItem(db[userId.value].items, propertyId)) ==> r.Ok?
    ensures r.Ok? ==> var u := userId.value;
              && u in db
              && HasItem(db[u].items, propertyId)
              && r.value.Keys == db.Keys
              && (forall v | v in db && v != u :: r.value[v] == db[v])
              && var k := FindItem(db[u].items, propertyId).value;
                 r.value[u].items == db[u].items[..k] + db[u].items[k + 1..]
  {
    match CartCheck(userId, role)
    case Fail(why) => Err(HeadersRejected(why))
    case Pass =>
      var u := userId.value;
      if u !in db then Err(CartNotFound)
      else
        var items := db[u].items;
        match FindItem(items, propertyId)
        case None => Err(ItemNotFound)
        case Some(k) => Ok(db[u := Cart(items[..k] + items[k + 1..])])
  }

  /* ---------- The cart as a bag of property ids ---------- */

  lemma {:induction false} QuantityOfConcat(a: seq<CartItem>, b: seq<CartItem>, propertyId: int)
    ensures QuantityOf(a + b, propertyId) == QuantityOf(a, propertyId) + QuantityOf(b, propertyId)
  {
    if |a| == 0 {
      assert a + b == b;
    } else {
      assert (a + b)[1..] == a[1..] + b;
      QuantityOfConcat(a[1..], b, propertyId);
    }
  }

  /** The copies of `propertyId` in one line. */
  function LineQuantity(item: CartItem, propertyId: int): int {
    if item.propertyId == propertyId then item.quantity else 0
  }

  lemma QuantityOfSplit(items: seq<CartItem>, k: nat, propertyId: int)
    requires k < |items|
    ensures QuantityOf(items, propertyId)
            == QuantityOf(items[..k], propertyId) + LineQuantity(items[k], propertyId)
               + QuantityOf(items[k + 1..], propertyId)
  {
    assert items == items[..k] + ([items[k]] + items[k + 1..]);
    QuantityOfConcat(items[..k], [items[k]] + items[k + 1..], propertyId);
    QuantityOfConcat([items[k]], items[k + 1..], propertyId);
  }

  /** Adding a property puts exactly one more copy of it in the cart and changes
      the count of no other property. */
  lemma AddItemAddsOneCopy(cart: Cart, req: AddToCartRequest, propertyId: int)
    ensures QuantityOf(AddItem(cart, req).items, propertyId)
            == QuantityOf(cart.items, propertyId) + (if propertyId == req.propertyId then 1 else 0)
  {
    var r := AddItem(cart, req);
    match FindItem(cart.items, req.propertyId)
    case Some(k) =>
      QuantityOfSplit(cart.items, k, propertyId);
      QuantityOfSplit(r.items, k, propertyId);
      assert r.items[..k] == cart.items[..k];
      assert r.items[k + 1..] == cart.items[k + 1..];
    case None =>
      QuantityOfConcat(cart.items, [CartItem(req.propertyId, req.price, 1)], propertyId);
  }

  /** In a cart with one line per property, the count of a property is the
      quantity on its line. */
  lemma {:induction false} QuantityOfUniqueLine(items: seq<CartItem>, propertyId: int)
    requires UniqueItems(items)
    ensures HasItem(items, propertyId) ==>
              QuantityOf(items, propertyId) == items[FindItem(items, propertyId).value].quantity
    ensures !HasItem(items, propertyId) ==> QuantityOf(items, propertyId) == 0
  {
    if |items| > 0 {
      QuantityOfUniqueLine(items[1..], propertyId);
      if items[0].propertyId == propertyId {
        assert !HasItem(items[1..], propertyId) by {
          forall j | 0 <= j < |items[1..]|
            ensures items[1..][j].propertyId != propertyId
          {
            assert items[1..][j] == items[j + 1];
          }
        }
      } else if HasItem(items[1..], propertyId) {
        var k := FindItem(items[1..], propertyId).value;
        assert items[k + 1] == items[1..][k];
      } else {
        assert !HasItem(items, propertyId) by {
          forall j | 0 <= j < |items|
            ensures items[j].propertyId != propertyId
          {
            if j > 0 { assert items[j] == items[1..][j - 1]; }
          }
        }
      }
    }
  }

  /* ---------- Invariants the add and remove paths keep ---------- */

  /** Add keeps "one line per property" and "every quantity at least 1". */
  lemma AddItemKeepsWellFormed(cart: Cart, req: AddToCartRequest)
    requires WellFormedCart(cart)
    ensures WellFormedCart(AddItem(cart, req))
  {
    var r := AddItem(cart, req);
    if !HasItem(cart.items, req.propertyId) {
      forall i, j | 0 <= i < j < |r.items|
        ensures r.items[i].propertyId != r.items[j].propertyId
      {
        if j == |cart.items| {
          assert r.items[i] == cart.items[i];
        } else {
          assert r.items[i] == cart.items[i] && r.items[j] == cart.items[j];
        }
      }
      forall i | 0 <= i < |r.items|
        ensures r.items[i].quantity >= 1
      {
        if i < |cart.items| { assert r.items[i] == r.items[..|cart.items|][i]; }
      }
    }
  }

  lemma AddToCartKeepsWellFormed(db: CartDb, userId: Option<int>, role: Option<string>, req: AddToCartRequest)
    requires WellFormedDb(db)
    ensures AddToCart(db, userId, role, req).Ok? ==> WellFormedDb(AddToCart(db, userId, role, req).value)
  {
    if CartCheck(userId, role).Pass? {
      var u := userId.value;
      if u in db {
        AddItemKeepsWellFormed(db[u], req);
      } else {
        AddItemKeepsWellFormed(Cart([]), req);
      }
    }
  }

  /** Removing a property from a well-formed cart keeps it well-formed and
      leaves no line for that property. */
  lemma RemoveItemKeepsWellFormed(db: CartDb, userId: Option<int>, role: Option<string>, propertyId: int)
    requires WellFormedDb(db)
    ensures var r := RemoveItem(db, userId, role, propertyId);
            r.Ok? ==> WellFormedDb(r.value) && !HasItem(r.value[userId.value].items, propertyId)
  {
    var r := RemoveItem(db, userId, role, propertyId);
    if r.Ok? {
      var u := userId.value;
      var items := db[u].items;
      var k := FindItem(items, propertyId).value;
      var rest := r.value[u].items;
      assert forall i | 0 <= i < |rest| :: rest[i] == (if i < k then items[i] else items[i + 1]);
      assert !HasItem(rest, propertyId) by {
        forall i | 0 <= i < |rest|
          ensures rest[i].propertyId != propertyId
        {
          if i >= k { assert items[k].propertyId != items[i + 1].propertyId; }
        }
      }
    }
  }

  /* ---------- Round trips ---------- */

  /** Adding a property the cart lacks and then removing it gives the cart back. */
  lemma RemoveUndoesAddOfNewProperty(db: CartDb, userId: int, role: string, req: AddToCartRequest)
    requires CartCheck(Some(userId), Some(role)).Pass?
    requires userId in db && !HasItem(db[userId].items, req.propertyId)
    ensures AddToCart(db, Some(userId), Some(role), req).Ok?
    ensures RemoveItem(AddToCart(db, Some(userId), Some(role), req).value,
                       Some(userId), Some(role), req.propertyId) == Ok(db)
  {
    var added := AddToCart(db, Some(userId), Some(role), req).value;
    var items := db[userId].items;
    var k := FindItem(added[userId].items, req.propertyId).value;
    assert added[userId].items[|items|].propertyId == req.propertyId;
    assert forall j | 0 <= j < |items| :: added[userId].items[j] == items[j];
    assert k == |items|;
    assert added[userId].items[..k] == items;
    var r := RemoveItem(added, Some(userId), Some(role), req.propertyId).value;
    assert r[userId] == db[userId];
    assert r == db;
  }

  /** For a user without a cart, add-then-remove leaves an empty cart row
      behind: the table differs, but GetCart cannot tell the two apart. */
  lemma AddThenRemoveLeavesEmptyCart(db: CartDb, userId: int, role: string, req: AddToCartRequest)
    requires CartCheck(Some(userId), Some(role)).Pass?
    requires userId !in db
    ensures AddToCart(db, Some(userId), Some(role), req).Ok?
    ensures var after := RemoveItem(AddToCart(db, Some(userId), Some(role), req).value,
                                    Some(userId), Some(role), req.propertyId);
            && after == Ok(db[userId := Cart([])])
            && after.value != db
            && GetCart(after.value, Some(userId), Some(role)) == GetCart(db, Some(userId), Some(role))
  {
    var added := AddToCart(db, Some(userId), Some(role), req).value;
    var line := [CartItem(req.propertyId, req.price, 1)];
    assert added[userId].items == line;
    assert FindItem(line, req.propertyId) == Some(0);
    assert line[..0] + line[1..] == [];
    var after := RemoveItem(added, Some(userId), Some(role), req.propertyId);
    assert after.value[userId] == Cart([]);
    assert after.value == db[userId := Cart([])];
  }

  /** A worked run: add listing 42 at 1000, add it again at 1500, then
      remove it. */
  lemma AddTwiceThenRemove(userId: int)
    ensures var req := AddToCartRequest(42, 1000);
            var db1 := AddToCart(map[], Some(userId), Some(CustomerRole), req);
            && db1 == Ok(map[userId := Cart([CartItem(42, 1000, 1)])])
            && var db2 := AddToCart(db1.value, Some(userId), Some(CustomerRole), AddToCartRequest(42, 1500));
               && db2 == Ok(map[userId := Cart([CartItem(42, 1000, 2)])])
               && RemoveItem(db2.value, Some(userId), Some(CustomerRole), 42) == Ok(map[userId := Cart([])])
  {
    var db0: CartDb := map[];
    var one := [CartItem(42, 1000, 1)];
    var two := [CartItem(42, 1000, 2)];
    var db1 := AddToCart(db0, Some(userId), Some(CustomerRole), AddToCartRequest(42, 1000));
    assert CartCheck(Some(userId), Some(CustomerRole)) == Pass;
    assert [] + one == one;
    assert AddItem(Cart([]), AddToCartRequest(42, 1000)) == Cart(one);
    assert EnsureCart(db0, userId)[userId := Cart(one)] == map[userId := Cart(one)];
    assert db1 == Ok(map[userId := Cart(one)]);
    assert FindItem(one, 42) == Some(0);
    assert AddItem(Cart(one), AddToCartRequest(42, 1500)) == Cart(two);
    var db2 := AddToCart(db1.value, Some(userId), Some(CustomerRole), AddToCartRequest(42, 1500));
    assert map[userId := Cart(one)][userId := Cart(two)] == map[userId := Cart(two)];
    assert db2 == Ok(map[userId := Cart(two)]);
    assert FindItem(two, 42) == Some(0);
    assert two[..0] + two[1..] == [];
    var db3 := RemoveItem(db2.value, Some(userId), Some(CustomerRole), 42);
    assert map[userId := Cart(two)][userId := Cart([])] == map[userId := Cart([])];
    assert db3 == Ok(map[userId := Cart([])]);
  }
}
