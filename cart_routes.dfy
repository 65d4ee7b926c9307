/**
 * The cart routes (Backend/Routes/cartRoutes.js): a table of cart items keyed
 * by (userId, productId) holding quantities, and the five handlers that
 * change or read it.  The collection is kept as its rows in natural
 * (insertion) order, which is the order `find` returns them in; `Table`
 * views the rows as a map from key to quantity.
 */
module CartRoutes {
  import opened Primitives

  /** One document of the cart collection. */
  datatype CartItem = CartItem(userId: string, productId: string, quantity: int)

  type Key = (string, string)

  function KeyOf(it: CartItem): Key
  {
    (it.userId, it.productId)
  }

  /** No two rows share a (userId, productId) pair. */
  ghost predicate Unique(items: seq<CartItem>)
  {
    forall i, j :: 0 <= i < j < |items| ==> KeyOf(items[i]) != KeyOf(items[j])
  }

  /** The rows as a map from key to quantity; on a repeated key the first row wins, as for `findOne`. */
  function Table(items: seq<CartItem>): map<Key, int>
  {
    if |items| == 0 then map[] else Table(items[1..])[KeyOf(items[0]) := items[0].quantity]
  }

  /** `findOne({ userId, productId })`: the position of the first row with that key. */
  function FindIndex(items: seq<CartItem>, key: Key): (r: Option<nat>)
    ensures r.Some? ==> r.value < |items| && KeyOf(items[r.value]) == key
    ensures r.Some? ==> forall k :: 0 <= k < r.value ==> KeyOf(items[k]) != key
    ensures r.None? ==> forall k :: 0 <= k < |items| ==> KeyOf(items[k]) != key
  {
    if |items| == 0 then None
    else if KeyOf(items[0]) == key then Some(0)
    else match FindIndex(items[1..], key)
         case None => None
         case Some(i) => Some(i + 1)
  }

  /** `find({ userId })`: that user's rows, in order. */
  function ItemsOf(items: seq<CartItem>, userId: string): (r: seq<CartItem>)
    ensures |r| <= |items|
    ensures forall k :: 0 <= k < |r| ==> r[k].userId == userId
  {
    if |items| == 0 then []
    else if items[0].userId == userId then [items[0]] + ItemsOf(items[1..], userId)
    else ItemsOf(items[1..], userId)
  }

  /** The collection after `deleteMany({ userId })`. */
  function DropUser(items: seq<CartItem>, userId: string): (r: seq<CartItem>)
    ensures |r| <= |items|
    ensures forall k :: 0 <= k < |r| ==> r[k].userId != userId
  {
    if |items| == 0 then []
    else if items[0].userId == userId then DropUser(items[1..], userId)
    else [items[0]] + DropUser(items[1..], userId)
  }

  /** The collection after `findOneAndDelete` removes row `i`: the rows before it and after it, in order. */
  function RemoveAt(items: seq<CartItem>, i: nat): (r: seq<CartItem>)
    requires i < |items|
    ensures |r| == |items| - 1
    ensures forall k :: 0 <= k < i ==> r[k] == items[k]
    ensures forall k :: i <= k < |r| ==> r[k] == items[k + 1]
  {
    if i == 0 then items[1..] else [items[0]] + RemoveAt(items[1..], i - 1)
  }

  /** The entries of a table that belong to other users. */
  function OthersOf(m: map<Key, int>, userId: string): map<Key, int>
  {
    map k | k in m && k.0 != userId :: m[k]
  }

  // ------------------------------------------------------------ lemmas

  lemma UniqueTail(items: seq<CartItem>)
    requires |items| > 0 && Unique(items)
    ensures Unique(items[1..])
    ensures forall j :: 0 <= j < |items[1..]| ==> KeyOf(items[1..][j]) != KeyOf(items[0])
  {
    forall i, j | 0 <= i < j < |items[1..]|
      ensures KeyOf(items[1..][i]) != KeyOf(items[1..][j])
    {
      assert items[1..][i] == items[i + 1] && items[1..][j] == items[j + 1];
    }
  }

  /** The keys of the table are exactly the keys of the rows. */
  lemma {:induction false} TableKeys(items: seq<CartItem>)
    ensures Table(items).Keys == set j | 0 <= j < |items| :: KeyOf(items[j])
  {
    if |items| > 0 {
      TableKeys(items[1..]);
      var tail := set j | 0 <= j < |items[1..]| :: KeyOf(items[1..][j]);
      var all := set j | 0 <= j < |items| :: KeyOf(items[j]);
      forall k | k in all ensures k in tail + {KeyOf(items[0])} {
        var j :| 0 <= j < |items| && KeyOf(items[j]) == k;
        if j > 0 { assert items[1..][j - 1] == items[j]; }
      }
      forall k | k in tail ensures k in all {
        var j :| 0 <= j < |items[1..]| && KeyOf(items[1..][j]) == k;
        assert items[j + 1] == items[1..][j];
      }
    }
  }

  /** In a table without repeated keys, every row's quantity is the quantity of its key. */
  lemma {:induction false} TableAt(items: seq<CartItem>, i: nat)
    requires Unique(items) && i < |items|
    ensures KeyOf(items[i]) in Table(items) && Table(items)[KeyOf(items[i])] == items[i].quantity
  {
    if i > 0 {
      UniqueTail(items);
      TableAt(items[1..], i - 1);
      assert items[1..][i - 1] == items[i];
    }
  }

  /** `findOne` finds a row exactly when the table holds its key, and that row carries the key's quantity. */
  lemma FindIndexAgreesWithTable(items: seq<CartItem>, key: Key)
    requires Unique(items)
    ensures FindIndex(items, key).None? <==> key !in Table(items)
    ensures FindIndex(items, key).Some? ==> Table(items)[key] == items[FindIndex(items, key).value].quantity
  {
    TableKeys(items);
    var r := FindIndex(items, key);
    if r.Some? {
      TableAt(items, r.value);
    }
  }

  /** Setting one row's quantity sets its key's quantity and nothing else. */
  lemma {:induction false} TableSetQuantity(items: seq<CartItem>, i: nat, q: int)
    requires Unique(items) && i < |items|
    ensures Table(items[i := items[i].(quantity := q)]) == Table(items)[KeyOf(items[i]) := q]
  {
    var items' := items[i := items[i].(quantity := q)];
    if i == 0 {
      assert items'[1..] == items[1..];
    } else {
      UniqueTail(items);
      assert items'[1..] == items[1..][i - 1 := items[1..][i - 1].(quantity := q)];
      TableSetQuantity(items[1..], i - 1, q);
      assert KeyOf(items[0]) != KeyOf(items[i]);
    }
  }

  lemma TableCons(x: CartItem, rest: seq<CartItem>)
    ensures Table([x] + rest) == Table(rest)[KeyOf(x) := x.quantity]
  {
    assert ([x] + rest)[1..] == rest;
  }

  /** Deleting one row deletes its key and nothing else. */
  lemma {:induction false} TableRemoveAt(items: seq<CartItem>, i: nat)
    requires Unique(items) && i < |items|
    ensures Table(RemoveAt(items, i)) == Table(items) - {KeyOf(items[i])}
  {
    var x, rest := items[0], items[1..];
    UniqueTail(items);
    if i == 0 {
      TableKeys(rest);
      assert KeyOf(x) !in Table(rest);
    } else {
      var shorter := RemoveAt(rest, i - 1);
      TableCons(x, shorter);
      TableRemoveAt(rest, i - 1);
      assert rest[i - 1] == items[i];
      assert KeyOf(x) != KeyOf(items[i]);
    }
  }

  /** Appending a row with a new key adds that key and nothing else. */
  lemma {:induction false} TableAppend(items: seq<CartItem>, x: CartItem)
    requires KeyOf(x) !in Table(items)
    ensures Table(items + [x]) == Table(items)[KeyOf(x) := x.quantity]
  {
    if |items| == 0 {
      assert items + [x] == [x];
      assert [x][1..] == [];
    } else {
      assert (items + [x])[1..] == items[1..] + [x];
      assert KeyOf(x) !in Table(items[1..]);
      TableAppend(items[1..], x);
    }
  }

  /** Removing a row keeps the keys unique. */
  lemma RemoveAtUnique(items: seq<CartItem>, i: nat)
    requires Unique(items) && i < |items|
    ensures Unique(RemoveAt(items, i))
  {
    var r := RemoveAt(items, i);
    forall a, b | 0 <= a < b < |r| ensures KeyOf(r[a]) != KeyOf(r[b]) {
      var a' := if a < i then a else a + 1;
      var b' := if b < i then b else b + 1;
      assert r[a] == items[a'] && r[b] == items[b'];
    }
  }

  /** Appending a row with a new key keeps the keys unique. */
  lemma AppendUnique(items: seq<CartItem>, x: CartItem)
    requires Unique(items) && KeyOf(x) !in Table(items)
    ensures Unique(items + [x])
  {
    TableKeys(items);
    var r := items + [x];
    forall a, b | 0 <= a < b < |r| ensures KeyOf(r[a]) != KeyOf(r[b]) {
      if b == |items| {
        assert KeyOf(items[a]) in Table(items);
      }
    }
  }

  /** Every row `deleteMany` leaves was a row before. */
  lemma {:induction false} DropUserSubset(items: seq<CartItem>, userId: string)
    ensures forall y :: y in DropUser(items, userId) ==> y in items
  {
    if |items| > 0 {
      DropUserSubset(items[1..], userId);
    }
  }

  /** `deleteMany` keeps the keys unique. */
  lemma {:induction false} DropUserUnique(items: seq<CartItem>, userId: string)
    requires Unique(items)
    ensures Unique(DropUser(items, userId))
  {
    if |items| > 0 {
      UniqueTail(items);
      DropUserUnique(items[1..], userId);
      if items[0].userId != userId {
        var rest := DropUser(items[1..], userId);
        DropUserSubset(items[1..], userId);
        forall k | 0 <= k < |rest| ensures KeyOf(rest[k]) != KeyOf(items[0]) {
          assert rest[k] in items[1..];
        }
        var r := [items[0]] + rest;
        forall a, b | 0 <= a < b < |r| ensures KeyOf(r[a]) != KeyOf(r[b]) {
          if a > 0 { assert r[a] == rest[a - 1]; }
          assert r[b] == rest[b - 1];
        }
      }
    }
  }

  /** A user's cart is empty exactly when no row belongs to that user. */
  lemma {:induction false} ItemsOfEmpty(items: seq<CartItem>, userId: string)
    ensures ItemsOf(items, userId) == [] <==> forall k :: 0 <= k < |items| ==> items[k].userId != userId
  {
    if |items| > 0 {
      ItemsOfEmpty(items[1..], userId);
      assert forall k :: 1 <= k < |items| ==> items[k] == items[1..][k - 1];
    }
  }

  /** After `deleteMany({ userId })` that user has no rows and every other user has exactly the rows they had. */
  lemma {:induction false} DropUserKeepsOthers(items: seq<CartItem>, userId: string, other: string)
    ensures ItemsOf(DropUser(items, userId), other) == if other == userId then [] else ItemsOf(items, other)
  {
    if |items| > 0 {
      DropUserKeepsOthers(items[1..], userId, other);
      if items[0].userId != userId {
        assert ([items[0]] + DropUser(items[1..], userId))[1..] == DropUser(items[1..], userId);
      }
    }
  }

  /** Nothing is lost: the rows of a user and the rows `deleteMany` leaves are together the whole collection. */
  lemma {:induction false} ItemsOfPartition(items: seq<CartItem>, userId: string)
    ensures multiset(items) == multiset(ItemsOf(items, userId)) + multiset(DropUser(items, userId))
  {
    if |items| > 0 {
      ItemsOfPartition(items[1..], userId);
      assert items == [items[0]] + items[1..];
    }
  }

  /** Seen as a table, `deleteMany({ userId })` removes that user's keys and keeps every other entry. */
  lemma {:induction false} TableDropUser(items: seq<CartItem>, userId: string)
    ensures Table(DropUser(items, userId)) == OthersOf(Table(items), userId)
  {
    if |items| > 0 {
      TableDropUser(items[1..], userId);
      var x := items[0];
      if x.userId == userId {
        assert OthersOf(Table(items), userId) == OthersOf(Table(items[1..]), userId);
      } else {
        assert ([x] + DropUser(items[1..], userId))[1..] == DropUser(items[1..], userId);
        assert OthersOf(Table(items), userId) == OthersOf(Table(items[1..]), userId)[KeyOf(x) := x.quantity];
      }
    }
  }

  // ---------------------------------------------------------- projections

  /** A product as `populate('productId')` joins it. */
  datatype Product = Product(title: string, price: int)

  /** One entry of a cart listing. */
  datatype CartLine = CartLine(productId: Option<string>, title: string, price: int, quantity: int)

  const ProductNotFoundTitle := "Product not found"

  /** The `GET /:userId` projection of one row, with its defaults for a missing product or title. */
  function FormatLine(it: CartItem, products: map<string, Product>): (l: CartLine)
    ensures l.quantity == it.quantity
    ensures it.productId !in products ==> l == CartLine(None, ProductNotFoundTitle, 0, it.quantity)
    ensures it.productId in products ==>
              && l.productId == Some(it.productId)
              && l.price == products[it.productId].price
              && l.title == (if products[it.productId].title != "" then products[it.productId].title else ProductNotFoundTitle)
  {
    if it.productId in products then
      var p := products[it.productId];
      CartLine(Some(it.productId), if p.title != "" then p.title else ProductNotFoundTitle, p.price, it.quantity)
    else
      CartLine(None, ProductNotFoundTitle, 0, it.quantity)
  }

  /** The buy-all projection: no defaults, so it needs every product to exist. */
  predicate ProductsExist(items: seq<CartItem>, products: map<string, Product>)
  {
    forall k :: 0 <= k < |items| ==> items[k].productId in products
  }

  function PurchaseLines(items: seq<CartItem>, products: map<string, Product>): (ls: seq<CartLine>)
    requires ProductsExist(items, products)
    ensures |ls| == |items|
    ensures forall k :: 0 <= k < |items| ==>
              ls[k] == CartLine(Some(items[k].productId), products[items[k].productId].title,
                                products[items[k].productId].price, items[k].quantity)
  {
    seq(|items|, k requires 0 <= k < |items| =>
      var p := products[items[k].productId];
      CartLine(Some(items[k].productId), p.title, p.price, items[k].quantity))
  }

  // --------------------------------------------------------------- replies

  const MissingFieldsMessage := "Missing required fields"
  const InvalidUserIdMessage := "Invalid userId"
  const InvalidProductIdMessage := "Invalid productId"
  const InvalidIdsMessage := "Invalid userId or productId"
  const ItemAddedMessage := "Item added to cart successfully"
  const ItemRemovedByUpdateMessage := "Item removed from cart"
  const ItemNotFoundMessage := "Cart item not found"
  const ItemUpdatedMessage := "Cart item updated successfully"
  const ItemRemovedMessage := "Item removed from cart successfully"
  const CartEmptyMessage := "Cart is empty"
  const PurchasedMessage := "All items purchased successfully"
  const PurchaseFailedMessage := "Failed to process purchase"

  datatype CartBody =
    | Message(message: string)
    | Lines(lines: seq<CartLine>)
    | Updated(message: string, item: CartItem)
    | Purchased(message: string, items: seq<CartLine>)

  datatype CartReply = CartReply(status: nat, body: CartBody)

  /** JavaScript truthiness of an optional number: absent, null and 0 are falsy. */
  predicate TruthyNumber(n: Option<int>)
  {
    n.Some? && n.value != 0
  }

  // --------------------------------------------------------------- handlers

  class CartTable {
    /** `mongoose.Types.ObjectId.isValid`, left abstract. */
    const validId: string -> bool
    var items: seq<CartItem>

    ghost predicate Valid()
      reads this
    {
      Unique(items)
    }

    function Contents(): map<Key, int>
      reads this
    {
      Table(items)
    }

    constructor (validId: string -> bool)
      ensures Valid() && this.validId == validId && items == []
    {
      this.validId := validId;
      items := [];
    }

    /** `POST /add`: merge into the existing row of the pair, or insert a new one. */
    method Add(userId: Option<string>, productId: Option<string>, quantity: Option<int>) returns (r: CartReply)
      requires Valid()
      modifies this
      ensures Valid()
      ensures !Truthy(userId) || !Truthy(productId) || !TruthyNumber(quantity) ==>
                r == CartReply(400, Message(MissingFieldsMessage)) && items == old(items)
      ensures Truthy(userId) && Truthy(productId) && TruthyNumber(quantity) && !validId(userId.value) ==>
                r == CartReply(400, Message(InvalidUserIdMessage)) && items == old(items)
      ensures Truthy(userId) && Truthy(productId) && TruthyNumber(quantity) && validId(userId.value) &&
              !validId(productId.value) ==>
                r == CartReply(400, Message(InvalidProductIdMessage)) && items == old(items)
      ensures Truthy(userId) && Truthy(productId) && TruthyNumber(quantity) && validId(userId.value) &&
              validId(productId.value) ==>
                var key := (userId.value, productId.value);
                && r == CartReply(201, Message(ItemAddedMessage))
                && (key in old(Contents()) ==>
                      && Contents() == old(Contents())[key := old(Contents())[key] + quantity.value]
                      && FindIndex(old(items), key).Some?
                      && var i := FindIndex(old(items), key).value;
                         items == old(items)[i := old(items)[i].(quantity := old(items)[i].quantity + quantity.value)])
                && (key !in old(Contents()) ==>
                      && Contents() == old(Contents())[key := quantity.value]
                      && items == old(items) + [CartItem(userId.value, productId.value, quantity.value)])
    {
      if !Truthy(userId) || !Truthy(productId) || !TruthyNumber(quantity) {
        return CartReply(400, Message(MissingFieldsMessage));
      }
      if !validId(userId.value) {
        return CartReply(400, Message(InvalidUserIdMessage));
      }
      if !validId(productId.value) {
        return CartReply(400, Message(InvalidProductIdMessage));
      }
      var key := (userId.value, productId.value);
      var found := FindIndex(items, key);
      FindIndexAgreesWithTable(items, key);
      if found.Some? {
        var i := found.value;
        TableSetQuantity(items, i, items[i].quantity + quantity.value);
        items := items[i := items[i].(quantity := items[i].quantity + quantity.value)];
      } else {
        var item := CartItem(userId.value, productId.value, quantity.value);
        TableAppend(items, item);
        AppendUnique(items, item);
        items := items + [item];
      }
      r := CartReply(201, Message(ItemAddedMessage));
    }

    /** `GET /:userId`: the user's rows, in order, each with its product joined in. */
    method Get(userId: string, products: map<string, Product>) returns (r: CartReply)
      ensures !validId(userId) ==> r == CartReply(400, Message(InvalidUserIdMessage))
      ensures validId(userId) ==>
                && r.status == 200 && r.body.Lines?
                && |r.body.lines| == |ItemsOf(items, userId)|
                && forall k :: 0 <= k < |r.body.lines| ==>
                     r.body.lines[k] == FormatLine(ItemsOf(items, userId)[k], products)
    {
      if !validId(userId) {
        return CartReply(400, Message(InvalidUserIdMessage));
      }
      var mine := ItemsOf(items, userId);
      var lines := seq(|mine|, k requires 0 <= k < |mine| => FormatLine(mine[k], products));
      r := CartReply(200, Lines(lines));
    }

    /** `PUT /update`: a quantity below 1 deletes the row; otherwise it becomes the row's quantity. */
    method Update(userId: Option<string>, productId: Option<string>, quantity: Option<int>) returns (r: CartReply)
      requires Valid()
      modifies this
      ensures Valid()
      ensures !Truthy(userId) || !Truthy(productId) || quantity.None? ==>
                r == CartReply(400, Message(MissingFieldsMessage)) && items == old(items)
      ensures Truthy(userId) && Truthy(productId) && quantity.Some? &&
              (!validId(userId.value) || !validId(productId.value)) ==>
                r == CartReply(400, Message(InvalidIdsMessage)) && items == old(items)
      ensures Truthy(userId) && Truthy(productId) && quantity.Some? &&
              validId(userId.value) && validId(productId.value) ==>
                var key := (userId.value, productId.value);
                && (quantity.value < 1 ==>
                      && r == CartReply(200, Message(ItemRemovedByUpdateMessage))
                      && Contents() == old(Contents()) - {key})
                && (quantity.value < 1 && key !in old(Contents()) ==> items == old(items))
                && (quantity.value < 1 && key in old(Contents()) ==>
                      && FindIndex(old(items), key).Some?
                      && items == RemoveAt(old(items), FindIndex(old(items), key).value))
                && (quantity.value >= 1 && key !in old(Contents()) ==>
                      r == CartReply(404, Message(ItemNotFoundMessage)) && items == old(items))
                && (quantity.value >= 1 && key in old(Contents()) ==>
                      && r == CartReply(200, Updated(ItemUpdatedMessage, CartItem(key.0, key.1, quantity.value)))
                      && Contents() == old(Contents())[key := quantity.value]
                      && FindIndex(old(items), key).Some?
                      && var i := FindIndex(old(items), key).value;
                         items == old(items)[i := old(items)[i].(quantity := quantity.value)])
    {
      if !Truthy(userId) || !Truthy(productId) || quantity.None? {
        return CartReply(400, Message(MissingFieldsMessage));
      }
      if !validId(userId.value) || !validId(productId.value) {
        return CartReply(400, Message(InvalidIdsMessage));
      }
      var key := (userId.value, productId.value);
      var found := FindIndex(items, key);
      FindIndexAgreesWithTable(items, key);
      if quantity.value < 1 {
        // findOneAndDelete: succeeds whether or not a row was there
        if found.Some? {
          TableRemoveAt(items, found.value);
          RemoveAtUnique(items, found.value);
          items := RemoveAt(items, found.value);
        }
        return CartReply(200, Message(ItemRemovedByUpdateMessage));
      }
      if found.None? {
        return CartReply(404, Message(ItemNotFoundMessage));
      }
      var i := found.value;
      TableSetQuantity(items, i, quantity.value);
      items := items[i := items[i].(quantity := quantity.value)];
      r := CartReply(200, Updated(ItemUpdatedMessage, items[i]));
    }

    /** `DELETE /remove`: delete the pair's row, or 404 when there is none. */
    method Remove(userId: Option<string>, productId: Option<string>) returns (r: CartReply)
      requires Valid()
      modifies this
      ensures Valid()
      ensures !Truthy(userId) || !Truthy(productId) ==>
                r == CartReply(400, Message(MissingFieldsMessage)) && items == old(items)
      ensures Truthy(userId) && Truthy(productId) && (!validId(userId.value) || !validId(productId.value)) ==>
                r == CartReply(400, Message(InvalidIdsMessage)) && items == old(items)
      ensures Truthy(userId) && Truthy(productId) && validId(userId.value) && validId(productId.value) ==>
                var key := (userId.value, productId.value);
                && (key !in old(Contents()) ==>
                      r == CartReply(404, Message(ItemNotFoundMessage)) && items == old(items))
                && (key in old(Contents()) ==>
                      && r == CartReply(200, Message(ItemRemovedMessage))
                      && Contents() == old(Contents()) - {key}
                      && FindIndex(old(items), key).Some?
                      && items == RemoveAt(old(items), FindIndex(old(items), key).value))
    {
      if !Truthy(userId) || !Truthy(productId) {
        return CartReply(400, Message(MissingFieldsMessage));
      }
      if !validId(userId.value) || !validId(productId.value) {
        return CartReply(400, Message(InvalidIdsMessage));
      }
      var key := (userId.value, productId.value);
      var found := FindIndex(items, key);
      FindIndexAgreesWithTable(items, key);
      if found.None? {
        return CartReply(404, Message(ItemNotFoundMessage));
      }
      TableRemoveAt(items, found.value);
      RemoveAtUnique(items, found.value);
      items := RemoveAt(items, found.value);
      r := CartReply(200, Message(ItemRemovedMessage));
    }

    /**
     * `POST /buyall/:userId`: clear the user's cart and list what it held.
     * The rows are deleted before the listing is built, and the listing
     * dereferences every product, so a row whose product is gone ends in a
     * 500 after the cart has been cleared.
     */
    method BuyAll(userId: string, products: map<string, Product>) returns (r: CartReply)
      requires Valid()
      modifies this
      ensures Valid()
      ensures !validId(userId) ==> r == CartReply(400, Message(InvalidUserIdMessage)) && items == old(items)
      ensures validId(userId) && ItemsOf(old(items), userId) == [] ==>
                r == CartReply(404, Message(CartEmptyMessage)) && items == old(items)
      ensures validId(userId) && ItemsOf(old(items), userId) != [] ==>
                var bought := ItemsOf(old(items), userId);
                && items == DropUser(old(items), userId)
                && Contents() == OthersOf(old(Contents()), userId)
                && (ProductsExist(bought, products) ==>
                      r == CartReply(200, Purchased(PurchasedMessage, PurchaseLines(bought, products))))
                && (!ProductsExist(bought, products) ==> r == CartReply(500, Message(PurchaseFailedMessage)))
    {
      if !validId(userId) {
        return CartReply(400, Message(InvalidUserIdMessage));
      }
      var cartItems := ItemsOf(items, userId);
      if |cartItems| == 0 {
        return CartReply(404, Message(CartEmptyMessage));
      }
      TableDropUser(items, userId);
      DropUserUnique(items, userId);
      items := DropUser(items, userId);
      if !ProductsExist(cartItems, products) {
        return CartReply(500, Message(PurchaseFailedMessage));
      }
      r := CartReply(200, Purchased(PurchasedMessage, PurchaseLines(cartItems, products)));
    }
  }
}
