/** The shopping cart of each user: one line per menu item, a quantity of at
    least one, and a subtotal kept equal to the menu price times the quantity.
    Prices are integers in minor currency units. */
module Carts {
  import opened Common

  /** A cart line (CartItem): its id, the menu it orders, how many, and the
      stored subtotal. */
  datatype CartLine = CartLine(id: nat, menuId: nat, quantity: nat, subtotal: int)

  /** How a line is looked up: by the menu it orders (increment, decrement,
      merging on add) or by its own id (remove). */
  datatype Key = MenuKey(menuId: nat) | LineKey(lineId: nat)

  predicate Matches(l: CartLine, key: Key) {
    match key
    case MenuKey(m) => l.menuId == m
    case LineKey(id) => l.id == id
  }

  /** The first line from position `k` on that matches `key`. */
  function Find(lines: seq<CartLine>, key: Key, k: nat := 0): (r: Option<nat>)
    requires k <= |lines|
    ensures r.Some? ==> k <= r.value < |lines| && Matches(lines[r.value], key)
    ensures r.Some? ==> forall j :: k <= j < r.value ==> !Matches(lines[j], key)
    ensures r.None? ==> forall j :: k <= j < |lines| ==> !Matches(lines[j], key)
    decreases |lines| - k
  {
    if k == |lines| then None
    else if Matches(lines[k], key) then Some(k)
    else Find(lines, key, k + 1)
  }

  function Ids(lines: seq<CartLine>): set<nat> {
    set l | l in lines :: l.id
  }

  predicate DistinctMenus(lines: seq<CartLine>) {
    forall i, j :: 0 <= i < j < |lines| ==> lines[i].menuId != lines[j].menuId
  }

  predicate DistinctIds(lines: seq<CartLine>) {
    forall i, j :: 0 <= i < j < |lines| ==> lines[i].id != lines[j].id
  }

  /** Every line orders a known menu, at least once, at price times quantity. */
  predicate Priced(lines: seq<CartLine>, prices: map<nat, int>) {
    forall l :: l in lines ==> l.menuId in prices && l.quantity >= 1 && l.subtotal == prices[l.menuId] * l.quantity
  }

  predicate WellFormed(lines: seq<CartLine>, prices: map<nat, int>) {
    DistinctMenus(lines) && DistinctIds(lines) && Priced(lines, prices)
  }

  predicate PositivePrices(prices: map<nat, int>) {
    forall m :: m in prices ==> prices[m] > 0
  }

  /** The sum of the stored subtotals. */
  function Total(lines: seq<CartLine>): int {
    if lines == [] then 0 else lines[0].subtotal + Total(lines[1..])
  }

  /** The independent reading of a cart's value: price times quantity, line by line. */
  function PriceTotal(lines: seq<CartLine>, prices: map<nat, int>): int
    requires forall l :: l in lines ==> l.menuId in prices
  {
    if lines == [] then 0 else prices[lines[0].menuId] * lines[0].quantity + PriceTotal(lines[1..], prices)
  }

  /** How many of a menu the cart holds (0 when it has no line for it). */
  function QuantityOf(lines: seq<CartLine>, menuId: nat): nat {
    match Find(lines, MenuKey(menuId))
    case Some(i) => lines[i].quantity
    case None => 0
  }

  function RemoveAt(lines: seq<CartLine>, i: nat): (r: seq<CartLine>)
    requires i < |lines|
    ensures |r| == |lines| - 1
    ensures forall j :: 0 <= j < i ==> r[j] == lines[j]
    ensures forall j :: i <= j < |r| ==> r[j] == lines[j + 1]
  {
    lines[..i] + lines[i + 1..]
  }

  /** A line with a new quantity, its subtotal recomputed from the price. */
  function Repriced(l: CartLine, quantity: nat, price: int): CartLine {
    l.(quantity := quantity, subtotal := price * quantity)
  }

  /** addItemToCart on the lines: merge into the line of that menu, or append
      a fresh line. */
  function AddToLines(lines: seq<CartLine>, menuId: nat, quantity: nat, price: int, freshId: nat): seq<CartLine> {
    match Find(lines, MenuKey(menuId))
    case Some(i) => lines[i := Repriced(lines[i], lines[i].quantity + quantity, price)]
    case None => lines + [CartLine(freshId, menuId, quantity, price * quantity)]
  }

  /** incrementItem on the line at `i`. */
  function IncrementAt(lines: seq<CartLine>, i: nat, price: int): seq<CartLine>
    requires i < |lines|
  {
    lines[i := Repriced(lines[i], lines[i].quantity + 1, price)]
  }

  /** decrementItem on the line at `i`: a line at quantity one leaves the cart. */
  function DecrementAt(lines: seq<CartLine>, i: nat, price: int): seq<CartLine>
    requires i < |lines|
  {
    if lines[i].quantity <= 1 then RemoveAt(lines, i)
    else lines[i := Repriced(lines[i], lines[i].quantity - 1, price)]
  }

  // ---------------------------------------------------------------------------
  // Totals

  lemma {:induction false} TotalConcat(a: seq<CartLine>, b: seq<CartLine>)
    ensures Total(a + b) == Total(a) + Total(b)
  {
    if a == [] {
      assert a + b == b;
    } else {
      assert (a + b)[0] == a[0];
      assert (a + b)[1..] == a[1..] + b;
      TotalConcat(a[1..], b);
    }
  }

  /** Replacing one line changes the total by the difference of subtotals. */
  lemma TotalUpdate(lines: seq<CartLine>, i: nat, x: CartLine)
    requires i < |lines|
    ensures Total(lines[i := x]) == Total(lines) - lines[i].subtotal + x.subtotal
  {
    var pre, post := lines[..i], lines[i + 1..];
    assert lines == pre + [lines[i]] + post;
    assert lines[i := x] == pre + [x] + post;
    TotalConcat(pre + [lines[i]], post);
    TotalConcat(pre, [lines[i]]);
    TotalConcat(pre + [x], post);
    TotalConcat(pre, [x]);
  }

  /** Removing a line takes its subtotal off the total. */
  lemma TotalRemove(lines: seq<CartLine>, i: nat)
    requires i < |lines|
    ensures Total(RemoveAt(lines, i)) == Total(lines) - lines[i].subtotal
  {
    var pre, post := lines[..i], lines[i + 1..];
    var tail := [lines[i]] + post;
    assert lines == pre + tail;
    assert tail[1..] == post;
    assert RemoveAt(lines, i) == pre + post;
    TotalConcat(pre, tail);
    TotalConcat(pre, post);
  }

  /** On a priced cart the stored subtotals add up to price times quantity
      summed over the lines, so the total never drifts from the catalogue. */
  lemma {:induction false} TotalIsPriceTotal(lines: seq<CartLine>, prices: map<nat, int>)
    requires Priced(lines, prices)
    ensures Total(lines) == PriceTotal(lines, prices)
  {
    if lines != [] {
      TotalIsPriceTotal(lines[1..], prices);
    }
  }

  /** With positive prices every line is worth at least one unit, so a cart
      with lines has a positive total. */
  lemma {:induction false} TotalAtLeastLines(lines: seq<CartLine>, prices: map<nat, int>)
    requires Priced(lines, prices) && PositivePrices(prices)
    ensures Total(lines) >= |lines|
  {
    if lines != [] {
      var l := lines[0];
      assert l in lines;
      assert prices[l.menuId] * l.quantity >= 1 by {
        var p, q := prices[l.menuId], l.quantity;
        assert p >= 1 && q >= 1;
        assert p * q >= 1 * q;
      }
      TotalAtLeastLines(lines[1..], prices);
    }
  }

  // ---------------------------------------------------------------------------
  // Quantities

  /** With one line per menu, the line of a menu is the one Find returns. */
  lemma FindUnique(lines: seq<CartLine>, i: nat)
    requires DistinctMenus(lines) && i < |lines|
    ensures Find(lines, MenuKey(lines[i].menuId)) == Some(i)
    ensures QuantityOf(lines, lines[i].menuId) == lines[i].quantity
  {
  }

  lemma QuantityAbsent(lines: seq<CartLine>, menuId: nat)
    requires forall j :: 0 <= j < |lines| ==> lines[j].menuId != menuId
    ensures QuantityOf(lines, menuId) == 0
  {
  }

  /** Two carts that agree, for a menu, on whether and with what quantity they
      hold it, report the same quantity for it. */
  lemma QuantityAt(lines: seq<CartLine>, menuId: nat, q: nat)
    requires DistinctMenus(lines)
    requires (exists j :: 0 <= j < |lines| && lines[j].menuId == menuId && lines[j].quantity == q)
             || (q == 0 && forall j :: 0 <= j < |lines| ==> lines[j].menuId != menuId)
    ensures QuantityOf(lines, menuId) == q
  {
    if exists j :: 0 <= j < |lines| && lines[j].menuId == menuId && lines[j].quantity == q {
      var j :| 0 <= j < |lines| && lines[j].menuId == menuId && lines[j].quantity == q;
      FindUnique(lines, j);
    }
  }

  /** Replacing one line by a line of the same menu with quantity `q`: that
      menu now has `q`, every other menu keeps its quantity. */
  lemma QuantityAfterUpdate(lines: seq<CartLine>, i: nat, x: CartLine, m: nat)
    requires DistinctMenus(lines) && i < |lines| && x.menuId == lines[i].menuId
    ensures DistinctMenus(lines[i := x])
    ensures QuantityOf(lines[i := x], m) == if m == x.menuId then x.quantity else QuantityOf(lines, m)
  {
    var r := lines[i := x];
    if m == x.menuId {
      FindUnique(r, i);
    } else if j :| 0 <= j < |lines| && lines[j].menuId == m {
      FindUnique(lines, j);
      FindUnique(r, j);
    } else {
      QuantityAbsent(lines, m);
      QuantityAbsent(r, m);
    }
  }

  /** Removing the line at `i`: its menu drops to 0, every other menu keeps its quantity. */
  lemma QuantityAfterRemove(lines: seq<CartLine>, i: nat, m: nat)
    requires DistinctMenus(lines) && i < |lines|
    ensures DistinctMenus(RemoveAt(lines, i))
    ensures QuantityOf(RemoveAt(lines, i), m) == if m == lines[i].menuId then 0 else QuantityOf(lines, m)
  {
    var r := RemoveAt(lines, i);
    assert forall a, b :: 0 <= a < b < |r| ==> r[a].menuId != r[b].menuId by {
      forall a, b | 0 <= a < b < |r| ensures r[a].menuId != r[b].menuId {
        var a', b' := if a < i then a else a + 1, if b < i then b else b + 1;
        assert r[a] == lines[a'] && r[b] == lines[b'];
      }
    }
    if m == lines[i].menuId {
      forall j | 0 <= j < |r| ensures r[j].menuId != m {
        if j < i { assert r[j] == lines[j]; } else { assert r[j] == lines[j + 1]; }
      }
      QuantityAbsent(r, m);
    } else if j :| 0 <= j < |lines| && lines[j].menuId == m {
      FindUnique(lines, j);
      var j' := if j < i then j else j - 1;
      assert r[j'] == lines[j];
      FindUnique(r, j');
    } else {
      QuantityAbsent(lines, m);
      forall j | 0 <= j < |r| ensures r[j].menuId != m {
        if j < i { assert r[j] == lines[j]; } else { assert r[j] == lines[j + 1]; }
      }
      QuantityAbsent(r, m);
    }
  }

  // ---------------------------------------------------------------------------
  // The cart operations on one cart's lines

  /** Adding `quantity` of a menu: the cart then holds exactly that many more
      of it, in one line, every other menu is untouched, the total rises by
      price times quantity, and a line is appended only when the menu was not
      in the cart yet. */
  lemma AddToLinesSpec(lines: seq<CartLine>, prices: map<nat, int>, menuId: nat, quantity: nat, freshId: nat, m: nat)
    requires WellFormed(lines, prices) && menuId in prices && quantity >= 1 && freshId !in Ids(lines)
    ensures var r := AddToLines(lines, menuId, quantity, prices[menuId], freshId);
            && WellFormed(r, prices)
            && Ids(r) == Ids(lines) + (if QuantityOf(lines, menuId) == 0 then {freshId} else {})
            && QuantityOf(r, m) == (if m == menuId then QuantityOf(lines, menuId) + quantity else QuantityOf(lines, m))
            && Total(r) == Total(lines) + prices[menuId] * quantity
            && |r| == |lines| + (if QuantityOf(lines, menuId) == 0 then 1 else 0)
  {
    var price := prices[menuId];
    match Find(lines, MenuKey(menuId))
    case Some(i) =>
      FindUnique(lines, i);
      RepriceSpec(lines, prices, i, lines[i].quantity + quantity, m);
      assert price * (lines[i].quantity + quantity) == price * lines[i].quantity + price * quantity;
    case None =>
      QuantityAbsent(lines, menuId);
      AppendSpec(lines, prices, menuId, quantity, freshId, m);
  }

  /** Adding a menu the cart does not hold appends one fresh line for it. */
  lemma AppendSpec(lines: seq<CartLine>, prices: map<nat, int>, menuId: nat, quantity: nat, freshId: nat, m: nat)
    requires WellFormed(lines, prices) && menuId in prices && quantity >= 1 && freshId !in Ids(lines)
    requires forall j :: 0 <= j < |lines| ==> lines[j].menuId != menuId
    ensures var r := lines + [CartLine(freshId, menuId, quantity, prices[menuId] * quantity)];
            && WellFormed(r, prices)
            && Ids(r) == Ids(lines) + {freshId}
            && QuantityOf(r, m) == (if m == menuId then quantity else QuantityOf(lines, m))
            && Total(r) == Total(lines) + prices[menuId] * quantity
  {
    var x := CartLine(freshId, menuId, quantity, prices[menuId] * quantity);
    var r := lines + [x];
    AppendKeepsShape(lines, prices, x);
    FindUnique(r, |lines|);
    if m != menuId {
      if j :| 0 <= j < |lines| && lines[j].menuId == m {
        FindUnique(lines, j);
        FindUnique(r, j);
      } else {
        QuantityAbsent(lines, m);
        QuantityAbsent(r, m);
      }
    }
    TotalConcat(lines, [x]);
  }

  /** A fresh line for a menu the cart lacks keeps the cart well formed. */
  lemma AppendKeepsShape(lines: seq<CartLine>, prices: map<nat, int>, x: CartLine)
    requires WellFormed(lines, prices) && x.id !in Ids(lines)
    requires Priced([x], prices)
    requires forall j :: 0 <= j < |lines| ==> lines[j].menuId != x.menuId
    ensures WellFormed(lines + [x], prices)
    ensures Ids(lines + [x]) == Ids(lines) + {x.id}
  {
    var r := lines + [x];
    forall a | 0 <= a < |lines| ensures lines[a].id != x.id {
      assert lines[a] in lines;
    }
    assert forall l :: l in r ==> l in lines || l == x;
    assert Ids(r) == Ids(lines) + {x.id};
  }

  /** Setting the line at `i` to quantity `q`, subtotal recomputed: its menu
      now has `q`, others are untouched, and the total moves by the price times
      the change in quantity. */
  lemma RepriceSpec(lines: seq<CartLine>, prices: map<nat, int>, i: nat, q: nat, m: nat)
    requires WellFormed(lines, prices) && i < |lines| && q >= 1
    ensures lines[i].menuId in prices
    ensures var price := prices[lines[i].menuId];
            var r := lines[i := Repriced(lines[i], q, price)];
            && WellFormed(r, prices) && Ids(r) == Ids(lines) && |r| == |lines|
            && QuantityOf(r, m) == (if m == lines[i].menuId then q else QuantityOf(lines, m))
            && Total(r) == Total(lines) + price * q - price * lines[i].quantity
  {
    assert lines[i] in lines;
    var price := prices[lines[i].menuId];
    var x := Repriced(lines[i], q, price);
    ReplaceKeepsShape(lines, prices, i, x);
    QuantityAfterUpdate(lines, i, x, m);
    TotalUpdate(lines, i, x);
  }

  /** Incrementing a line: its menu gains one, others are untouched, the total
      rises by the price, and the lines stay well formed. */
  lemma IncrementSpec(lines: seq<CartLine>, prices: map<nat, int>, i: nat, m: nat)
    requires WellFormed(lines, prices) && i < |lines|
    ensures lines[i].menuId in prices
    ensures var price := prices[lines[i].menuId];
            var r := IncrementAt(lines, i, price);
            && WellFormed(r, prices) && Ids(r) == Ids(lines) && |r| == |lines|
            && QuantityOf(r, m) == (if m == lines[i].menuId then lines[i].quantity + 1 else QuantityOf(lines, m))
            && Total(r) == Total(lines) + price
  {
    RepriceSpec(lines, prices, i, lines[i].quantity + 1, m);
    MulSucc(prices[lines[i].menuId], lines[i].quantity);
  }

  /** Decrementing a line: its menu loses one (the line leaves at quantity
      one), others are untouched, and the total falls by the price. */
  lemma DecrementSpec(lines: seq<CartLine>, prices: map<nat, int>, i: nat, m: nat)
    requires WellFormed(lines, prices) && i < |lines|
    ensures lines[i].menuId in prices && lines[i].quantity >= 1
    ensures var r := DecrementAt(lines, i, prices[lines[i].menuId]);
            && WellFormed(r, prices) && Ids(r) <= Ids(lines)
            && |r| == (if lines[i].quantity == 1 then |lines| - 1 else |lines|)
            && QuantityOf(r, m) == (if m == lines[i].menuId then lines[i].quantity - 1 else QuantityOf(lines, m))
            && Total(r) == Total(lines) - prices[lines[i].menuId]
  {
    assert lines[i] in lines;
    if lines[i].quantity == 1 {
      DecrementLast(lines, prices, i, m);
    } else {
      DecrementMore(lines, prices, i, m);
    }
  }

  lemma DecrementLast(lines: seq<CartLine>, prices: map<nat, int>, i: nat, m: nat)
    requires WellFormed(lines, prices) && i < |lines| && lines[i].quantity == 1
    ensures lines[i].menuId in prices
    ensures var r := DecrementAt(lines, i, prices[lines[i].menuId]);
            && r == RemoveAt(lines, i)
            && WellFormed(r, prices) && Ids(r) <= Ids(lines) && |r| == |lines| - 1
            && QuantityOf(r, m) == (if m == lines[i].menuId then 0 else QuantityOf(lines, m))
            && Total(r) == Total(lines) - prices[lines[i].menuId]
  {
    assert lines[i] in lines;
    RemoveSpec(lines, prices, i, m);
  }

  lemma DecrementMore(lines: seq<CartLine>, prices: map<nat, int>, i: nat, m: nat)
    requires WellFormed(lines, prices) && i < |lines| && lines[i].quantity > 1
    ensures lines[i].menuId in prices
    ensures var r := DecrementAt(lines, i, prices[lines[i].menuId]);
            && WellFormed(r, prices) && Ids(r) == Ids(lines) && |r| == |lines|
            && QuantityOf(r, m) == (if m == lines[i].menuId then lines[i].quantity - 1 else QuantityOf(lines, m))
            && Total(r) == Total(lines) - prices[lines[i].menuId]
  {
    assert lines[i] in lines;
    var price := prices[lines[i].menuId];
    var q := lines[i].quantity - 1;
    var r := DecrementAt(lines, i, price);
    assert r == lines[i := Repriced(lines[i], q, price)];
    RepriceSpec(lines, prices, i, q, m);
    calc {
      Total(r);
      Total(lines) + price * q - price * (q + 1);
      { MulSucc(price, q); }
      Total(lines) - price;
    }
  }

  /** One more of a thing costs its price more. */
  lemma MulSucc(price: int, q: int)
    ensures price * (q + 1) == price * q + price
  {
  }

  /** Removing a line: its menu drops out, the others are untouched, and the
      total falls by that line's subtotal. */
  lemma RemoveSpec(lines: seq<CartLine>, prices: map<nat, int>, i: nat, m: nat)
    requires WellFormed(lines, prices) && i < |lines|
    ensures var r := RemoveAt(lines, i);
            && WellFormed(r, prices) && Ids(r) == Ids(lines) - {lines[i].id}
            && QuantityOf(r, m) == (if m == lines[i].menuId then 0 else QuantityOf(lines, m))
            && Total(r) == Total(lines) - lines[i].subtotal
  {
    RemoveKeepsShape(lines, prices, i);
    QuantityAfterRemove(lines, i, m);
    TotalRemove(lines, i);
  }

  lemma ReplaceKeepsShape(lines: seq<CartLine>, prices: map<nat, int>, i: nat, x: CartLine)
    requires WellFormed(lines, prices) && i < |lines|
    requires x.id == lines[i].id && x.menuId == lines[i].menuId && x.menuId in prices
    requires x.quantity >= 1 && x.subtotal == prices[x.menuId] * x.quantity
    ensures WellFormed(lines[i := x], prices) && Ids(lines[i := x]) == Ids(lines)
  {
    var r := lines[i := x];
    forall l | l in r ensures l.menuId in prices && l.quantity >= 1 && l.subtotal == prices[l.menuId] * l.quantity {
      var j :| 0 <= j < |r| && r[j] == l;
      if j != i { assert lines[j] in lines; }
    }
    forall id ensures id in Ids(r) <==> id in Ids(lines) {
      if id in Ids(r) {
        var l :| l in r && l.id == id;
        var j :| 0 <= j < |r| && r[j] == l;
        assert lines[j].id == id;
      }
      if id in Ids(lines) {
        var l :| l in lines && l.id == id;
        var j :| 0 <= j < |lines| && lines[j] == l;
        assert r[j] in r;
      }
    }
  }

  lemma RemoveKeepsShape(lines: seq<CartLine>, prices: map<nat, int>, i: nat)
    requires WellFormed(lines, prices) && i < |lines|
    ensures WellFormed(RemoveAt(lines, i), prices)
    ensures Ids(RemoveAt(lines, i)) == Ids(lines) - {lines[i].id}
  {
    RemoveKeepsDistinct(lines, i);
    RemoveKeepsMembers(lines, i);
    RemoveIds(lines, i);
  }

  lemma RemoveKeepsDistinct(lines: seq<CartLine>, i: nat)
    requires DistinctMenus(lines) && DistinctIds(lines) && i < |lines|
    ensures DistinctMenus(RemoveAt(lines, i)) && DistinctIds(RemoveAt(lines, i))
  {
    var r := RemoveAt(lines, i);
    forall a, b | 0 <= a < b < |r| ensures r[a].menuId != r[b].menuId && r[a].id != r[b].id {
      assert r[a] == lines[Skip(a, i)] && r[b] == lines[Skip(b, i)];
    }
  }

  lemma RemoveKeepsMembers(lines: seq<CartLine>, i: nat)
    requires i < |lines|
    ensures forall l :: l in RemoveAt(lines, i) ==> l in lines
  {
    var r := RemoveAt(lines, i);
    forall l | l in r ensures l in lines {
      var j :| 0 <= j < |r| && r[j] == l;
      assert lines[Skip(j, i)] == l;
    }
  }

  lemma RemoveIds(lines: seq<CartLine>, i: nat)
    requires DistinctIds(lines) && i < |lines|
    ensures Ids(RemoveAt(lines, i)) == Ids(lines) - {lines[i].id}
  {
    var r := RemoveAt(lines, i);
    forall id | id in Ids(r) ensures id in Ids(lines) - {lines[i].id} {
      var l :| l in r && l.id == id;
      var j :| 0 <= j < |r| && r[j] == l;
      assert lines[Skip(j, i)] == l;
    }
    forall id | id in Ids(lines) - {lines[i].id} ensures id in Ids(r) {
      var l :| l in lines && l.id == id;
      var j :| 0 <= j < |lines| && lines[j] == l;
      var j' := if j < i then j else j - 1;
      assert r[j'] == l;
    }
  }

  /** The position in the original lines of position `a` after removing `i`. */
  function Skip(a: nat, i: nat): nat {
    if a < i then a else a + 1
  }

  // ---------------------------------------------------------------------------
  // The store of all carts

  /** The repository of carts, keyed by the owning user: every cart well
      formed, every line id below the next id to hand out, and no line id in
      two carts. */
  predicate StoreValid(carts: map<nat, seq<CartLine>>, prices: map<nat, int>, nextLineId: nat) {
    && PositivePrices(prices)
    && (forall u :: u in carts ==> WellFormed(carts[u], prices))
    && (forall u, id :: u in carts && id in Ids(carts[u]) ==> id < nextLineId)
    && (forall u, v :: u in carts && v in carts && u != v ==> Ids(carts[u]) !! Ids(carts[v]))
  }

  /** Installing a well-formed cart whose ids are either its own old ids or
      freshly handed out keeps the store valid. */
  lemma StorePut(carts: map<nat, seq<CartLine>>, prices: map<nat, int>, next: nat, u: nat, lines: seq<CartLine>, next': nat)
    requires StoreValid(carts, prices, next) && WellFormed(lines, prices) && next <= next'
    requires forall id :: id in Ids(lines) ==> (u in carts && id in Ids(carts[u])) || next <= id < next'
    ensures StoreValid(carts[u := lines], prices, next')
  {
    var c := carts[u := lines];
    forall v, w | v in c && w in c && v != w ensures Ids(c[v]) !! Ids(c[w]) {
      if v == u || w == u {
        var o := if v == u then w else v;
        forall id | id in Ids(lines) ensures id !in Ids(carts[o]) {
          if u in carts && id in Ids(carts[u]) {
          } else {
            assert next <= id;
          }
        }
      }
    }
  }

  class CartService {
    /** The menu catalogue as seen by the cart: menu id to current price. */
    const prices: map<nat, int>
    /** The carts, keyed by the id of the user that owns them. */
    var carts: map<nat, seq<CartLine>>
    var nextLineId: nat

    ghost predicate Valid()
      reads this
    {
      StoreValid(carts, prices, nextLineId)
    }

    /** The lines of a user's cart, empty when the user has none yet. */
    function LinesOf(u: nat): seq<CartLine>
      reads this
    {
      if u in carts then carts[u] else []
    }

    constructor (menuPrices: map<nat, int>)
      requires PositivePrices(menuPrices)
      ensures Valid() && prices == menuPrices && carts == map[] && nextLineId == 0
    {
      prices := menuPrices;
      carts := map[];
      nextLineId := 0;
    }

    /** addItemToCart for the logged-in user (None when there is none): the
        menu must exist; the cart is created on first use; the quantity is
        merged into the line of that menu or a new line is added. */
    method AddItemToCart(user: Option<nat>, menuId: nat, quantity: nat) returns (r: Result<()>)
      requires Valid() && quantity >= 1
      modifies this
      ensures Valid()
      ensures r.Ok? <==> user.Some? && menuId in prices
      ensures r.Err? ==> r.error.NotFound? && carts == old(carts) && nextLineId == old(nextLineId)
      ensures r.Ok? ==> var u := user.value;
        && carts == old(carts)[u := AddToLines(old(LinesOf(u)), menuId, quantity, prices[menuId], old(nextLineId))]
        && nextLineId == old(nextLineId) + 1
    {
      if user.None? {
        return Err(NotFound("User not found"));
      }
      if menuId !in prices {
        return Err(NotFound("Menu item not found"));
      }
      var u := user.value;
      var lines := LinesOf(u);
      assert WellFormed(lines, prices);
      assert nextLineId !in Ids(lines);
      var lines' := AddToLines(lines, menuId, quantity, prices[menuId], nextLineId);
      AddToLinesSpec(lines, prices, menuId, quantity, nextLineId, menuId);
      StorePut(carts, prices, nextLineId, u, lines', nextLineId + 1);
      carts := carts[u := lines'];
      nextLineId := nextLineId + 1;
      r := Ok(());
    }

    /** incrementItem: one more of a menu already in the user's cart. */
    method IncrementItem(user: Option<nat>, menuId: nat) returns (r: Result<()>)
      requires Valid()
      modifies this`carts
      ensures Valid()
      ensures r.Ok? <==> user.Some? && user.value in old(carts) && QuantityOf(old(carts)[user.value], menuId) > 0
      ensures r.Err? ==> r.error.NotFound? && carts == old(carts)
      ensures r.Ok? ==> var u := user.value; var lines := old(carts)[u];
        && carts == old(carts)[u := IncrementAt(lines, Find(lines, MenuKey(menuId)).value, prices[menuId])]
    {
      if user.None? {
        return Err(NotFound("User not found"));
      }
      var u := user.value;
      if u !in carts {
        return Err(NotFound("Cart not found"));
      }
      var lines := carts[u];
      var found := Find(lines, MenuKey(menuId));
      if found.None? {
        QuantityAbsent(lines, menuId);
        return Err(NotFound("Cart item not found"));
      }
      var i := found.value;
      FindUnique(lines, i);
      assert lines[i] in lines;
      IncrementSpec(lines, prices, i, menuId);
      StorePut(carts, prices, nextLineId, u, IncrementAt(lines, i, prices[menuId]), nextLineId);
      carts := carts[u := IncrementAt(lines, i, prices[menuId])];
      r := Ok(());
    }

    /** decrementItem: one fewer of a menu in the user's cart; the line leaves
        the cart when its quantity was one. */
    method DecrementItem(user: Option<nat>, menuId: nat) returns (r: Result<()>)
      requires Valid()
      modifies this`carts
      ensures Valid()
      ensures r.Ok? <==> user.Some? && user.value in old(carts) && QuantityOf(old(carts)[user.value], menuId) > 0
      ensures r.Err? ==> r.error.NotFound? && carts == old(carts)
      ensures r.Ok? ==> var u := user.value; var lines := old(carts)[u];
        && carts == old(carts)[u := DecrementAt(lines, Find(lines, MenuKey(menuId)).value, prices[menuId])]
    {
      if user.None? {
        return Err(NotFound("User not found"));
      }
      var u := user.value;
      if u !in carts {
        return Err(NotFound("Cart not found"));
      }
      var lines := carts[u];
      var found := Find(lines, MenuKey(menuId));
      if found.None? {
        QuantityAbsent(lines, menuId);
        return Err(NotFound("Cart item not found"));
      }
      var i := found.value;
      FindUnique(lines, i);
      assert lines[i] in lines;
      DecrementSpec(lines, prices, i, menuId);
      StorePut(carts, prices, nextLineId, u, DecrementAt(lines, i, prices[menuId]), nextLineId);
      carts := carts[u := DecrementAt(lines, i, prices[menuId])];
      r := Ok(());
    }

    /** The ids of every stored line, in any cart (the cart item repository). */
    function AllLineIds(): set<nat>
      reads this
    {
      set u, id | u in carts && id in Ids(carts[u]) :: id
    }

    /** removeItem: the line must exist and must be in this user's cart; a
        line of another user's cart is reported as not found and left alone. */
    method RemoveItem(user: Option<nat>, lineId: nat) returns (r: Result<()>)
      requires Valid()
      modifies this`carts
      ensures Valid()
      ensures r.Ok? <==> user.Some? && user.value in old(carts) && lineId in Ids(old(carts)[user.value])
      ensures r.Err? ==> r.error.NotFound? && carts == old(carts)
      ensures r.Ok? ==> var u := user.value; var lines := old(carts)[u];
        && carts == old(carts)[u := RemoveAt(lines, Find(lines, LineKey(lineId)).value)]
    {
      if user.None? {
        return Err(NotFound("User not found"));
      }
      var u := user.value;
      if u !in carts {
        return Err(NotFound("Cart not found"));
      }
      if lineId !in AllLineIds() {
        return Err(NotFound("Cart item not found"));
      }
      var lines := carts[u];
      var found := Find(lines, LineKey(lineId));
      if found.None? {
        assert lineId !in Ids(lines);
        return Err(NotFound("Cart item does not belong to this cart"));
      }
      var i := found.value;
      RemoveSpec(lines, prices, i, lines[i].menuId);
      StorePut(carts, prices, nextLineId, u, RemoveAt(lines, i), nextLineId);
      carts := carts[u := RemoveAt(lines, i)];
      r := Ok(());
    }

    /** clearShoppingCart: empties the user's cart and returns the lines handed
        to the item repository's deleteAll, which is not called when there are
        none. */
    method ClearShoppingCart(user: Option<nat>) returns (r: Result<seq<CartLine>>)
      requires Valid()
      modifies this`carts
      ensures Valid()
      ensures r.Ok? <==> user.Some? && user.value in old(carts)
      ensures r.Err? ==> r.error.NotFound? && carts == old(carts)
      ensures r.Ok? ==> r.value == old(carts)[user.value] && carts == old(carts)[user.value := []]
    {
      if user.None? {
        return Err(NotFound("User not found"));
      }
      var u := user.value;
      if u !in carts {
        return Err(NotFound("Cart not found"));
      }
      var deleted := carts[u];
      StorePut(carts, prices, nextLineId, u, [], nextLineId);
      carts := carts[u := []];
      r := Ok(deleted);
    }
  }

  /** The cart as getShoppingCart returns it. */
  datatype CartView = CartView(lines: seq<CartLine>, totalAmount: int)

  /** getShoppingCart over a cart store: the user's lines and their total,
      which equals price times quantity summed over the lines and is 0 for an
      empty cart. */
  function GetShoppingCart(carts: map<nat, seq<CartLine>>, prices: map<nat, int>, next: nat, user: Option<nat>): (r: Result<CartView>)
    requires StoreValid(carts, prices, next)
    ensures r.Ok? <==> user.Some? && user.value in carts
    ensures r.Err? ==> r.error.NotFound?
    ensures r.Ok? ==> r.value.lines == carts[user.value]
    ensures r.Ok? ==> r.value.totalAmount == PriceTotal(r.value.lines, prices)
    ensures r.Ok? ==> (r.value.totalAmount == 0 <==> r.value.lines == [])
  {
    if user.None? then Err(NotFound("User not found"))
    else if user.value !in carts then Err(NotFound("Cart not found"))
    else
      var lines := carts[user.value];
      TotalIsPriceTotal(lines, prices);
      TotalAtLeastLines(lines, prices);
      Ok(CartView(lines, Total(lines)))
  }
}
