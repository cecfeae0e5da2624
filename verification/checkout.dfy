/** Checkout: turning a user's cart into an order against live stock.  The
    request is validated, every line is compared with the product's current
    stock, and either the whole list of shortfalls is returned or every
    product's stock drops by its line quantity, an order carrying the cart's
    total is created and the cart is emptied. */
module Checkout {
  import opened Base
  import opened Shop
  import opened Carts
  import opened Catalogue

  // ---------------------------------------------------------------------------
  // The notification e-mail pattern
  //   local part, '@', domain, then one or more '.' + 2..3 word characters,
  //   where local part and domain are word runs joined by single '.' or '-'.
  // ---------------------------------------------------------------------------

  predicate IsWordChar(c: char) {
    ('a' <= c <= 'z') || ('A' <= c <= 'Z') || ('0' <= c <= '9') || c == '_'
  }

  predicate IsSeparator(c: char) {
    c == '.' || c == '-'
  }

  /** Runs of word characters joined by single separators: non-empty, starting
      and ending with a word character, never two separators in a row. */
  predicate Segmented(s: string) {
    && |s| > 0
    && IsWordChar(s[0])
    && IsWordChar(s[|s| - 1])
    && (forall i :: 0 <= i < |s| ==> IsWordChar(s[i]) || IsSeparator(s[i]))
    && (forall i :: 0 <= i < |s| - 1 ==> IsWordChar(s[i]) || IsWordChar(s[i + 1]))
  }

  predicate AllWordChars(s: string) {
    forall i :: 0 <= i < |s| ==> IsWordChar(s[i])
  }

  /** A domain ending in '.' and a 2- or 3-character top-level segment.  Any
      earlier '.'-groups the pattern's repetition could absorb are themselves
      segmented text, so splitting off the last group is enough. */
  predicate DomainOk(d: string) {
    TopLevelSplit(d, 2) || TopLevelSplit(d, 3)
  }

  /** `d` is segmented text, '.', and `n` word characters. */
  predicate TopLevelSplit(d: string, n: nat) {
    && |d| >= n + 1
    && d[|d| - n - 1] == '.'
    && AllWordChars(d[|d| - n..])
    && Segmented(d[..|d| - n - 1])
  }

  /** `s` is a local part, '@' at position `i`, and a domain. */
  predicate EmailSplitAt(s: string, i: int) {
    0 <= i < |s| && s[i] == '@' && Segmented(s[..i]) && DomainOk(s[i + 1..])
  }

  predicate ValidEmail(s: string) {
    exists i | 0 <= i < |s| :: EmailSplitAt(s, i)
  }

  /** The pattern's domain tail read literally: one or more groups of '.'
      followed by two or three word characters. */
  predicate DotGroups(t: string)
    decreases |t|
  {
    || (|t| >= 3 && t[0] == '.' && AllWordChars(t[1..3]) && (|t| == 3 || DotGroups(t[3..])))
    || (|t| >= 4 && t[0] == '.' && AllWordChars(t[1..4]) && (|t| == 4 || DotGroups(t[4..])))
  }

  /** The pattern's domain read literally: segmented text, then the groups. */
  predicate RegexDomain(d: string) {
    exists k | 0 <= k <= |d| :: Segmented(d[..k]) && DotGroups(d[k..])
  }

  /** The whole pattern read literally. */
  predicate RegexEmail(s: string) {
    exists i | 0 <= i < |s| :: s[i] == '@' && Segmented(s[..i]) && RegexDomain(s[i + 1..])
  }

  /** Segmented text, '.', and a run of word characters is segmented. */
  lemma SegmentedExtend(a: string, w: string)
    requires Segmented(a) && |w| > 0 && AllWordChars(w)
    ensures Segmented(a + ['.'] + w)
  {
    var b := a + ['.'] + w;
    forall i | 0 <= i < |b| - 1
      ensures IsWordChar(b[i]) || IsWordChar(b[i + 1])
    {
      if i < |a| - 1 {
        assert b[i] == a[i] && b[i + 1] == a[i + 1];
      } else if i == |a| - 1 {
        assert b[i] == a[|a| - 1];
      } else {
        assert b[i + 1] == w[i - |a|];
      }
    }
    assert b[|b| - 1] == w[|w| - 1];
    assert b[0] == a[0];
  }

  /** Absorbing every group but the last into the segmented text: whatever
      the groups, the domain ends in one top-level group after segmented
      text. */
  lemma {:induction false} SegmentedThenGroups(a: string, t: string)
    requires Segmented(a) && DotGroups(t)
    ensures DomainOk(a + t)
    decreases |t|
  {
    var n := if |t| >= 3 && t[0] == '.' && AllWordChars(t[1..3]) && (|t| == 3 || DotGroups(t[3..])) then 2 else 3;
    var d := a + t;
    if |t| == n + 1 {
      assert d[..|d| - n - 1] == a;
      assert d[|d| - n..] == t[1..] == t[1..n + 1];
      assert d[|d| - n - 1] == t[0];
      assert TopLevelSplit(d, n);
    } else {
      var w := t[1..n + 1];
      SegmentedExtend(a, w);
      assert a + t == (a + ['.'] + w) + t[n + 1..] by {
        assert t == ['.'] + w + t[n + 1..];
      }
      SegmentedThenGroups(a + ['.'] + w, t[n + 1..]);
    }
  }

  /** The domain test agrees with the pattern's domain in both directions. */
  lemma DomainOkIsRegexDomain(d: string)
    ensures DomainOk(d) <==> RegexDomain(d)
  {
    if DomainOk(d) {
      var n := if TopLevelSplit(d, 2) then 2 else 3;
      var k := |d| - n - 1;
      assert d[k..][1..n + 1] == d[|d| - n..];
      assert Segmented(d[..k]) && DotGroups(d[k..]);
    }
    if RegexDomain(d) {
      var k :| 0 <= k <= |d| && Segmented(d[..k]) && DotGroups(d[k..]);
      assert d == d[..k] + d[k..];
      SegmentedThenGroups(d[..k], d[k..]);
    }
  }

  /** The e-mail test accepts exactly the addresses the pattern matches. */
  lemma ValidEmailIsRegexEmail(s: string)
    ensures ValidEmail(s) <==> RegexEmail(s)
  {
    forall i | 0 <= i < |s|
      ensures EmailSplitAt(s, i) <==> (s[i] == '@' && Segmented(s[..i]) && RegexDomain(s[i + 1..]))
    {
      DomainOkIsRegexDomain(s[i + 1..]);
    }
  }

  /** A dotted local part with a three-letter top level is accepted. */
  lemma EmailPatternAcceptsDotted()
    ensures ValidEmail("ana.perez@mail.com")
  {
    var a := "ana.perez@mail.com";
    assert a[..9] == "ana.perez" && Segmented("ana.perez");
    assert a[10..] == "mail.com";
    assert "mail.com"[..4] == "mail" && "mail.com"[5..] == "com";
    assert EmailSplitAt(a, 9);
  }

  /** A hyphenated local part with two top-level groups is accepted. */
  lemma EmailPatternAcceptsGroups()
    ensures ValidEmail("j-lo@mail.co.uk")
  {
    var b := "j-lo@mail.co.uk";
    assert b[..4] == "j-lo" && Segmented("j-lo");
    assert b[5..] == "mail.co.uk";
    assert "mail.co.uk"[..7] == "mail.co" && "mail.co.uk"[8..] == "uk";
    assert EmailSplitAt(b, 4);
  }

  /** A domain without a dot-separated top-level segment is refused. */
  lemma EmailPatternRejectsBareDomain()
    ensures !ValidEmail("ana@mail")
  {
  }

  /** Two separators in a row before the first '@' make any address
      invalid: every split point lies after them, so the local part is not
      segmented text. */
  lemma DoubledSeparatorRejected(s: string, j: int)
    requires 0 <= j < |s| - 1 && IsSeparator(s[j]) && IsSeparator(s[j + 1])
    requires forall k :: 0 <= k < j ==> s[k] != '@'
    ensures !ValidEmail(s)
  {
  }

  /** Two separators in a row are refused. */
  lemma EmailPatternRejectsDoubledSeparator()
    ensures !ValidEmail("ana..perez@mail.com")
  {
    var s2 := "ana..perez@mail.com";
    assert s2[0] != '@' && s2[1] != '@' && s2[2] != '@';
    DoubledSeparatorRejected(s2, 3);
  }

  /** A last segment of four characters is refused. */
  lemma EmailPatternRejectsLongSuffix()
    ensures !ValidEmail("ana@mail.info")
  {
  }

  // ---------------------------------------------------------------------------
  // The stock partition
  // ---------------------------------------------------------------------------

  predicate Short(ps: map<ProductId, Product>, l: CartLine)
    requires l.product in ps
  {
    ps[l.product].stock < l.qty
  }

  function ShortageOf(ps: map<ProductId, Product>, l: CartLine): Shortage
    requires l.product in ps
  {
    Shortage(l.product, ps[l.product].name, ps[l.product].stock, l.qty)
  }

  predicate AllListed(ps: map<ProductId, Product>, lines: seq<CartLine>) {
    forall i :: 0 <= i < |lines| ==> lines[i].product in ps
  }

  /** The report for every line whose live stock is below its quantity, in
      cart order. */
  function Shortages(ps: map<ProductId, Product>, lines: seq<CartLine>): seq<Shortage>
    requires AllListed(ps, lines)
  {
    if |lines| == 0 then []
    else
      assert AllListed(ps, lines[1..]);
      var rest := Shortages(ps, lines[1..]);
      if Short(ps, lines[0]) then [ShortageOf(ps, lines[0])] + rest else rest
  }

  /** Every reported item comes from a short line, every short line is
      reported, and there are never more reports than lines. */
  lemma {:induction false} ShortagesReport(ps: map<ProductId, Product>, lines: seq<CartLine>)
    requires AllListed(ps, lines)
    ensures |Shortages(ps, lines)| <= |lines|
    ensures forall x :: x in Shortages(ps, lines) ==>
              exists l :: l in lines && l.product in ps && Short(ps, l) && x == ShortageOf(ps, l)
    ensures forall l :: l in lines && l.product in ps && Short(ps, l) ==> ShortageOf(ps, l) in Shortages(ps, lines)
  {
    if |lines| > 0 {
      assert AllListed(ps, lines[1..]);
      ShortagesReport(ps, lines[1..]);
      assert forall l :: l in lines <==> l == lines[0] || l in lines[1..];
    }
  }

  /** Reporting distributes over concatenation; with the single-line case
      below this fixes the report as one entry per short line, in cart
      order. */
  lemma {:induction false} ShortagesAppend(ps: map<ProductId, Product>, a: seq<CartLine>, b: seq<CartLine>)
    requires AllListed(ps, a + b)
    ensures AllListed(ps, a) && AllListed(ps, b)
    ensures Shortages(ps, a + b) == Shortages(ps, a) + Shortages(ps, b)
  {
    assert AllListed(ps, a) by {
      forall i | 0 <= i < |a|
        ensures a[i].product in ps
      {
        assert (a + b)[i] == a[i];
      }
    }
    assert AllListed(ps, b) by {
      forall i | 0 <= i < |b|
        ensures b[i].product in ps
      {
        assert (a + b)[|a| + i] == b[i];
      }
    }
    if |a| > 0 {
      assert (a + b)[0] == a[0];
      assert (a + b)[1..] == a[1..] + b;
      ShortagesAppend(ps, a[1..], b);
    } else {
      assert a + b == b;
    }
  }

  /** A single line is reported exactly when it is short. */
  lemma ShortagesSingleton(ps: map<ProductId, Product>, l: CartLine)
    requires l.product in ps
    ensures AllListed(ps, [l])
    ensures Shortages(ps, [l]) == if Short(ps, l) then [ShortageOf(ps, l)] else []
  {
    assert [l][1..] == [];
  }

  /** The units of `p` the lines ask for in all. */
  function QtyFor(lines: seq<CartLine>, p: ProductId): int {
    if |lines| == 0 then 0
    else (if lines[0].product == p then lines[0].qty else 0) + QtyFor(lines[1..], p)
  }

  /** With at most one line per product, the units asked for a product are
      that line's quantity, or nothing. */
  lemma {:induction false} QtyForDistinct(lines: seq<CartLine>, p: ProductId)
    requires DistinctProducts(lines)
    ensures IndexOfProduct(lines, p) == -1 ==> QtyFor(lines, p) == 0
    ensures IndexOfProduct(lines, p) >= 0 ==> QtyFor(lines, p) == lines[IndexOfProduct(lines, p)].qty
  {
    if |lines| > 0 {
      assert DistinctProducts(lines[1..]);
      QtyForDistinct(lines[1..], p);
      if lines[0].product == p {
        assert IndexOfProduct(lines[1..], p) == -1;
      }
    }
  }

  /** Each line lowers its product's stock by its quantity, one after the
      other. */
  function Decrement(ps: map<ProductId, Product>, lines: seq<CartLine>): map<ProductId, Product> {
    if |lines| == 0 then ps
    else
      var l := lines[0];
      var ps' := if l.product in ps then ps[l.product := ps[l.product].(stock := ps[l.product].stock - l.qty)] else ps;
      Decrement(ps', lines[1..])
  }

  /** After the decrement loop every product is as before except that its
      stock is lower by the units the lines asked for it. */
  lemma {:induction false} DecrementEffect(ps: map<ProductId, Product>, lines: seq<CartLine>)
    ensures Decrement(ps, lines).Keys == ps.Keys
    ensures forall id :: id in ps ==>
              Decrement(ps, lines)[id] == ps[id].(stock := ps[id].stock - QtyFor(lines, id))
  {
    if |lines| > 0 {
      var l := lines[0];
      var ps' := if l.product in ps then ps[l.product := ps[l.product].(stock := ps[l.product].stock - l.qty)] else ps;
      DecrementEffect(ps', lines[1..]);
    }
  }

  /** If two lines named the same product, each passing the per-line check,
      the decrement loop would drive stock below zero: the per-line check is
      only sound because a cart holds at most one line per product. */
  lemma DuplicateLinesWouldOversell()
    ensures var ps := map[0 := Product("Widget", "", 10, 5, 0, None)];
            var lines := [CartLine(0, 3, 10, 30), CartLine(0, 3, 10, 30)];
            && AllListed(ps, lines)
            && Shortages(ps, lines) == []
            && 0 in Decrement(ps, lines)
            && Decrement(ps, lines)[0].stock == -1
  {
  }

  // ---------------------------------------------------------------------------
  // The handler
  // ---------------------------------------------------------------------------

  /** A successful checkout: the new store and the id of the created order. */
  datatype Receipt = Receipt(store: Store, order: OrderId)

  function OrderLines(lines: seq<CartLine>): (r: seq<OrderLine>)
    ensures |r| == |lines|
    ensures forall i :: 0 <= i < |lines| ==> r[i] == OrderLine(lines[i].product, lines[i].qty)
  {
    seq(|lines|, i requires 0 <= i < |lines| => OrderLine(lines[i].product, lines[i].qty))
  }

  /** The units of `p` an order's lines ask for in all. */
  function OrderUnits(ols: seq<OrderLine>, p: ProductId): int {
    if |ols| == 0 then 0
    else (if ols[0].product == p then ols[0].qty else 0) + OrderUnits(ols[1..], p)
  }

  /** The order asks for every product exactly the units the cart asked for,
      which are the units the stock decrement takes away. */
  lemma {:induction false} OrderLinesUnits(lines: seq<CartLine>, p: ProductId)
    ensures OrderUnits(OrderLines(lines), p) == QtyFor(lines, p)
  {
    if |lines| > 0 {
      assert OrderLines(lines)[1..] == OrderLines(lines[1..]);
      OrderLinesUnits(lines[1..], p);
    }
  }

  /** Confirming the purchase of the user's cart.  The confirmation e-mail is
      best effort and leaves the store as it is, so it does not appear. */
  function ConfirmPurchase(s: Store, u: UserId, address: Option<string>, phone: Option<string>,
                           email: Option<string>): (r: Result<Receipt>)
    ensures MissingText(address) || MissingText(phone) || MissingText(email) ==> r == Err(MissingFields)
    ensures !MissingText(address) && !MissingText(phone) && !MissingText(email) && !ValidEmail(email.value) ==>
              r == Err(InvalidEmail)
    ensures !MissingText(address) && !MissingText(phone) && !MissingText(email) && ValidEmail(email.value) &&
            (u !in s.carts || |s.carts[u].lines| == 0) ==>
              r == Err(EmptyCart)
    ensures r.Err? && r.error == EmptyCart ==> u !in s.carts || |s.carts[u].lines| == 0
    // A line whose product no longer exists fails the stock loop with a
    // server error.
    ensures !MissingText(address) && !MissingText(phone) && !MissingText(email) && ValidEmail(email.value)
            && u in s.carts && |s.carts[u].lines| > 0 && !AllListed(s.products, s.carts[u].lines) ==>
              r == Err(Internal)
    ensures r.Ok? ==>
              && !MissingText(address) && !MissingText(phone) && !MissingText(email)
              && ValidEmail(email.value)
              && u in s.carts && |s.carts[u].lines| > 0
    // If any line is short, the whole list of short lines comes back and
    // nothing is written.
    ensures !MissingText(address) && !MissingText(phone) && !MissingText(email) && ValidEmail(email.value)
            && u in s.carts && |s.carts[u].lines| > 0 && AllListed(s.products, s.carts[u].lines)
            && (exists l :: l in s.carts[u].lines && l.product in s.products && Short(s.products, l)) ==>
              r == Err(ShortStock(Shortages(s.products, s.carts[u].lines))) && |r.error.items| > 0
    // A checkout that passes every check goes through.
    ensures !MissingText(address) && !MissingText(phone) && !MissingText(email) && ValidEmail(email.value)
            && u in s.carts && |s.carts[u].lines| > 0 && AllListed(s.products, s.carts[u].lines)
            && (forall i :: 0 <= i < |s.carts[u].lines| ==>
                  s.carts[u].lines[i].qty <= s.products[s.carts[u].lines[i].product].stock) ==>
              r.Ok?
    ensures r.Ok? ==>
              var lines := s.carts[u].lines;
              && AllListed(s.products, lines)
              && (forall i :: 0 <= i < |lines| ==> lines[i].qty <= s.products[lines[i].product].stock)
    // On success: the order copies the cart and its total, stock falls by
    // exactly the units ordered, the cart is emptied, nothing else changes.
    ensures r.Ok? ==>
              var cart := s.carts[u];
              var s' := r.value.store;
              var o := r.value.order;
              && o == s.nextId
              && s'.nextId == s.nextId + 1
              && s'.orders == s.orders[o := Order(u, OrderLines(cart.lines), cart.total, Pending)]
              && s'.products.Keys == s.products.Keys
              && (forall id :: id in s.products ==>
                    s'.products[id] == s.products[id].(stock := s.products[id].stock - QtyFor(cart.lines, id)))
              && s'.carts == s.carts[u := cart.(lines := [], total := 0)]
              && s'.categories == s.categories && s'.users == s.users && s'.suppliers == s.suppliers
    // The order id was never used before, so no order is overwritten.
    ensures r.Ok? && IdsBelowNext(s) ==>
              r.value.order !in s.orders && IdsBelowNext(r.value.store)
  {
    if MissingText(address) || MissingText(phone) || MissingText(email) then Err(MissingFields)
    else if !ValidEmail(email.value) then Err(InvalidEmail)
    else if u !in s.carts || |s.carts[u].lines| == 0 then Err(EmptyCart)
    else
      var cart := s.carts[u];
      if !AllListed(s.products, cart.lines) then Err(Internal)
      else
        var short := Shortages(s.products, cart.lines);
        ShortagesReport(s.products, cart.lines);
        assert |short| > 0 ==> exists l :: l in cart.lines && l.product in s.products && Short(s.products, l) by {
          if |short| > 0 {
            assert short[0] in short;
          }
        }
        if |short| > 0 then Err(ShortStock(short))
        else
          DecrementEffect(s.products, cart.lines);
          var order := Order(u, OrderLines(cart.lines), cart.total, Pending);
          var oid := s.nextId;
          var emptied := Saved(cart.(lines := [], total := 0));
          Ok(Receipt(
               s.(products := Decrement(s.products, cart.lines),
                  orders := s.orders[oid := order],
                  carts := s.carts[u := emptied],
                  nextId := s.nextId + 1),
               oid))
  }

  /** Checkout never drives stock below zero, keeps prices, leaves every cart
      sound, and the order's total is the sum of the cart's subtotals. */
  lemma {:induction false} CheckoutKeepsInvariants(s: Store, u: UserId, address: Option<string>,
                                                   phone: Option<string>, email: Option<string>)
    requires CatalogueSound(s.products)
    requires CartsSound(s.carts)
    requires ConfirmPurchase(s, u, address, phone, email).Ok?
    ensures var rc := ConfirmPurchase(s, u, address, phone, email).value;
            && CatalogueSound(rc.store.products)
            && CartsSound(rc.store.carts)
            && rc.store.orders[rc.order].total == SumSubtotals(s.carts[u].lines)
  {
    var rc := ConfirmPurchase(s, u, address, phone, email).value;
    var lines := s.carts[u].lines;
    forall id | id in rc.store.products
      ensures rc.store.products[id].price > 0 && rc.store.products[id].stock >= 0
    {
      QtyForDistinct(lines, id);
    }
  }

  /** A product deleted while a cart still holds a line for it: ids are never
      handed out twice, so a product added afterwards does not take over the
      line, and the cart's checkout fails on the missing product instead of
      charging for the new one. */
  lemma DeletedProductBlocksCheckout(s: Store, admin: Actor, id: ProductId, req: ProductInput,
                                     u: UserId, i: nat, address: Option<string>, phone: Option<string>,
                                     email: Option<string>)
    requires IdsBelowNext(s)
    requires DeleteProduct(s, admin, id).Ok?
    requires AddProduct(DeleteProduct(s, admin, id).value, admin, req).Ok?
    requires u in s.carts && i < |s.carts[u].lines| && s.carts[u].lines[i].product == id
    requires !MissingText(address) && !MissingText(phone) && !MissingText(email) && ValidEmail(email.value)
    ensures var s2 := AddProduct(DeleteProduct(s, admin, id).value, admin, req).value;
            && id !in s2.products
            && ConfirmPurchase(s2, u, address, phone, email) == Err(Internal)
  {
    var s1 := DeleteProduct(s, admin, id).value;
    var s2 := AddProduct(s1, admin, req).value;
    assert id < s.nextId == s1.nextId;
    assert s2.carts == s.carts;
    assert !AllListed(s2.products, s2.carts[u].lines);
  }

  /** The stock every product loses at checkout is exactly the units the new
      order records for it. */
  lemma OrderMatchesDecrement(s: Store, u: UserId, address: Option<string>, phone: Option<string>,
                              email: Option<string>)
    requires ConfirmPurchase(s, u, address, phone, email).Ok?
    ensures var rc := ConfirmPurchase(s, u, address, phone, email).value;
            forall id :: id in s.products ==>
              rc.store.products[id].stock == s.products[id].stock - OrderUnits(rc.store.orders[rc.order].lines, id)
  {
    var rc := ConfirmPurchase(s, u, address, phone, email).value;
    forall id | id in s.products
      ensures rc.store.products[id].stock == s.products[id].stock - OrderUnits(rc.store.orders[rc.order].lines, id)
    {
      OrderLinesUnits(s.carts[u].lines, id);
    }
  }
}
