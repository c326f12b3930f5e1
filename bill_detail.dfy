/** The bill detail page's own computation of one diner's bill. Unlike the
    calculator hook, it rounds every share up before adding them, so its
    subtotal can be above the hook's by up to one unit per line less one. */
module BillDetail {
  import opened Types
  import opened BillCalculator

  /** `diners.find(d => d.id === dinerId)`. Like `FindItem` and
      `FindEntry`, it is written for its own record type: the three records
      share no type that would give a common `id` field. */
  function FindDiner(diners: seq<Diner>, id: string): (r: Option<Diner>)
    ensures r.None? <==> forall i :: 0 <= i < |diners| ==> diners[i].id != id
    ensures r.Some? ==> exists i :: 0 <= i < |diners| && diners[i] == r.value && r.value.id == id &&
                                    forall j :: 0 <= j < i ==> diners[j].id != id
  {
    if diners == [] then None
    else if diners[0].id == id then Some(diners[0])
    else FindDiner(diners[1..], id)
  }

  /** The least whole number at or above `x` is its ceiling. */
  lemma CeilLeast(x: real, m: int)
    requires x <= m as real
    ensures Ceil(x) <= m
  {
  }

  lemma CeilUnique(x: real, m: int)
    requires (m - 1) as real < x <= m as real
    ensures Ceil(x) == m
  {
  }

  /** From `q*k - k < p <= q*k` with `k > 0`: `q - 1 < p/k <= q`. */
  lemma DivBounds(p: real, k: real, q: real, qk: real)
    requires k > 0.0 && qk == q * k && qk - k < p <= qk
    ensures q - 1.0 < p / k <= q
  {
    var x := p / k;
    assert x * k == p;
    var d := x - q;
    assert d * k == p - qk;
    SignOfProduct(d, k);
    var e := x - (q - 1.0);
    assert e * k == p - (qk - k);
    SignOfProduct(e, k);
  }

  lemma SignOfProduct(d: real, k: real)
    requires k > 0.0
    ensures d > 0.0 <==> d * k > 0.0
  {
    if d > 0.0 {
      assert d * k > 0.0 * k;
    } else {
      assert d * k <= 0.0 * k;
    }
  }

  /** `Math.ceil(p / k)` is the integer division `(p + k - 1) / k`. */
  lemma CeilDiv(p: nat, k: nat)
    requires k >= 1
    ensures Ceil(p as real / k as real) == (p + k - 1) / k
  {
    var q := (p + k - 1) / k;
    var r := (p + k - 1) % k;
    assert p + k - 1 == q * k + r && 0 <= r < k;
    var qk := q * k;
    assert qk - k < p <= qk;
    var x := p as real / k as real;
    DivBounds(p as real, k as real, q as real, qk as real);
    CeilUnique(x, q);
  }

  /** The line the page shows for one slot: the share rounded up. */
  function RoundedShareLine(dinerId: string, items: seq<Item>, s: Slot): Option<BillLine> {
    if dinerId in s.dinerIds then
      match FindItem(items, s.itemId)
      case None => None
      case Some(item) => Some(BillLine(item.name, Ceil(item.price as real / |s.dinerIds| as real) as real, |s.dinerIds|))
    else None
  }

  /** The page's lines, in assignment-key order. */
  function RoundedLinesFor(dinerId: string, items: seq<Item>, a: Assignment): seq<BillLine> {
    if a == [] then []
    else RoundedLinesFor(dinerId, items, a[..|a| - 1]) + LineSeq(RoundedShareLine(dinerId, items, a[|a| - 1]))
  }

  /** At most one line per slot, each shared by at least one diner and
      priced at a whole, non-negative amount. */
  lemma {:induction false} RoundedLinesWhole(dinerId: string, items: seq<Item>, a: Assignment)
    ensures var r := RoundedLinesFor(dinerId, items, a);
            && |r| <= |a|
            && forall l :: l in r ==> l.sharedWith >= 1 && l.price >= 0.0 && l.price.Floor as real == l.price
  {
    if a != [] {
      RoundedLinesWhole(dinerId, items, a[..|a| - 1]);
    }
  }

  /** `billDetails`: nothing for an unknown diner; otherwise the rounded
      lines, their sum as the subtotal, and the tip of that subtotal. */
  function BillDetails(dinerId: string, diners: seq<Diner>, items: seq<Item>, a: Assignment): (r: Option<DinerBill>)
    ensures r.None? <==> FindDiner(diners, dinerId).None?
    ensures r.Some? ==> r.value.diner == FindDiner(diners, dinerId).value
    ensures r.Some? ==> 10 * r.value.tip >= r.value.subtotal > 10 * r.value.tip - 10
    ensures r.Some? ==> r.value.total == r.value.subtotal + r.value.tip
  {
    match FindDiner(diners, dinerId)
    case None => None
    case Some(diner) =>
      var lines := RoundedLinesFor(diner.id, items, a);
      var subtotal := Ceil(ExactSum(lines));
      var tip := Tip(subtotal);
      Some(DinerBill(diner, lines, subtotal, tip, subtotal + tip))
  }

  /** The `useMemo` body of the page, loop and all. */
  method ComputeBillDetails(dinerId: string, diners: seq<Diner>, items: seq<Item>, a: Assignment)
    returns (r: Option<DinerBill>)
    ensures r == BillDetails(dinerId, diners, items, a)
  {
    var currentDiner := FindDiner(diners, dinerId);
    if currentDiner.None? {
      return None;
    }
    var diner := currentDiner.value;
    var subtotal := 0;
    var dinerItems: seq<BillLine> := [];
    for j := 0 to |a|
      invariant dinerItems == RoundedLinesFor(diner.id, items, a[..j])
      invariant subtotal as real == ExactSum(dinerItems)
    {
      var slot := a[j];
      assert a[..j + 1][..j] == a[..j];
      ghost var prev := dinerItems;
      assert RoundedLinesFor(diner.id, items, a[..j + 1]) == prev + LineSeq(RoundedShareLine(diner.id, items, slot));
      if diner.id in slot.dinerIds {
        var found := FindItem(items, slot.itemId);
        if found.Some? {
          var item := found.value;
          var sharedWithCount := |slot.dinerIds|;
          var pricePerPerson := Ceil(item.price as real / sharedWithCount as real);
          dinerItems := dinerItems + [BillLine(item.name, pricePerPerson as real, sharedWithCount)];
          assert dinerItems[..|dinerItems| - 1] == prev;
          subtotal := subtotal + pricePerPerson;
        } else {
          assert prev + [] == prev;
        }
      } else {
        assert prev + [] == prev;
      }
    }
    assert a[..|a|] == a;
    var rounded := Ceil(subtotal as real);
    var tip := Tip(rounded);
    r := Some(DinerBill(diner, dinerItems, rounded, tip, rounded + tip));
  }

  /** Every line with its price rounded up. */
  function CeilLines(lines: seq<BillLine>): (r: seq<BillLine>)
    ensures |r| == |lines|
    ensures forall i :: 0 <= i < |lines| ==> r[i] == lines[i].(price := Ceil(lines[i].price) as real)
  {
    if lines == [] then []
    else CeilLines(lines[..|lines| - 1]) + [lines[|lines| - 1].(price := Ceil(lines[|lines| - 1].price) as real)]
  }

  /** The page lists the same lines as the calculator, in the same order,
      each with its share rounded up; the line for a list of length `k`
      costs `(price + k - 1) / k`. */
  lemma {:induction false} RoundedLinesAreCeilOfShares(dinerId: string, items: seq<Item>, a: Assignment)
    ensures RoundedLinesFor(dinerId, items, a) == CeilLines(LinesFor(dinerId, items, a))
  {
    if a != [] {
      var a' := a[..|a| - 1];
      RoundedLinesAreCeilOfShares(dinerId, items, a');
      var lines := LinesFor(dinerId, items, a);
      var o := ShareLine(dinerId, items, a[|a| - 1]);
      if o.Some? {
        assert lines[..|lines| - 1] == LinesFor(dinerId, items, a');
      } else {
        assert lines == LinesFor(dinerId, items, a');
      }
    }
  }

  lemma RoundedLinePrice(dinerId: string, items: seq<Item>, s: Slot, item: Item)
    requires dinerId in s.dinerIds && FindItem(items, s.itemId) == Some(item)
    ensures RoundedShareLine(dinerId, items, s) ==
            Some(BillLine(item.name, ((item.price + |s.dinerIds| - 1) / |s.dinerIds|) as real, |s.dinerIds|))
  {
    CeilDiv(item.price, |s.dinerIds|);
  }

  /** The whole numbers the rounded lines add up to. */
  function CeilSum(lines: seq<BillLine>): int {
    if lines == [] then 0 else CeilSum(lines[..|lines| - 1]) + Ceil(lines[|lines| - 1].price)
  }

  lemma {:induction false} CeilLinesSum(lines: seq<BillLine>)
    ensures ExactSum(CeilLines(lines)) == CeilSum(lines) as real
  {
    if lines != [] {
      var r := CeilLines(lines);
      assert r[..|r| - 1] == CeilLines(lines[..|lines| - 1]);
      CeilLinesSum(lines[..|lines| - 1]);
    }
  }

  /** The rounded lines add up to a whole number, which the page's final
      `Math.ceil` keeps as it is. */
  lemma CeilLinesIntegral(lines: seq<BillLine>)
    ensures Ceil(ExactSum(CeilLines(lines))) as real == ExactSum(CeilLines(lines))
  {
    CeilLinesSum(lines);
    CeilOfInt(CeilSum(lines));
  }

  /** Rounding every line up adds less than one unit per line. */
  lemma {:induction false} CeilLinesBounds(lines: seq<BillLine>)
    ensures ExactSum(lines) <= ExactSum(CeilLines(lines))
    ensures lines != [] ==> ExactSum(CeilLines(lines)) < ExactSum(lines) + |lines| as real
  {
    if lines != [] {
      var r := CeilLines(lines);
      assert r[..|r| - 1] == CeilLines(lines[..|lines| - 1]);
      CeilLinesBounds(lines[..|lines| - 1]);
    }
  }

  /** The page's subtotal is the sum of the rounded lines (its own final
      `Math.ceil` changes nothing), and it is never below the calculator's
      subtotal and at most one unit per line, less one, above it. */
  lemma RoundingPathsCompared(diner: Diner, diners: seq<Diner>, items: seq<Item>, a: Assignment)
    requires FindDiner(diners, diner.id) == Some(diner)
    ensures var page := BillDetails(diner.id, diners, items, a).value;
            var hook := BillFor(diner, items, a);
            && page.items == CeilLines(hook.items)
            && page.subtotal as real == ExactSum(page.items)
            && hook.subtotal <= page.subtotal
            && (hook.items == [] ==> page.subtotal == hook.subtotal == 0)
            && (hook.items != [] ==> page.subtotal <= hook.subtotal + |hook.items| - 1)
  {
    var lines := LinesFor(diner.id, items, a);
    RoundedLinesAreCeilOfShares(diner.id, items, a);
    CeilLinesIntegral(lines);
    CeilLinesBounds(lines);
    var s := ExactSum(CeilLines(lines));
    CeilLeast(ExactSum(lines), Ceil(s));
    if lines == [] {
      CeilOfInt(0);
    }
  }

  const vinoA := Item("a", "Vino", 1000)
  const panB := Item("b", "Pan", 1000)
  const thirds := [Slot("a", ["x", "y", "z"]), Slot("b", ["x", "y", "z"])]
  const xi := Diner("x", "Xi", None, None)

  /** The line a diner of a three-way list gets for a 1000 item. */
  lemma ThirdOf1000(dinerId: string, items: seq<Item>, s: Slot, item: Item)
    requires dinerId in s.dinerIds && |s.dinerIds| == 3 && FindItem(items, s.itemId) == Some(item) && item.price == 1000
    ensures ShareLine(dinerId, items, s) == Some(BillLine(item.name, 1000.0 / 3.0, 3))
  {
    var o := ShareLine(dinerId, items, s);
    assert o.value.price * 3.0 == 1000.0;
  }

  /** The hook's lines for a diner on both three-way lists. */
  lemma ThirdsLines()
    ensures LinesFor("x", [vinoA, panB], thirds) ==
            [BillLine("Vino", 1000.0 / 3.0, 3), BillLine("Pan", 1000.0 / 3.0, 3)]
  {
    var items := [vinoA, panB];
    var s0 := thirds[0];
    var s1 := thirds[1];
    assert FindItem(items, "a") == Some(vinoA);
    assert FindItem(items, "b") == Some(panB);
    ThirdOf1000("x", items, s0, vinoA);
    ThirdOf1000("x", items, s1, panB);
    LinesForTwo("x", items, s0, s1);
    assert thirds == [s0, s1];
  }

  /** Two items of 1000, each split three ways: the calculator charges
      ceil(2000/3) = 667 and the page charges 334 + 334 = 668. */
  lemma RoundingPathsDiffer()
    ensures BillFor(xi, [vinoA, panB], thirds).subtotal == 667
    ensures BillDetails("x", [xi], [vinoA, panB], thirds).value.subtotal == 668
  {
    var lines := LinesFor("x", [vinoA, panB], thirds);
    ThirdsLines();
    HookOfThirds(lines);
    assert FindDiner([xi], "x") == Some(xi);
    RoundingPathsCompared(xi, [xi], [vinoA, panB], thirds);
    PageOfThirds(lines);
  }

  lemma HookOfThirds(lines: seq<BillLine>)
    requires lines == [BillLine("Vino", 1000.0 / 3.0, 3), BillLine("Pan", 1000.0 / 3.0, 3)]
    ensures Ceil(ExactSum(lines)) == 667
  {
    ExactSumTwo(lines[0], lines[1]);
  }

  lemma PageOfThirds(lines: seq<BillLine>)
    requires lines == [BillLine("Vino", 1000.0 / 3.0, 3), BillLine("Pan", 1000.0 / 3.0, 3)]
    ensures ExactSum(CeilLines(lines)) == 668.0
  {
    CeilUnique(1000.0 / 3.0, 334);
    var r := CeilLines(lines);
    assert r == [lines[0].(price := 334.0), lines[1].(price := 334.0)];
    ExactSumTwo(r[0], r[1]);
  }

  // ---------------------------------------------------------------------
  // The bill object passed to the message in `handleShare`

  /** As written: every line's price, already the rounded per-person price,
      is divided by the number of sharers once more. */
  function ShareMessageBill(b: DinerBill): (r: DinerBill)
    ensures r.diner == b.diner && r.subtotal == b.subtotal && r.tip == b.tip && r.total == b.total
    ensures |r.items| == |b.items|
    ensures forall i :: 0 <= i < |b.items| ==>
              r.items[i].name == b.items[i].name && r.items[i].sharedWith == b.items[i].sharedWith
    ensures forall i :: 0 <= i < |b.items| && b.items[i].sharedWith >= 1 ==>
              r.items[i].price * b.items[i].sharedWith as real == b.items[i].price
  {
    var lines := seq(|b.items|, i requires 0 <= i < |b.items| =>
      var l := b.items[i];
      l.(price := if l.sharedWith == 0 then 0.0 else l.price / l.sharedWith as real));
    DinerBill(b.diner, lines, b.subtotal, b.tip, b.total)
  }

  const ye := Diner("y", "Ye", None, None)

  /** A 1000 item shared by two: the page shows 500 for it, the message
      built from `ShareMessageBill` of that page's bill shows 250. */
  lemma ShareMessageDividesTwice()
    ensures var page := BillDetails("x", [xi, ye], [vinoA], [Slot("a", ["x", "y"])]).value;
            && |page.items| == 1
            && Ceil(page.items[0].price) == 500
            && Ceil(ShareMessageBill(page).items[0].price) == 250
  {
    var a := [Slot("a", ["x", "y"])];
    assert FindDiner([xi, ye], "x") == Some(xi);
    assert FindItem([vinoA], "a") == Some(vinoA);
    RoundedLinePrice("x", [vinoA], a[0], vinoA);
    assert a[..0] == [];
    assert RoundedLinesFor("x", [vinoA], a) == [BillLine("Vino", 500.0, 2)];
    CeilOfInt(250);
    CeilOfInt(500);
  }

  /** Corrected: the message gets the page's lines as they are, so each
      line shows the per-person price the page shows. */
  function ShareMessageBillFixed(b: DinerBill): (r: DinerBill)
    ensures r.diner == b.diner && r.subtotal == b.subtotal && r.tip == b.tip && r.total == b.total
    ensures |r.items| == |b.items|
    ensures forall i :: 0 <= i < |b.items| ==> r.items[i].name == b.items[i].name &&
                                                r.items[i].sharedWith == b.items[i].sharedWith
  {
    b
  }

  /** With the corrected object every message line shows the rounded share
      of its item, and the lines add up to the subtotal. */
  lemma ShareMessageFixedShowsShares(diner: Diner, diners: seq<Diner>, items: seq<Item>, a: Assignment)
    requires FindDiner(diners, diner.id) == Some(diner)
    ensures var page := BillDetails(diner.id, diners, items, a).value;
            var msg := ShareMessageBillFixed(page);
            var exact := LinesFor(diner.id, items, a);
            && |msg.items| == |exact|
            && (forall i :: 0 <= i < |exact| ==> Ceil(msg.items[i].price) == Ceil(exact[i].price))
            && ExactSum(msg.items) == msg.subtotal as real
  {
    var exact := LinesFor(diner.id, items, a);
    RoundingPathsCompared(diner, diners, items, a);
    forall i | 0 <= i < |exact| ensures Ceil(CeilLines(exact)[i].price) == Ceil(exact[i].price) {
      CeilOfInt(Ceil(exact[i].price));
    }
  }
}
