/** The bill calculator hook: one bill per diner, built from the items and
    the assignment object, and the bill-wide total saved in the history.
    Shares are exact; only the diner's subtotal is rounded (up), and the tip
    is 10% of that subtotal, rounded up. */
module BillCalculator {
  import opened Types
  import opened Assignments
  import opened Sums

  /** `Math.ceil` on an exact number. */
  function Ceil(x: real): (r: int)
    ensures x <= r as real < x + 1.0
  {
    -((-x).Floor)
  }

  lemma CeilOfInt(n: int)
    ensures Ceil(n as real) == n
  {
  }

  /** `Math.ceil(subtotal * 0.1)` with exact arithmetic: the least whole
      amount that is at least a tenth of the subtotal. */
  function Tip(subtotal: int): (r: int)
    ensures 10 * r >= subtotal && 10 * (r - 1) < subtotal
    ensures subtotal >= 0 ==> r >= 0
  {
    Ceil(subtotal as real / 10.0)
  }

  /** Any whole amount that covers a tenth of `s` is at least its tip. */
  lemma TipLeast(s: int, m: int)
    requires 10 * m >= s
    ensures m >= Tip(s)
  {
  }

  /** Tips never get smaller as the subtotal grows. */
  lemma TipMonotone(s: int, t: int)
    requires s <= t
    ensures Tip(s) <= Tip(t)
  {
    TipLeast(s, Tip(t));
  }

  /** Rounding each tip up costs at least as much as rounding one tip of the
      sum: the tip of a sum is at most the sum of the tips. */
  lemma TipSubadditive(s: int, t: int)
    ensures Tip(s + t) <= Tip(s) + Tip(t)
  {
    TipLeast(s + t, Tip(s) + Tip(t));
  }

  /** `items.find(i => i.id === id)`: the first item with that id. */
  function FindItem(items: seq<Item>, id: string): (r: Option<Item>)
    ensures r.None? <==> forall i :: 0 <= i < |items| ==> items[i].id != id
    ensures r.Some? ==> exists i :: 0 <= i < |items| && items[i] == r.value && r.value.id == id &&
                                    forall j :: 0 <= j < i ==> items[j].id != id
  {
    if items == [] then None
    else if items[0].id == id then Some(items[0])
    else
      FindItem(items[1..], id)
  }

  /** The line that one slot adds to the bill of the diner with `dinerId`:
      none when the diner is not in the slot's list or the item is gone,
      otherwise the item's price divided among everyone in the list. */
  function ShareLine(dinerId: string, items: seq<Item>, s: Slot): (r: Option<BillLine>)
    ensures r.Some? <==> dinerId in s.dinerIds && FindItem(items, s.itemId).Some?
    ensures r.Some? ==> r.value.sharedWith == |s.dinerIds| >= 1 &&
                        r.value.name == FindItem(items, s.itemId).value.name &&
                        r.value.price * (r.value.sharedWith as real) == FindItem(items, s.itemId).value.price as real
  {
    if dinerId in s.dinerIds then
      match FindItem(items, s.itemId)
      case None => None
      case Some(item) => Some(BillLine(item.name, item.price as real / |s.dinerIds| as real, |s.dinerIds|))
    else None
  }

  function LineSeq(o: Option<BillLine>): seq<BillLine> {
    if o.Some? then [o.value] else []
  }

  /** The lines of a diner's bill, in assignment-key order. */
  function LinesFor(dinerId: string, items: seq<Item>, a: Assignment): (r: seq<BillLine>)
    ensures |r| <= |a|
    ensures forall l :: l in r ==> l.sharedWith >= 1 && l.price >= 0.0
  {
    if a == [] then []
    else
      var s := a[|a| - 1];
      var o := ShareLine(dinerId, items, s);
      LinesFor(dinerId, items, a[..|a| - 1]) + LineSeq(o)
  }

  /** Every line is an item of the bill, named as the item, whose price it
      divides exactly among `sharedWith` diners. */
  lemma {:induction false} LinesComeFromItems(dinerId: string, items: seq<Item>, a: Assignment)
    ensures forall l :: l in LinesFor(dinerId, items, a) ==>
              exists it :: it in items && it.name == l.name && l.price * (l.sharedWith as real) == it.price as real
  {
    if a != [] {
      LinesComeFromItems(dinerId, items, a[..|a| - 1]);
      var o := ShareLine(dinerId, items, a[|a| - 1]);
      if o.Some? {
        var it := FindItem(items, a[|a| - 1].itemId).value;
        assert it in items;
      }
    }
  }

  function ExactSum(lines: seq<BillLine>): real {
    if lines == [] then 0.0 else ExactSum(lines[..|lines| - 1]) + lines[|lines| - 1].price
  }

  /** The bill of one diner: exact shares summed, rounded up; the tip is
      computed from the rounded subtotal. */
  function BillFor(diner: Diner, items: seq<Item>, a: Assignment): (b: DinerBill)
    ensures b.diner == diner && b.items == LinesFor(diner.id, items, a)
    ensures ExactSum(b.items) <= b.subtotal as real < ExactSum(b.items) + 1.0
    ensures 10 * b.tip >= b.subtotal > 10 * b.tip - 10
    ensures b.total == b.subtotal + b.tip
  {
    var lines := LinesFor(diner.id, items, a);
    var subtotal := Ceil(ExactSum(lines));
    var tip := Tip(subtotal);
    DinerBill(diner, lines, subtotal, tip, subtotal + tip)
  }

  function Bills(diners: seq<Diner>, items: seq<Item>, a: Assignment): (r: seq<DinerBill>)
    ensures |r| == |diners|
    ensures forall i :: 0 <= i < |diners| ==>
              && r[i].diner == diners[i]
              && r[i].items == LinesFor(diners[i].id, items, a)
              && r[i].total == r[i].subtotal + r[i].tip
  {
    seq(|diners|, i requires 0 <= i < |diners| => BillFor(diners[i], items, a))
  }

  /** The sum of the item prices: at least every single price, and 0
      exactly when every item is free. */
  function ItemsSum(items: seq<Item>): (r: nat)
    ensures forall i :: 0 <= i < |items| ==> items[i].price <= r
    ensures r == 0 <==> forall i :: 0 <= i < |items| ==> items[i].price == 0
  {
    if items == [] then 0
    else
      var pre := items[..|items| - 1];
      assert forall i :: 0 <= i < |pre| ==> pre[i] == items[i];
      ItemsSum(pre) + items[|items| - 1].price
  }

  lemma {:induction false} ItemsSumAppend(a: seq<Item>, b: seq<Item>)
    ensures ItemsSum(a + b) == ItemsSum(a) + ItemsSum(b)
  {
    if b != [] {
      assert (a + b)[..|a + b| - 1] == a + b[..|b| - 1];
      assert (a + b)[|a + b| - 1] == b[|b| - 1];
      ItemsSumAppend(a, b[..|b| - 1]);
    } else {
      assert a + b == a;
    }
  }

  /** The bill-wide total: every price in full, plus a tip of 10% of their sum
      rounded up. It depends on the items only. */
  function TotalBill(items: seq<Item>): (r: int)
    ensures 10 * r >= 11 * ItemsSum(items) && 10 * r < 11 * ItemsSum(items) + 10
  {
    var s := ItemsSum(items);
    s + Tip(s)
  }

  /** The body of the `diners.map` callback: the `for...in` loop over the
      assignment keys, then the rounding. */
  method ComputeDinerBill(diner: Diner, items: seq<Item>, a: Assignment) returns (bill: DinerBill)
    ensures bill == BillFor(diner, items, a)
  {
    var lines: seq<BillLine> := [];
    var subtotal: real := 0.0;
    for j := 0 to |a|
      invariant lines == LinesFor(diner.id, items, a[..j])
      invariant subtotal == ExactSum(lines)
    {
      var slot := a[j];
      assert a[..j + 1][..j] == a[..j];
      ghost var prev := lines;
      assert LinesFor(diner.id, items, a[..j + 1]) == prev + LineSeq(ShareLine(diner.id, items, slot));
      if diner.id in slot.dinerIds {
        var found := FindItem(items, slot.itemId);
        if found.Some? {
          var item := found.value;
          var sharedWithCount := |slot.dinerIds|;
          var pricePerPerson := item.price as real / sharedWithCount as real;
          lines := lines + [BillLine(item.name, pricePerPerson, sharedWithCount)];
          assert lines[..|lines| - 1] == prev;
          subtotal := subtotal + pricePerPerson;
        } else {
          assert prev + [] == prev;
        }
      } else {
        assert prev + [] == prev;
      }
    }
    assert a[..|a|] == a;
    var rounded := Ceil(subtotal);
    var tip := Tip(rounded);
    bill := DinerBill(diner, lines, rounded, tip, rounded + tip);
  }

  /** `useBillCalculator`: one bill per diner, in the diners' order, and the
      bill-wide total of the items. */
  method CalculateBills(diners: seq<Diner>, items: seq<Item>, a: Assignment)
    returns (dinerBills: seq<DinerBill>, totalBill: int)
    ensures |dinerBills| == |diners|
    ensures forall i :: 0 <= i < |diners| ==> dinerBills[i] == BillFor(diners[i], items, a)
    ensures totalBill == TotalBill(items)
  {
    dinerBills := [];
    for i := 0 to |diners|
      invariant |dinerBills| == i
      invariant forall k :: 0 <= k < i ==> dinerBills[k] == BillFor(diners[k], items, a)
    {
      var bill := ComputeDinerBill(diners[i], items, a);
      dinerBills := dinerBills + [bill];
    }
    var totalBillSubtotal := 0;
    for i := 0 to |items|
      invariant totalBillSubtotal == ItemsSum(items[..i])
    {
      assert items[..i + 1][..i] == items[..i];
      totalBillSubtotal := totalBillSubtotal + items[i].price;
    }
    assert items[..|items|] == items;
    var totalTip := Tip(totalBillSubtotal);
    totalBill := totalBillSubtotal + totalTip;
  }

  // ---------------------------------------------------------------------
  // Lines: which slots show up on a bill

  /** A diner who is in no assignment list gets no lines and pays nothing. */
  lemma {:induction false} UnassignedPaysNothing(diner: Diner, items: seq<Item>, a: Assignment)
    requires forall s :: s in a ==> diner.id !in s.dinerIds
    ensures LinesFor(diner.id, items, a) == []
    ensures BillFor(diner, items, a).subtotal == 0
    ensures BillFor(diner, items, a).tip == 0 && BillFor(diner, items, a).total == 0
  {
    if a != [] {
      assert a[|a| - 1] in a;
      UnassignedPaysNothing(diner, items, a[..|a| - 1]);
    }
    CeilOfInt(0);
  }

  /** The slots whose item still exists. */
  function Prune(items: seq<Item>, a: Assignment): (r: Assignment)
    ensures |r| <= |a|
  {
    if a == [] then []
    else
      var s := a[|a| - 1];
      Prune(items, a[..|a| - 1]) + (if FindItem(items, s.itemId).Some? then [s] else [])
  }

  /** Pruning keeps exactly the slots whose item exists. */
  lemma {:induction false} PruneMembers(items: seq<Item>, a: Assignment)
    ensures forall s :: s in Prune(items, a) <==> s in a && FindItem(items, s.itemId).Some?
  {
    if a != [] {
      PruneMembers(items, a[..|a| - 1]);
      assert forall t :: t in a <==> t in a[..|a| - 1] || t == a[|a| - 1];
    }
  }

  /** Keys whose item is gone are skipped: dropping them changes no bill. */
  lemma {:induction false} StaleKeysIgnored(dinerId: string, items: seq<Item>, a: Assignment)
    ensures LinesFor(dinerId, items, Prune(items, a)) == LinesFor(dinerId, items, a)
  {
    if a != [] {
      var a' := a[..|a| - 1];
      var s := a[|a| - 1];
      StaleKeysIgnored(dinerId, items, a');
      var p' := Prune(items, a');
      if FindItem(items, s.itemId).Some? {
        var p := p' + [s];
        assert p[..|p| - 1] == p';
        assert LinesFor(dinerId, items, p) == LinesFor(dinerId, items, p') + LineSeq(ShareLine(dinerId, items, s));
      } else {
        assert Prune(items, a) == p';
        assert ShareLine(dinerId, items, s).None?;
        assert LinesFor(dinerId, items, a) == LinesFor(dinerId, items, a') + [];
      }
    }
  }

  /** Each slot that holds the diner and whose item exists adds exactly one
      line, at the end, with the share `price / k` for a list of length `k`. */
  lemma LinesForSnoc(dinerId: string, items: seq<Item>, a: Assignment, s: Slot, item: Item)
    requires dinerId in s.dinerIds && FindItem(items, s.itemId) == Some(item)
    ensures LinesFor(dinerId, items, a + [s]) ==
            LinesFor(dinerId, items, a) + [BillLine(item.name, item.price as real / |s.dinerIds| as real, |s.dinerIds|)]
  {
    assert (a + [s])[..|a + [s]| - 1] == a;
  }

  lemma LinesForOne(dinerId: string, items: seq<Item>, s: Slot)
    ensures LinesFor(dinerId, items, [s]) == LineSeq(ShareLine(dinerId, items, s))
  {
    assert [s][..0] == [];
  }

  lemma LinesForTwo(dinerId: string, items: seq<Item>, s0: Slot, s1: Slot)
    ensures LinesFor(dinerId, items, [s0, s1]) ==
            LineSeq(ShareLine(dinerId, items, s0)) + LineSeq(ShareLine(dinerId, items, s1))
  {
    assert [s0, s1][..1] == [s0];
    LinesForOne(dinerId, items, s0);
  }

  lemma ExactSumOne(l: BillLine)
    ensures ExactSum([l]) == l.price
  {
    assert [l][..0] == [];
  }

  lemma ExactSumTwo(l0: BillLine, l1: BillLine)
    ensures ExactSum([l0, l1]) == l0.price + l1.price
  {
    assert [l0, l1][..1] == [l0];
    ExactSumOne(l0);
  }

  // ---------------------------------------------------------------------
  // Conservation: the exact shares add up to the assigned prices

  /** What the diner pays for one slot before rounding. */
  function Contribution(d: Diner, items: seq<Item>, s: Slot): real {
    var o := ShareLine(d.id, items, s);
    if o.Some? then o.value.price else 0.0
  }

  /** The table of contributions, diners by slots. */
  function Table(items: seq<Item>): (Diner, Slot) -> real {
    (d: Diner, t: Slot) => Contribution(d, items, t)
  }

  /** The exact share one member of a slot's list pays. */
  function SlotShare(items: seq<Item>, s: Slot): real {
    match FindItem(items, s.itemId)
    case None => 0.0
    case Some(item) => if s.dinerIds == [] then 0.0 else item.price as real / |s.dinerIds| as real
  }

  /** The price a slot assigns: its item's price when the item exists and
      someone is assigned to it. */
  function SlotPrice(items: seq<Item>, s: Slot): real {
    match FindItem(items, s.itemId)
    case None => 0.0
    case Some(item) => if s.dinerIds == [] then 0.0 else item.price as real
  }

  function AssignedTotal(items: seq<Item>, a: Assignment): real {
    if a == [] then 0.0 else AssignedTotal(items, a[..|a| - 1]) + SlotPrice(items, a[|a| - 1])
  }

  function ExactTotal(diners: seq<Diner>, items: seq<Item>, a: Assignment): real {
    if diners == [] then 0.0
    else ExactTotal(diners[..|diners| - 1], items, a) + ExactSum(LinesFor(diners[|diners| - 1].id, items, a))
  }

  predicate NoDup(ids: seq<string>) {
    forall i, j :: 0 <= i < j < |ids| ==> ids[i] != ids[j]
  }

  predicate DinerIdsDistinct(diners: seq<Diner>) {
    forall i, j :: 0 <= i < j < |diners| ==> diners[i].id != diners[j].id
  }

  function IdSet(diners: seq<Diner>): set<string> {
    set d | d in diners :: d.id
  }

  function SetOf(ids: seq<string>): (r: set<string>)
    ensures forall x :: x in r <==> x in ids
  {
    if ids == [] then {} else SetOf(ids[..|ids| - 1]) + {ids[|ids| - 1]}
  }

  lemma {:induction false} SetOfSize(ids: seq<string>)
    requires NoDup(ids)
    ensures |SetOf(ids)| == |ids|
  {
    if ids != [] {
      var ids' := ids[..|ids| - 1];
      SetOfSize(ids');
      assert ids[|ids| - 1] !in ids';
    }
  }

  /** The number of diners whose id is in `ids`. */
  function CountIn(diners: seq<Diner>, ids: set<string>): nat {
    if diners == [] then 0
    else CountIn(diners[..|diners| - 1], ids) + (if diners[|diners| - 1].id in ids then 1 else 0)
  }

  lemma {:induction false} CountInIgnores(diners: seq<Diner>, ids: set<string>, x: string)
    requires x !in IdSet(diners)
    ensures CountIn(diners, ids) == CountIn(diners, ids - {x})
  {
    if diners != [] {
      var ds := diners[..|diners| - 1];
      assert diners[|diners| - 1] in diners;
      assert forall d :: d in ds ==> d in diners;
      CountInIgnores(ds, ids, x);
    }
  }

  /** With distinct diner ids, every id of the set is counted once. */
  lemma {:induction false} CountInAll(diners: seq<Diner>, ids: set<string>)
    requires DinerIdsDistinct(diners) && ids <= IdSet(diners)
    ensures CountIn(diners, ids) == |ids|
  {
    if diners == [] {
      assert ids == {};
    } else {
      var ds := diners[..|diners| - 1];
      var last := diners[|diners| - 1];
      assert forall d :: d in diners <==> d in ds || d == last;
      assert last.id !in IdSet(ds) by {
        forall d | d in ds ensures d.id != last.id {
          var m :| 0 <= m < |ds| && ds[m] == d;
          assert diners[m] == d;
        }
      }
      if last.id in ids {
        CountInIgnores(ds, ids, last.id);
        CountInAll(ds, ids - {last.id});
      } else {
        CountInAll(ds, ids);
      }
    }
  }

  lemma ContributionIs(d: Diner, items: seq<Item>, s: Slot)
    ensures Contribution(d, items, s) == if d.id in s.dinerIds then SlotShare(items, s) else 0.0
  {
  }

  /** `n` copies of `c`, added up. */
  function Times(n: nat, c: real): real {
    if n == 0 then 0.0 else Times(n - 1, c) + c
  }

  lemma {:induction false} TimesIsProduct(n: nat, c: real)
    ensures Times(n, c) == n as real * c
  {
    if n > 0 {
      TimesIsProduct(n - 1, c);
    }
  }

  /** A slot's column: each diner in its list pays the same share. */
  lemma {:induction false} ColumnCount(diners: seq<Diner>, items: seq<Item>, s: Slot)
    ensures SumX(diners, s, Table(items)) == Times(CountIn(diners, SetOf(s.dinerIds)), SlotShare(items, s))
  {
    if diners != [] {
      var f := Table(items);
      var last := diners[|diners| - 1];
      ColumnCount(diners[..|diners| - 1], items, s);
      assert f(last, s) == Contribution(last, items, s);
      ContributionIs(last, items, s);
    }
  }

  /** `k` equal shares of a price divided by `k` make the price. */
  lemma ShareTimesCount(items: seq<Item>, s: Slot)
    ensures Times(|s.dinerIds|, SlotShare(items, s)) == SlotPrice(items, s)
  {
    TimesIsProduct(|s.dinerIds|, SlotShare(items, s));
    match FindItem(items, s.itemId)
    case None =>
    case Some(item) =>
      if s.dinerIds != [] {
        var k := |s.dinerIds| as real;
        assert k * (item.price as real / k) == item.price as real;
      }
  }

  /** Each id in a duplicate-free list of listed diners is one diner. */
  lemma CountListed(diners: seq<Diner>, s: Slot)
    requires DinerIdsDistinct(diners) && NoDup(s.dinerIds)
    requires forall id :: id in s.dinerIds ==> id in IdSet(diners)
    ensures CountIn(diners, SetOf(s.dinerIds)) == |s.dinerIds|
  {
    SetOfSize(s.dinerIds);
    CountInAll(diners, SetOf(s.dinerIds));
  }

  /** Everyone in a slot's list pays an equal share, so one slot's shares
      add up to its item's price. */
  lemma ColumnIsSlotPrice(diners: seq<Diner>, items: seq<Item>, s: Slot)
    requires DinerIdsDistinct(diners) && NoDup(s.dinerIds)
    requires forall id :: id in s.dinerIds ==> id in IdSet(diners)
    ensures SumX(diners, s, Table(items)) == SlotPrice(items, s)
  {
    CountListed(diners, s);
    ColumnCount(diners, items, s);
    ShareTimesCount(items, s);
  }

  lemma {:induction false} RowIsLineSum(d: Diner, items: seq<Item>, a: Assignment)
    ensures SumY(d, a, Table(items)) == ExactSum(LinesFor(d.id, items, a))
  {
    if a != [] {
      RowIsLineSum(d, items, a[..|a| - 1]);
      var lines := LinesFor(d.id, items, a);
      var o := ShareLine(d.id, items, a[|a| - 1]);
      if o.Some? {
        assert lines[..|lines| - 1] == LinesFor(d.id, items, a[..|a| - 1]);
      } else {
        assert lines == LinesFor(d.id, items, a[..|a| - 1]);
      }
    }
  }

  lemma {:induction false} RowsAreExactTotal(diners: seq<Diner>, items: seq<Item>, a: Assignment)
    ensures SumRows(diners, a, Table(items)) == ExactTotal(diners, items, a)
  {
    if diners != [] {
      RowsAreExactTotal(diners[..|diners| - 1], items, a);
      RowIsLineSum(diners[|diners| - 1], items, a);
    }
  }

  lemma {:induction false} ColsAreAssignedTotal(diners: seq<Diner>, items: seq<Item>, a: Assignment)
    requires DinerIdsDistinct(diners)
    requires forall s :: s in a ==> NoDup(s.dinerIds) && forall id :: id in s.dinerIds ==> id in IdSet(diners)
    ensures SumCols(diners, a, Table(items)) == AssignedTotal(items, a)
  {
    if a != [] {
      assert a[|a| - 1] in a;
      ColsAreAssignedTotal(diners, items, a[..|a| - 1]);
      ColumnIsSlotPrice(diners, items, a[|a| - 1]);
    }
  }

  /** Conservation of shares: when every list is duplicate-free and names
      only listed diners (whose ids are distinct), the diners' exact shares
      add up to the prices of the items that someone is assigned to. */
  lemma SharesConserved(diners: seq<Diner>, items: seq<Item>, a: Assignment)
    requires DinerIdsDistinct(diners)
    requires forall s :: s in a ==> NoDup(s.dinerIds) && forall id :: id in s.dinerIds ==> id in IdSet(diners)
    ensures ExactTotal(diners, items, a) == AssignedTotal(items, a)
  {
    var f := Table(items);
    RowsAreExactTotal(diners, items, a);
    SwapSums(diners, a, f);
    ColsAreAssignedTotal(diners, items, a);
  }

  // ---------------------------------------------------------------------
  // When every item is assigned, the shares cover the whole bill

  predicate ItemIdsDistinct(items: seq<Item>) {
    forall i, j :: 0 <= i < j < |items| ==> items[i].id != items[j].id
  }

  /** Every item has a slot with at least one diner in it. */
  predicate Covers(items: seq<Item>, a: Assignment) {
    forall i :: 0 <= i < |items| ==> Lookup(a, items[i].id) != []
  }

  /** The table of assigned prices, items by slots. */
  function PriceTable(): (Item, Slot) -> real {
    (it: Item, t: Slot) => if it.id == t.itemId && t.dinerIds != [] then it.price as real else 0.0
  }

  lemma SlotPriceColumn(items: seq<Item>, s: Slot)
    requires ItemIdsDistinct(items)
    ensures SumX(items, s, PriceTable()) == SlotPrice(items, s)
  {
    var g := PriceTable();
    match FindItem(items, s.itemId)
    case None =>
      assert forall j :: 0 <= j < |items| ==> g(items[j], s) == 0.0;
      SumXZero(items, s, g);
    case Some(item) =>
      var i :| 0 <= i < |items| && items[i] == item && item.id == s.itemId;
      assert forall j :: 0 <= j < |items| && j != i ==> g(items[j], s) == 0.0;
      SumXSingle(items, s, g, i);
  }

  lemma {:induction false} AssignedTotalIsColumns(items: seq<Item>, a: Assignment)
    requires ItemIdsDistinct(items)
    ensures SumCols(items, a, PriceTable()) == AssignedTotal(items, a)
  {
    if a != [] {
      AssignedTotalIsColumns(items, a[..|a| - 1]);
      SlotPriceColumn(items, a[|a| - 1]);
    }
  }

  lemma ItemRow(it: Item, a: Assignment)
    requires KeysDistinct(a) && Lookup(a, it.id) != []
    ensures SumY(it, a, PriceTable()) == it.price as real
  {
    var g := PriceTable();
    var m := FirstIndex(Keys(a), it.id);
    LookupAt(a, m);
    assert forall j :: 0 <= j < |a| && j != m ==> g(it, a[j]) == 0.0;
    SumYSingle(it, a, g, m);
  }

  lemma {:induction false} ItemRows(items: seq<Item>, a: Assignment)
    requires KeysDistinct(a) && Covers(items, a)
    ensures SumRows(items, a, PriceTable()) == ItemsSum(items) as real
  {
    if items != [] {
      ItemRows(items[..|items| - 1], a);
      ItemRow(items[|items| - 1], a);
    }
  }

  /** When the item ids and the keys are distinct and every item is assigned
      to someone, the assigned prices are all the prices. */
  lemma AssignedTotalCoversItems(items: seq<Item>, a: Assignment)
    requires ItemIdsDistinct(items) && KeysDistinct(a) && Covers(items, a)
    ensures AssignedTotal(items, a) == ItemsSum(items) as real
  {
    AssignedTotalIsColumns(items, a);
    SwapSums(items, a, PriceTable());
    ItemRows(items, a);
  }

  /** The assignment invariants of a well-formed session: distinct ids, and
      every list duplicate-free and naming only listed diners. */
  predicate WellFormed(diners: seq<Diner>, items: seq<Item>, a: Assignment) {
    && DinerIdsDistinct(diners) && ItemIdsDistinct(items) && KeysDistinct(a)
    && forall s :: s in a ==> NoDup(s.dinerIds) && forall id :: id in s.dinerIds ==> id in IdSet(diners)
  }

  /** With every item assigned, the diners' exact shares add up to the sum of
      all item prices. */
  lemma SharesCoverBill(diners: seq<Diner>, items: seq<Item>, a: Assignment)
    requires WellFormed(diners, items, a) && Covers(items, a)
    ensures ExactTotal(diners, items, a) == ItemsSum(items) as real
  {
    SharesConserved(diners, items, a);
    AssignedTotalCoversItems(items, a);
  }

  // ---------------------------------------------------------------------
  // Rounding: per-diner totals against the bill-wide total

  function SubtotalSum(diners: seq<Diner>, items: seq<Item>, a: Assignment): int {
    if diners == [] then 0
    else SubtotalSum(diners[..|diners| - 1], items, a) + BillFor(diners[|diners| - 1], items, a).subtotal
  }

  function TipSum(diners: seq<Diner>, items: seq<Item>, a: Assignment): int {
    if diners == [] then 0
    else TipSum(diners[..|diners| - 1], items, a) + BillFor(diners[|diners| - 1], items, a).tip
  }

  function TotalSum(diners: seq<Diner>, items: seq<Item>, a: Assignment): (r: int)
    ensures r == SubtotalSum(diners, items, a) + TipSum(diners, items, a)
  {
    if diners == [] then 0
    else TotalSum(diners[..|diners| - 1], items, a) + BillFor(diners[|diners| - 1], items, a).total
  }

  /** Each rounded subtotal is under one unit above its exact share. */
  lemma {:induction false} SubtotalRounding(diners: seq<Diner>, items: seq<Item>, a: Assignment)
    ensures ExactTotal(diners, items, a) <= SubtotalSum(diners, items, a) as real
    ensures diners != [] ==> SubtotalSum(diners, items, a) as real < ExactTotal(diners, items, a) + |diners| as real
  {
    if diners != [] {
      SubtotalRounding(diners[..|diners| - 1], items, a);
    }
  }

  lemma {:induction false} TipSumCoversTip(diners: seq<Diner>, items: seq<Item>, a: Assignment)
    ensures TipSum(diners, items, a) >= Tip(SubtotalSum(diners, items, a))
  {
    if diners != [] {
      var ds := diners[..|diners| - 1];
      TipSumCoversTip(ds, items, a);
      TipSubadditive(SubtotalSum(ds, items, a), BillFor(diners[|diners| - 1], items, a).subtotal);
    } else {
      CeilOfInt(0);
    }
  }

  /** With every item assigned, the diners' subtotals add up to at least the
      sum of prices, and to at most one unit per diner more (less the one
      unit the last diner cannot add). */
  lemma SubtotalsCoverBill(diners: seq<Diner>, items: seq<Item>, a: Assignment)
    requires WellFormed(diners, items, a) && Covers(items, a)
    ensures ItemsSum(items) <= SubtotalSum(diners, items, a)
    ensures diners != [] ==> SubtotalSum(diners, items, a) <= ItemsSum(items) + |diners| - 1
  {
    SharesCoverBill(diners, items, a);
    SubtotalRounding(diners, items, a);
  }

  /** With every item assigned, the diners' totals add up to at least the
      bill-wide total: rounding per diner never loses money. */
  lemma DinerTotalsCoverTotalBill(diners: seq<Diner>, items: seq<Item>, a: Assignment)
    requires WellFormed(diners, items, a) && Covers(items, a)
    ensures TotalSum(diners, items, a) >= TotalBill(items)
  {
    SubtotalsCoverBill(diners, items, a);
    TipSumCoversTip(diners, items, a);
    TipMonotone(ItemsSum(items), SubtotalSum(diners, items, a));
  }

  // ---------------------------------------------------------------------
  // Worked examples

  const pizza := Item("p", "Pizza", 10000)
  const soda := Item("s", "Soda", 2000)
  const ana := Diner("A", "Ana", None, None)
  const ben := Diner("B", "Ben", None, None)
  const pizzaSlot := Slot("p", ["A", "B"])
  const sodaSlot := Slot("s", ["A"])

  /** A pizza shared by two diners and a soda for one: 7000 + 700 = 7700. */
  lemma PizzaAndSodaFirstDiner()
    ensures BillFor(ana, [pizza, soda], [pizzaSlot, sodaSlot]) ==
            DinerBill(ana, [BillLine("Pizza", 5000.0, 2), BillLine("Soda", 2000.0, 1)], 7000, 700, 7700)
  {
    var items := [pizza, soda];
    assert FindItem(items, "p") == Some(pizza);
    assert FindItem(items, "s") == Some(soda);
    var l0 := BillLine("Pizza", 5000.0, 2);
    var l1 := BillLine("Soda", 2000.0, 1);
    assert ShareLine("A", items, pizzaSlot) == Some(l0);
    assert ShareLine("A", items, sodaSlot) == Some(l1);
    LinesForTwo("A", items, pizzaSlot, sodaSlot);
    ExactSumTwo(l0, l1);
    var b := BillFor(ana, items, [pizzaSlot, sodaSlot]);
    assert b.items == [l0, l1];
    assert b.subtotal == 7000;
  }

  /** The other diner pays half the pizza: 5000 + 500 = 5500. */
  lemma PizzaAndSodaSecondDiner()
    ensures BillFor(ben, [pizza, soda], [pizzaSlot, sodaSlot]) ==
            DinerBill(ben, [BillLine("Pizza", 5000.0, 2)], 5000, 500, 5500)
  {
    var items := [pizza, soda];
    assert FindItem(items, "p") == Some(pizza);
    var l0 := BillLine("Pizza", 5000.0, 2);
    assert ShareLine("B", items, pizzaSlot) == Some(l0);
    assert "B" !in sodaSlot.dinerIds;
    assert ShareLine("B", items, sodaSlot) == None;
    LinesForTwo("B", items, pizzaSlot, sodaSlot);
    assert [l0] + [] == [l0];
    ExactSumOne(l0);
    var b := BillFor(ben, items, [pizzaSlot, sodaSlot]);
    assert b.items == [l0];
    assert b.subtotal == 5000;
  }

  /** The bill-wide total of that bill: 12000 + 1200 = 13200. */
  lemma PizzaAndSodaTotal()
    ensures TotalBill([pizza, soda]) == 13200
  {
    var items := [pizza, soda];
    assert items[..1] == [pizza] && items[..1][..0] == [];
    assert ItemsSum([pizza]) == 10000;
    assert ItemsSum(items) == ItemsSum([pizza]) + 2000;
    assert Tip(12000) == 1200;
  }

  const wine := Item("i", "Vino", 1000)
  const trio := [Slot("i", ["x", "y", "z"])]

  /** A 1000 item split three ways: each share is 1000/3, rounded up to 334,
      with a tip of 34 and a total of 368, while the bill-wide total is
      1100. */
  lemma ThreeWaySplit(d: Diner)
    requires d.id in trio[0].dinerIds
    ensures BillFor(d, [wine], trio) == DinerBill(d, [BillLine("Vino", 1000.0 / 3.0, 3)], 334, 34, 368)
    ensures TotalBill([wine]) == 1100
  {
    var l := BillLine("Vino", 1000.0 / 3.0, 3);
    WineThird(d);
    LinesForOne(d.id, [wine], trio[0]);
    assert trio == [trio[0]];
    ExactSumOne(l);
    var b := BillFor(d, [wine], trio);
    assert b.items == [l];
    assert b.subtotal == 334;
    assert b.tip == 34;
    WineTotal();
  }

  lemma WineThird(d: Diner)
    requires d.id in trio[0].dinerIds
    ensures ShareLine(d.id, [wine], trio[0]) == Some(BillLine("Vino", 1000.0 / 3.0, 3))
  {
    assert FindItem([wine], "i") == Some(wine);
    var o := ShareLine(d.id, [wine], trio[0]);
    assert |trio[0].dinerIds| == 3;
    assert o.value.price * 3.0 == 1000.0;
  }

  lemma WineTotal()
    ensures TotalBill([wine]) == 1100
  {
    assert [wine][..0] == [];
    assert ItemsSum([wine]) == 1000;
  }
}
