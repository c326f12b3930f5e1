/** The payment summary of a saved bill: the bills are recomputed from the
    entry's own diners, items and assignments, and every diner whose flag is
    set counts as having paid their whole bill. */
module HistoryDetail {
  import opened Types
  import opened BillCalculator
  import opened AppContext

  datatype PaymentSummary = PaymentSummary(paidAmount: int, remainingAmount: int, isFullyPaid: bool)

  /** `history.find(entry => entry.id === historyId)`, the `FindItem` of
      history entries. */
  function FindEntry(history: seq<HistoryEntry>, id: string): (r: Option<HistoryEntry>)
    ensures r.None? <==> forall i :: 0 <= i < |history| ==> history[i].id != id
    ensures r.Some? ==> exists i :: 0 <= i < |history| && history[i] == r.value && r.value.id == id &&
                                    forall j :: 0 <= j < i ==> history[j].id != id
  {
    if history == [] then None
    else if history[0].id == id then Some(history[0])
    else FindEntry(history[1..], id)
  }

  /** A missing flag reads as unpaid. */
  predicate IsPaid(payments: map<string, bool>, dinerId: string) {
    dinerId in payments && payments[dinerId]
  }

  /** The `reduce`: the totals of the bills whose diner is flagged paid. It
      is 0 when no bill's diner is flagged, and never negative when no total
      is. */
  function PaidAmount(bills: seq<DinerBill>, payments: map<string, bool>): (r: int)
    ensures (forall i :: 0 <= i < |bills| ==> !IsPaid(payments, bills[i].diner.id)) ==> r == 0
    ensures NonnegTotals(bills) ==> r >= 0
  {
    if bills == [] then 0
    else
      var pre, b := bills[..|bills| - 1], bills[|bills| - 1];
      assert forall i :: 0 <= i < |pre| ==> pre[i] == bills[i];
      PaidAmount(pre, payments) + (if IsPaid(payments, b.diner.id) then b.total else 0)
  }

  /** The bills the page shows for an entry: one per diner of the entry, in
      order, with that diner's lines, and none of them negative. */
  function EntryBills(e: HistoryEntry): (r: seq<DinerBill>)
    ensures |r| == |e.diners|
    ensures forall i :: 0 <= i < |e.diners| ==>
              r[i].diner == e.diners[i] && r[i].items == LinesFor(e.diners[i].id, e.items, e.assignments)
    ensures NonnegTotals(r)
  {
    var r := Bills(e.diners, e.items, e.assignments);
    assert NonnegTotals(r) by {
      forall i | 0 <= i < |e.diners| ensures r[i].total >= 0 {
        BillTotalNonneg(e.diners[i], e.items, e.assignments);
      }
    }
    r
  }

  /** `paymentSummary`. */
  function Summary(history: seq<HistoryEntry>, historyId: string): (r: PaymentSummary)
    ensures FindEntry(history, historyId).None? ==> r == PaymentSummary(0, 0, false)
    ensures FindEntry(history, historyId).Some? ==>
              var e := FindEntry(history, historyId).value;
              && r.paidAmount == PaidAmount(EntryBills(e), e.payments)
              && r.remainingAmount == e.total - r.paidAmount
              && (r.isFullyPaid <==> r.remainingAmount <= 0)
  {
    match FindEntry(history, historyId)
    case None => PaymentSummary(0, 0, false)
    case Some(e) =>
      var paid := PaidAmount(EntryBills(e), e.payments);
      var remaining := e.total - paid;
      PaymentSummary(paid, remaining, remaining <= 0)
  }

  lemma {:induction false} ExactSumNonneg(lines: seq<BillLine>)
    requires forall l :: l in lines ==> l.price >= 0.0
    ensures ExactSum(lines) >= 0.0
  {
    if lines != [] {
      assert lines[|lines| - 1] in lines;
      ExactSumNonneg(lines[..|lines| - 1]);
    }
  }

  /** Nobody's bill is negative. */
  lemma BillTotalNonneg(diner: Diner, items: seq<Item>, a: Assignment)
    ensures BillFor(diner, items, a).total >= 0
  {
    ExactSumNonneg(LinesFor(diner.id, items, a));
  }

  predicate NonnegTotals(bills: seq<DinerBill>) {
    forall i :: 0 <= i < |bills| ==> bills[i].total >= 0
  }

  /** Setting one more flag never lowers the amount paid. */
  lemma {:induction false} MarkPaidMonotone(bills: seq<DinerBill>, payments: map<string, bool>, dinerId: string)
    requires NonnegTotals(bills)
    ensures PaidAmount(bills, payments) <= PaidAmount(bills, payments[dinerId := true])
  {
    if bills != [] {
      MarkPaidMonotone(bills[..|bills| - 1], payments, dinerId);
    }
  }

  /** Marking one unpaid diner, whose id no other bill carries, adds exactly
      that diner's total. */
  lemma {:induction false} MarkPaidAdds(bills: seq<DinerBill>, payments: map<string, bool>, i: nat)
    requires i < |bills| && !IsPaid(payments, bills[i].diner.id)
    requires forall j :: 0 <= j < |bills| && j != i ==> bills[j].diner.id != bills[i].diner.id
    ensures PaidAmount(bills, payments[bills[i].diner.id := true]) == PaidAmount(bills, payments) + bills[i].total
  {
    var d := bills[i].diner.id;
    var prefix := bills[..|bills| - 1];
    if i == |bills| - 1 {
      SamePaidAmount(prefix, payments, d);
    } else {
      MarkPaidAdds(prefix, payments, i);
    }
  }

  /** A flag of a diner without a bill changes nothing. */
  lemma {:induction false} SamePaidAmount(bills: seq<DinerBill>, payments: map<string, bool>, dinerId: string)
    requires forall j :: 0 <= j < |bills| ==> bills[j].diner.id != dinerId
    ensures PaidAmount(bills, payments[dinerId := true]) == PaidAmount(bills, payments)
  {
    if bills != [] {
      SamePaidAmount(bills[..|bills| - 1], payments, dinerId);
    }
  }

  /** With every diner flagged, the amount paid is the sum of the diners'
      totals. */
  lemma {:induction false} AllPaidIsTotalSum(diners: seq<Diner>, items: seq<Item>, a: Assignment, payments: map<string, bool>)
    requires forall d :: d in diners ==> IsPaid(payments, d.id)
    ensures PaidAmount(Bills(diners, items, a), payments) == TotalSum(diners, items, a)
  {
    if diners != [] {
      var prefix := diners[..|diners| - 1];
      assert Bills(diners, items, a)[..|diners| - 1] == Bills(prefix, items, a);
      assert diners[|diners| - 1] in diners;
      AllPaidIsTotalSum(prefix, items, a, payments);
    }
  }

  /** For a bill saved from a well-formed store in which every item has a
      diner, and saved with the bill-wide total, everyone having paid makes
      the bill fully paid. */
  lemma AllPaidMeansFullyPaid(history: seq<HistoryEntry>, historyId: string)
    requires FindEntry(history, historyId).Some?
    requires var e := FindEntry(history, historyId).value;
             && WellFormed(e.diners, e.items, e.assignments) && Covers(e.items, e.assignments)
             && e.total == TotalBill(e.items)
             && forall d :: d in e.diners ==> IsPaid(e.payments, d.id)
    ensures Summary(history, historyId).isFullyPaid
  {
    var e := FindEntry(history, historyId).value;
    AllPaidIsTotalSum(e.diners, e.items, e.assignments, e.payments);
    DinerTotalsCoverTotalBill(e.diners, e.items, e.assignments);
  }

  const xi := Diner("x", "Xi", None, None)
  const yu := Diner("y", "Yu", None, None)
  const vino := Item("a", "Vino", 1000)
  const xiAlone := Slot("a", ["x"])

  lemma XiPaysAll()
    ensures BillFor(xi, [vino], [xiAlone]).total == 1100
  {
    var items := [vino];
    var l := BillLine("Vino", 1000.0, 1);
    assert LinesFor("x", items, [xiAlone]) == [l] by {
      assert FindItem(items, "a") == Some(vino);
      var o := ShareLine("x", items, xiAlone);
      assert o.value.price * 1.0 == 1000.0;
      assert o == Some(l);
      LinesForOne("x", items, xiAlone);
    }
    assert ExactSum([l]) == 1000.0 by {
      ExactSumOne(l);
    }
  }

  /** Fully paid is not "everyone paid": a diner with nothing assigned owes
      0 and may stay unflagged. */
  const xiPaidEntry := HistoryEntry("h", "d", "r", 1100, [vino], [xi, yu], [xiAlone], map["x" := true, "y" := false])

  /** The amount paid on a two-diner bill. */
  lemma PaidOfTwo(b0: DinerBill, b1: DinerBill, p: map<string, bool>)
    ensures PaidAmount([b0, b1], p) ==
            (if IsPaid(p, b0.diner.id) then b0.total else 0) + (if IsPaid(p, b1.diner.id) then b1.total else 0)
  {
    assert PaidAmount([b0], p) == (if IsPaid(p, b0.diner.id) then b0.total else 0) by {
      assert [b0][..0] == [];
    }
    assert [b0, b1][..1] == [b0];
  }

  lemma BillsOfTwo(d0: Diner, d1: Diner, items: seq<Item>, a: Assignment)
    ensures Bills([d0, d1], items, a) == [BillFor(d0, items, a), BillFor(d1, items, a)]
  {
  }

  lemma XiEntryPaid()
    ensures PaidAmount(EntryBills(xiPaidEntry), xiPaidEntry.payments) == 1100
  {
    var b0 := BillFor(xi, [vino], [xiAlone]);
    var b1 := BillFor(yu, [vino], [xiAlone]);
    var p := xiPaidEntry.payments;
    assert EntryBills(xiPaidEntry) == [b0, b1] by {
      BillsOfTwo(xi, yu, [vino], [xiAlone]);
    }
    assert b0.total == 1100 by {
      XiPaysAll();
    }
    assert b1.total == 0 by {
      assert "y" !in xiAlone.dinerIds;
      UnassignedPaysNothing(yu, [vino], [xiAlone]);
    }
    assert IsPaid(p, b0.diner.id) && !IsPaid(p, b1.diner.id);
    PaidOfTwo(b0, b1, p);
  }

  lemma FullyPaidWithSomeoneUnpaid()
    ensures Summary([xiPaidEntry], "h").isFullyPaid && !IsPaid(xiPaidEntry.payments, "y")
  {
    XiEntryPaid();
    assert FindEntry([xiPaidEntry], "h") == Some(xiPaidEntry);
  }

  /** And everyone paid is not fully paid: an item nobody was assigned is
      in the saved total but in nobody's bill. */
  lemma EveryonePaidNotFullyPaid()
    ensures var x := Diner("x", "Xi", None, None);
            var e := HistoryEntry("h", "d", "r", 1100, [Item("a", "Vino", 1000)], [x],
                                  [], map["x" := true]);
            !Summary([e], "h").isFullyPaid && IsPaid(e.payments, "x")
  {
    var x := Diner("x", "Xi", None, None);
    UnassignedPaysNothing(x, [Item("a", "Vino", 1000)], []);
    var bills := Bills([x], [Item("a", "Vino", 1000)], []);
    assert bills[..0] == [];
  }

  /** The button is shown only for an unpaid diner of a bill not fully
      paid, that is, of a bill with an amount still to pay. */
  function MarkOffered(history: seq<HistoryEntry>, historyId: string, dinerId: string): (r: bool)
    ensures r <==> && FindEntry(history, historyId).Some?
                   && !IsPaid(FindEntry(history, historyId).value.payments, dinerId)
                   && Summary(history, historyId).remainingAmount > 0
  {
    FindEntry(history, historyId).Some? &&
    !IsPaid(FindEntry(history, historyId).value.payments, dinerId) &&
    !Summary(history, historyId).isFullyPaid
  }

  /** The button's action: the flag is only ever set to `true`. The history
      keeps its length; for a known entry, the entry found afterwards is the
      old one with the diner flagged paid; otherwise nothing changes. */
  function MarkPaid(history: seq<HistoryEntry>, historyId: string, dinerId: string): (r: seq<HistoryEntry>)
    ensures |r| == |history|
    ensures FindEntry(history, historyId).None? ==> r == history
    ensures FindEntry(history, historyId).Some? ==>
              var e := FindEntry(history, historyId).value;
              && FindEntry(r, historyId) == Some(e.(payments := e.payments[dinerId := true]))
              && IsPaid(FindEntry(r, historyId).value.payments, dinerId)
  {
    if FindEntry(history, historyId).Some? then
      FindAfterSetPayment(history, historyId, dinerId, true);
      SetPayment(history, historyId, dinerId, true)
    else
      SetPaymentUnknown(history, historyId, dinerId, true);
      SetPayment(history, historyId, dinerId, true)
  }

  lemma {:induction false} FindAfterSetPayment(history: seq<HistoryEntry>, historyId: string, dinerId: string, isPaid: bool)
    requires FindEntry(history, historyId).Some?
    ensures var e := FindEntry(history, historyId).value;
            FindEntry(SetPayment(history, historyId, dinerId, isPaid), historyId) ==
              Some(e.(payments := e.payments[dinerId := isPaid]))
  {
    var r := SetPayment(history, historyId, dinerId, isPaid);
    SetPaymentAt(history, historyId, dinerId, isPaid, 0);
    if history[0].id != historyId {
      var r' := SetPayment(history[1..], historyId, dinerId, isPaid);
      assert r[1..] == r' by {
        forall j | 0 <= j < |r'| ensures r[1..][j] == r'[j] {
          assert r[1..][j] == r[j + 1] && history[1..][j] == history[j + 1];
          SetPaymentAt(history, historyId, dinerId, isPaid, j + 1);
          SetPaymentAt(history[1..], historyId, dinerId, isPaid, j);
        }
      }
      FindAfterSetPayment(history[1..], historyId, dinerId, isPaid);
    }
  }

  /** Pressing the button flags the diner paid and never lowers the amount
      paid; for a diner with a bill and an id of their own it adds exactly
      that bill's total. */
  lemma MarkPaidEffect(history: seq<HistoryEntry>, historyId: string, dinerId: string)
    requires MarkOffered(history, historyId, dinerId)
    ensures var e := FindEntry(MarkPaid(history, historyId, dinerId), historyId);
            e.Some? && IsPaid(e.value.payments, dinerId)
    ensures Summary(history, historyId).paidAmount <= Summary(MarkPaid(history, historyId, dinerId), historyId).paidAmount
    ensures var e := FindEntry(history, historyId).value;
            forall i :: 0 <= i < |e.diners| && e.diners[i].id == dinerId && DinerIdsDistinct(e.diners) ==>
              Summary(MarkPaid(history, historyId, dinerId), historyId).paidAmount ==
              Summary(history, historyId).paidAmount + BillFor(e.diners[i], e.items, e.assignments).total
  {
    var e := FindEntry(history, historyId).value;
    MarkPaidMonotone(EntryBills(e), e.payments, dinerId);
    forall i | 0 <= i < |e.diners| && e.diners[i].id == dinerId && DinerIdsDistinct(e.diners)
      ensures PaidAmount(EntryBills(e), e.payments[dinerId := true]) ==
              PaidAmount(EntryBills(e), e.payments) + BillFor(e.diners[i], e.items, e.assignments).total
    {
      MarkPaidAdds(EntryBills(e), e.payments, i);
    }
  }

  /** A freshly saved entry has nobody paid. */
  lemma NewEntryNothingPaid(id: string, date: string, restaurant: string, total: int,
                            items: seq<Item>, diners: seq<Diner>, a: Assignment)
    ensures var e := NewEntry(id, date, restaurant, total, items, diners, a);
            Summary([e], id) == PaymentSummary(0, total, total <= 0)
  {
    var e := NewEntry(id, date, restaurant, total, items, diners, a);
    assert forall i :: 0 <= i < |EntryBills(e)| ==> !IsPaid(e.payments, EntryBills(e)[i].diner.id);
  }
}
