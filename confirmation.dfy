/** The confirmation page: the WhatsApp phone number, the entry saved on
    "Finalizar y Guardar" and the guard against arriving without a bill. */
module Confirmation {
  import opened Types
  import opened Text
  import opened BillCalculator
  import AppContext
  import EditBill
  import AssignDiners

  // ---------------------------------------------------------------------
  // Phone numbers

  /** `formatPhoneNumber`: the Chilean country code, then the digits of the
      number as typed. */
  function FormatPhoneNumber(phone: string): (r: string)
    ensures |r| >= 2 && r[..2] == "56" && AllDigits(r)
  {
    var ds := Digits(phone);
    assert forall i :: 2 <= i < |"56" + ds| ==> ("56" + ds)[i] == ds[i - 2];
    "56" + ds
  }

  /** A number typed as digits only is kept as it is, after the code. */
  lemma PhoneOfDigits(ds: string)
    requires AllDigits(ds)
    ensures FormatPhoneNumber(ds) == "56" + ds
  {
    DigitsOfDigits(ds);
  }

  /** Spaces, dashes, '+' and other non-digits anywhere in the number are
      dropped. */
  lemma PhoneIgnoresSeparators(a: string, sep: string, b: string)
    requires forall i :: 0 <= i < |sep| ==> !IsDigit(sep[i])
    ensures FormatPhoneNumber(a + sep + b) == FormatPhoneNumber(a + b)
  {
    DigitsAppend(a + sep, b);
    DigitsAppend(a, sep);
    DigitsAppend(a, b);
    DigitsNone(sep);
    assert Digits(a) + [] == Digits(a);
  }

  /** Digits typed before the rest of the number are kept after the code. */
  lemma PhoneWithPrefix(prefix: string, rest: string)
    requires AllDigits(prefix)
    ensures FormatPhoneNumber(prefix + rest) == "56" + prefix + Digits(rest)
  {
    DigitsAppend(prefix, rest);
    DigitsOfDigits(prefix);
  }

  /** A number typed with its country code gets the code twice (a leading
      '+' is dropped as any separator is). */
  lemma PhoneWithCountryCode(rest: string)
    ensures FormatPhoneNumber("56" + rest) == "5656" + Digits(rest)
  {
    assert AllDigits("56") by {
      assert IsDigit('5') && IsDigit('6');
    }
    PhoneWithPrefix("56", rest);
    assert "56" + "56" == "5656";
  }

  // ---------------------------------------------------------------------
  // Saving the bill

  const UnnamedBill := "Cuenta sin nombre"

  /** The argument of `addHistoryEntry` in `handleFinalizeAndSave`. */
  datatype SavedBill = SavedBill(restaurant: string, total: int, items: seq<Item>, diners: seq<Diner>, assignments: Assignment)

  /** `restaurant || 'Cuenta sin nombre'`, the bill-wide total, and the
      bill's items, diners and assignments as they are. */
  function FinalizeArgs(restaurant: string, items: seq<Item>, diners: seq<Diner>, a: Assignment): (r: SavedBill)
    ensures r.restaurant != ""
    ensures restaurant != "" ==> r.restaurant == restaurant
    ensures r.total == TotalBill(items) && 10 * r.total >= 11 * ItemsSum(items) > 10 * r.total - 10
    ensures r.items == items && r.diners == diners && r.assignments == a
  {
    SavedBill(if restaurant == "" then UnnamedBill else restaurant, TotalBill(items), items, diners, a)
  }

  /** `handleFinalizeAndSave`: the bill becomes the newest history entry,
      with nobody marked paid. */
  method HandleFinalizeAndSave(s: AppContext.Session, id: string, date: string)
    modifies s
    requires s.Valid()
    ensures s.Valid()
    ensures var args := FinalizeArgs(old(s.restaurant), old(s.items), old(s.diners), old(s.assignments));
            s.history == [AppContext.NewEntry(id, date, args.restaurant, args.total, args.items, args.diners, args.assignments)]
                         + old(s.history)
    ensures s.items == old(s.items) && s.diners == old(s.diners) && s.assignments == old(s.assignments)
    ensures s.restaurant == old(s.restaurant) && s.currentUser == old(s.currentUser)
  {
    var args := FinalizeArgs(s.restaurant, s.items, s.diners, s.assignments);
    s.AddHistoryEntry(id, date, args.restaurant, args.total, args.items, args.diners, args.assignments);
  }

  /** The saved total depends on the items only. */
  lemma SavedTotalIgnoresDiners(restaurant: string, items: seq<Item>, d1: seq<Diner>, a1: Assignment,
                                d2: seq<Diner>, a2: Assignment)
    ensures FinalizeArgs(restaurant, items, d1, a1).total == FinalizeArgs(restaurant, items, d2, a2).total
  {
  }

  /** When every item is shared out, the diners together owe at least the
      saved total. */
  lemma SavedTotalCovered(restaurant: string, diners: seq<Diner>, items: seq<Item>, a: Assignment)
    requires WellFormed(diners, items, a) && Covers(items, a)
    ensures FinalizeArgs(restaurant, items, diners, a).total <= TotalSum(diners, items, a)
  {
    DinerTotalsCoverTotalBill(diners, items, a);
  }

  const tableOfThree := [Diner("x", "Equis", None, None), Diner("y", "Ye", None, None), Diner("z", "Zeta", None, None)]

  /** Adding a diner at the end adds their total. */
  lemma TotalSumSnoc(ds: seq<Diner>, d: Diner, items: seq<Item>, a: Assignment)
    ensures TotalSum(ds + [d], items, a) == TotalSum(ds, items, a) + BillFor(d, items, a).total
  {
    assert (ds + [d])[..|ds|] == ds;
  }

  lemma TotalSumOfThree(d0: Diner, d1: Diner, d2: Diner, items: seq<Item>, a: Assignment)
    ensures TotalSum([d0, d1, d2], items, a) ==
            BillFor(d0, items, a).total + BillFor(d1, items, a).total + BillFor(d2, items, a).total
  {
    var s1 := [] + [d0];
    var s2 := s1 + [d1];
    TotalSumSnoc([], d0, items, a);
    TotalSumSnoc(s1, d1, items, a);
    TotalSumSnoc(s2, d2, items, a);
    assert TotalSum([], items, a) == 0;
    assert s2 + [d2] == [d0, d1, d2];
  }

  /** It can be less: three diners sharing a 1000 item owe 1104 between
      them, and the entry saves 1100. */
  lemma SavedTotalBelowDinerTotals()
    ensures FinalizeArgs("", [wine], tableOfThree, trio).total == 1100
    ensures TotalSum(tableOfThree, [wine], trio) == 1104
  {
    var t := tableOfThree;
    ThreeWaySplit(t[0]);
    ThreeWaySplit(t[1]);
    ThreeWaySplit(t[2]);
    TotalSumOfThree(t[0], t[1], t[2], [wine], trio);
    assert t == [t[0], t[1], t[2]];
  }

  // ---------------------------------------------------------------------
  // Arriving without a bill

  /** The page sends the user back when the bill has no items or no
      diners. */
  predicate ShouldRedirect(items: seq<Item>, diners: seq<Diner>) {
    |items| == 0 || |diners| == 0
  }

  /** Coming through the enabled "Confirmar y Asignar" and "Finalizar
      Asignación" buttons never triggers the redirect, and an empty bill
      always does. */
  lemma EnabledPathNeverRedirects(items: seq<Item>, diners: seq<Diner>, a: Assignment)
    ensures EditBill.CanContinue(items) && !AssignDiners.FinalizeDisabled(diners, a) ==> !ShouldRedirect(items, diners)
    ensures items == [] ==> ShouldRedirect(items, diners) && !EditBill.CanContinue(items)
  {
  }
}
