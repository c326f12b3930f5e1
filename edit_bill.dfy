/** The bill editor: reading a typed price and adding a blank item. */
module EditBill {
  import opened Types
  import opened Text
  import Messaging
  import BillCalculator
  import AppContext

  /** `handlePriceChange`'s price: `parseInt` of the digits of the input,
      with the `NaN` of a digit-free input read as 0. */
  function PriceFromInput(value: string): (p: nat)
    ensures Digits(value) == [] ==> p == 0
  {
    var ds := Digits(value);
    if ds == [] then 0 else DecimalValue(ds)
  }

  /** Typing one more character: a digit shifts the price left by one
      decimal place and adds its value, anything else changes nothing. */
  lemma PriceOfTyping(value: string, c: char)
    ensures PriceFromInput(value + [c]) ==
              if IsDigit(c) then 10 * PriceFromInput(value) + DigitValue(c) else PriceFromInput(value)
  {
    var v := value + [c];
    assert v[..|v| - 1] == value;
    var ds := Digits(value);
    if IsDigit(c) {
      var ds' := ds + [c];
      assert Digits(v) == ds';
      assert ds'[..|ds'| - 1] == ds && ds'[|ds'| - 1] == c;
      assert DecimalValue(ds') == 10 * DecimalValue(ds) + DigitValue(c);
    } else {
      assert Digits(v) == ds + [];
      assert ds + [] == ds;
    }
  }

  /** The price is the decimal value of the digits, wherever the other
      characters stand. */
  lemma PriceIgnoresSeparators(a: string, b: string)
    requires forall i :: 0 <= i < |a| ==> !IsDigit(a[i])
    ensures PriceFromInput(a + b) == PriceFromInput(b)
    ensures PriceFromInput(b + a) == PriceFromInput(b)
  {
    DigitsAppend(a, b);
    DigitsAppend(b, a);
    DigitsNone(a);
    assert Digits(a + b) == Digits(b);
    assert Digits(b) + [] == Digits(b);
  }

  lemma PriceOfDigits(ds: string)
    requires AllDigits(ds) && ds != []
    ensures PriceFromInput(ds) == DecimalValue(ds)
  {
    DigitsOfDigits(ds);
  }

  /** A separator between two runs of input is skipped. */
  lemma PriceSkipsSeparator(x: string, c: char, y: string)
    requires !IsDigit(c)
    ensures PriceFromInput(x + [c] + y) == PriceFromInput(x + y)
  {
    DigitsAppend(x + [c], y);
    DigitsAppend(x, [c]);
    DigitsAppend(x, y);
    DigitsNone([c]);
    assert Digits(x) + [] == Digits(x);
  }

  /** A thousands figure typed as "d.ddd" reads as the four digits. */
  lemma PriceOfGroupedThousands(a: char, b: char, c: char, d: char)
    requires IsDigit(a) && IsDigit(b) && IsDigit(c) && IsDigit(d)
    ensures PriceFromInput([a, '.', b, c, d]) ==
            1000 * DigitValue(a) + 100 * DigitValue(b) + 10 * DigitValue(c) + DigitValue(d)
  {
    assert Digits([]) == [];
    PriceOfTyping([], a);
    assert [] + [a] == [a];
    PriceOfTyping([a], '.');
    assert [a] + ['.'] == [a, '.'];
    PriceOfTyping([a, '.'], b);
    assert [a, '.'] + [b] == [a, '.', b];
    PriceOfTyping([a, '.', b], c);
    assert [a, '.', b] + [c] == [a, '.', b, c];
    PriceOfTyping([a, '.', b, c], d);
    assert [a, '.', b, c] + [d] == [a, '.', b, c, d];
  }

  /** "1.500" is read as 1500. */
  lemma PriceOfGroupedInput()
    ensures PriceFromInput("1.500") == 1500
  {
    PriceOfGroupedThousands('1', '5', '0', '0');
    assert ['1', '.', '5', '0', '0'] == "1.500";
  }

  /** The field shows the price with '.' between groups of three digits;
      reading that rendering back gives the price. */
  lemma PriceReadsBackRendering(p: nat)
    ensures PriceFromInput(Messaging.LocaleNumber(p)) == p
  {
    DecimalRoundTrip(p);
  }

  /** `handlePriceChange(id, value)`: the item's price becomes the price
      read from the input, and nothing else changes. */
  method HandlePriceChange(s: AppContext.Session, id: string, value: string)
    modifies s
    requires s.Valid()
    ensures s.Valid()
    ensures s.items == AppContext.UpdateItems(old(s.items), id, None, Some(PriceFromInput(value)))
    ensures s.diners == old(s.diners) && s.assignments == old(s.assignments) && s.restaurant == old(s.restaurant)
    ensures s.currentUser == old(s.currentUser) && s.history == old(s.history)
  {
    s.UpdateItem(id, None, Some(PriceFromInput(value)));
  }

  /** After a price edit, every item with that id has the typed price and
      keeps its name, and every other item is as it was. */
  lemma PriceChangeEffect(items: seq<Item>, id: string, value: string)
    ensures var r := AppContext.UpdateItems(items, id, None, Some(PriceFromInput(value)));
            && |r| == |items|
            && forall i :: 0 <= i < |items| ==>
                 if items[i].id == id then r[i] == Item(id, items[i].name, PriceFromInput(value))
                 else r[i] == items[i]
  {
  }

  const NewItemName := "Nuevo Producto"

  /** "Confirmar y Asignar" is enabled once the bill has an item. */
  predicate CanContinue(items: seq<Item>) {
    |items| > 0
  }

  /** `handleAddItem`: appends a blank item at price 0, which unlocks the
      next step and leaves the bill's total unchanged. */
  method HandleAddItem(s: AppContext.Session, id: string)
    modifies s
    requires s.Valid()
    ensures s.Valid()
    ensures s.items == old(s.items) + [Item(id, NewItemName, 0)]
    ensures CanContinue(s.items)
    ensures BillCalculator.TotalBill(s.items) == BillCalculator.TotalBill(old(s.items))
    ensures s.diners == old(s.diners) && s.assignments == old(s.assignments) && s.restaurant == old(s.restaurant)
    ensures s.currentUser == old(s.currentUser) && s.history == old(s.history)
  {
    s.AddItem(id, NewItemName, 0);
    FreeItemKeepsTotal(old(s.items), id);
  }

  /** A blank item costs nothing. */
  lemma FreeItemKeepsTotal(items: seq<Item>, id: string)
    ensures BillCalculator.ItemsSum(items + [Item(id, NewItemName, 0)]) == BillCalculator.ItemsSum(items)
    ensures BillCalculator.TotalBill(items + [Item(id, NewItemName, 0)]) == BillCalculator.TotalBill(items)
  {
    var r := items + [Item(id, NewItemName, 0)];
    assert r[..|r| - 1] == items;
  }
}
