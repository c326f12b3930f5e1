/** The text of a diner's bill as it is shared by e-mail or WhatsApp, and the
    currency rendering it uses. */
module Messaging {
  import opened Types
  import opened Text
  import BillCalculator

  // ---------------------------------------------------------------------
  // Currency

  /** A digit string with '.' between groups of three, counted from the
      right: the grouping of the es-CL number format. */
  function Group(ds: string): (r: string)
    ensures |ds| <= 3 ==> r == ds
    ensures |r| >= |ds|
  {
    if |ds| <= 3 then ds else Group(ds[..|ds| - 3]) + "." + ds[|ds| - 3..]
  }

  /** Dropping the separators gives back the digits. */
  lemma {:induction false} GroupDigits(ds: string)
    requires AllDigits(ds)
    ensures Digits(Group(ds)) == ds
  {
    if |ds| <= 3 {
      DigitsOfDigits(ds);
    } else {
      var pre, last := ds[..|ds| - 3], ds[|ds| - 3..];
      assert AllDigits(pre) && AllDigits(last) by {
        assert forall i :: 0 <= i < |pre| ==> pre[i] == ds[i];
        assert forall i :: 0 <= i < |last| ==> last[i] == ds[|ds| - 3 + i];
      }
      var g := Group(pre);
      GroupDigits(pre);
      assert Digits(g + ".") == pre by {
        DigitsAppend(g, ".");
        DigitsNone(".");
        assert pre + [] == pre;
      }
      DigitsAppend(g + ".", last);
      DigitsOfDigits(last);
      assert Group(ds) == g + "." + last;
      assert pre + last == ds;
    }
  }

  /** The groups between the separators: the first has one to three digits,
      every later one exactly three, and together they are the digits. */
  lemma {:induction false} GroupParts(ds: string)
    requires AllDigits(ds) && ds != []
    ensures var p := Split(Group(ds), '.');
            && 1 <= |p[0]| <= 3
            && (forall i :: 1 <= i < |p| ==> |p[i]| == 3)
            && Join(p, "") == ds
  {
    if |ds| <= 3 {
      SplitNoSep(ds, '.');
    } else {
      var pre, last := ds[..|ds| - 3], ds[|ds| - 3..];
      GroupParts(pre);
      SplitConcat(Group(pre), last, '.');
      assert Group(ds) == Group(pre) + ['.'] + last;
      SplitNoSep(last, '.');
      var q := Split(Group(pre), '.');
      assert Split(Group(ds), '.') == q + [last];
      JoinSnoc(q, last, "");
      assert pre + last == ds;
    }
  }

  /** `value.toLocaleString('es-CL')` for a whole number: the grouped
      decimal digits of the magnitude, with a leading '-' for a negative
      number, so its digits are those of `v`. */
  function LocaleNumber(v: int): (r: string)
    ensures |r| >= 1
    ensures v >= 0 ==> Digits(r) == DecimalString(v)
    ensures v < 0 ==> r[0] == '-' && Digits(r) == DecimalString(-v)
  {
    var ds := DecimalString(if v < 0 then -v else v);
    GroupDigits(ds);
    if v < 0 then
      DigitsAppend("-", Group(ds));
      DigitsNone("-");
      "-" + Group(ds)
    else Group(ds)
  }

  /** `formatCurrency`: a dollar sign and the grouped number. */
  function FormatCurrency(v: int): (r: string)
    ensures |r| >= 1 && r[0] == '$'
  {
    "$" + LocaleNumber(v)
  }

  /** An amount can be read back from its rendering. */
  lemma FormatCurrencyReadsBack(v: int)
    ensures var ds := Digits(FormatCurrency(v));
            AllDigits(ds) && DecimalValue(ds) == (if v < 0 then -v else v)
    ensures FormatCurrency(v)[1] == '-' <==> v < 0
  {
    DigitsAppend("$", LocaleNumber(v));
    DigitsNone("$");
    var m := if v < 0 then -v else v;
    assert Digits(FormatCurrency(v)) == DecimalString(m);
    DecimalRoundTrip(m);
    if v >= 0 {
      assert LocaleNumber(v) == Group(DecimalString(v));
      GroupAvoids(DecimalString(v), '-');
      assert LocaleNumber(v)[0] in LocaleNumber(v);
    }
  }

  // ---------------------------------------------------------------------
  // The message

  /** `- name`, then the note ` (dividido entre k)` when more than one
      diner shares the item, then the price rounded up. */
  function ItemLine(l: BillLine): (r: string)
    ensures |r| >= 2 + |l.name| && r[0] == '-' && r[1] == ' ' && r[2..2 + |l.name|] == l.name
    ensures var k := 2 + |l.name| + |SharedNote(l.sharedWith)|;
            && k <= |r| && r[2 + |l.name|..k] == SharedNote(l.sharedWith)
            && r[k..] == ": " + FormatCurrency(BillCalculator.Ceil(l.price))
    ensures EndsWith(r, ": " + FormatCurrency(BillCalculator.Ceil(l.price)))
  {
    var mid := SharedNote(l.sharedWith);
    var tail := ": " + FormatCurrency(BillCalculator.Ceil(l.price));
    FourParts("- ", l.name, mid, tail);
    "- " + l.name + mid + tail
  }

  const SharedOpen := " (dividido entre "

  /** The note of a shared item: none for one diner, ` (dividido entre k)`
      for k > 1. */
  function SharedNote(k: nat): (r: string)
    ensures r == [] <==> k <= 1
  {
    if k > 1 then SharedOpen + DecimalString(k) + ")" else ""
  }

  /** The note opens with '(' after a space, closes with ')', and the digits
      between read back as the number of diners. */
  lemma SharedNoteReadsBack(k: nat)
    requires k > 1
    ensures var r, o := SharedNote(k), |SharedOpen|;
            && |r| > o + 1 && r[..o] == SharedOpen && r[1] == '(' && r[|r| - 1] == ')'
            && AllDigits(r[o..|r| - 1]) && DecimalValue(r[o..|r| - 1]) == k
  {
    SharedOpenParen();
    var r, ds := SharedNote(k), DecimalString(k);
    assert r[|SharedOpen|..|r| - 1] == ds;
    DecimalRoundTrip(k);
  }

  lemma SharedOpenParen()
    ensures |SharedOpen| == 17 && SharedOpen[1] == '('
  {
  }

  /** For a name without '(', an item line holds '(' exactly when more than
      one diner shares the item, that is exactly when it carries the note. */
  lemma ItemLineNote(l: BillLine)
    requires '(' !in l.name
    ensures '(' in ItemLine(l) <==> l.sharedWith > 1
  {
    var c := BillCalculator.Ceil(l.price);
    var fc := FormatCurrency(c);
    var r, m := ItemLine(l), SharedNote(l.sharedWith);
    if l.sharedWith > 1 {
      SharedNoteReadsBack(l.sharedWith);
      assert r[2 + |l.name|..2 + |l.name| + |m|] == m;
      assert r[2 + |l.name| + 1] == '(';
    } else {
      CurrencyAvoids(c, '(');
      TailAvoids(fc, '(');
      LinePiecesAvoid(l.name, "", ": " + fc, '(');
      assert r == "- " + l.name + "" + ": " + fc;
    }
  }

  /** In `a + b + c + d`, the four pieces stand one after the other. */
  lemma FourParts(a: string, b: string, c: string, d: string)
    ensures var r, k := a + b + c + d, |a| + |b| + |c|;
            && |r| >= |a| + |b| && r[..|a|] == a && r[|a|..|a| + |b|] == b
            && k <= |r| && r[|a| + |b|..k] == c && r[k..] == d && EndsWith(r, d)
  {
    var r := a + b + c + d;
    assert r[|r| - |d|..] == d;
    assert r[|a| + |b|..|a| + |b| + |c|] == c;
  }

  function ItemLines(lines: seq<BillLine>): (r: seq<string>)
    ensures |r| == |lines| && forall i :: 0 <= i < |lines| ==> r[i] == ItemLine(lines[i])
  {
    seq(|lines|, i requires 0 <= i < |lines| => ItemLine(lines[i]))
  }

  /** The item lines joined with line breaks; it opens with the first line. */
  function ItemsText(lines: seq<BillLine>): (r: string)
    ensures lines == [] ==> r == ""
    ensures lines != [] ==> var first := ItemLine(lines[0]); |r| >= |first| && r[..|first|] == first
  {
    Join(ItemLines(lines), "\n")
  }

  const Wave: char := '\U{1F44B}'

  /** The fixed texts of the template, from the greeting to the thanks. */
  datatype Texts = Texts(hello: string, bang: string, yourShare: string, products: string, rule: string,
                         subtotalTag: string, tipTag: string, totalTag: string, transfer: string,
                         nameTag: string, rutTag: string, bankTag: string, typeTag: string,
                         numberTag: string, thanks: string)

  /** The texts `generatePlainTextBill` writes. */
  const Spanish := Texts("Hola ", "! ", " Tu parte de la cuenta es:", "TUS PRODUCTOS", "---------------------",
                         "Subtotal: ", "Propina (10%): ", "TOTAL A PAGAR: ", "DATOS PARA TRANSFERIR",
                         "Nombre:", "RUT:", "Banco:", "Tipo de Cuenta:", "N\U{B0} Cuenta:", "\U{A1}Gracias!")

  function Bold(forWhatsApp: bool): string {
    if forWhatsApp then "*" else ""
  }

  /** The greeting names the diner by `first`, the part of their name
      before the first space; without `forWhatsApp` the hand's place stays
      empty, so two spaces follow the "!". */
  function Greeting(t: Texts, first: string, forWhatsApp: bool): string {
    t.hello + first + t.bang + (if forWhatsApp then [Wave] else "") + t.yourShare
  }

  function TotalLine(t: Texts, total: string, forWhatsApp: bool): string {
    Bold(forWhatsApp) + t.totalTag + total + Bold(forWhatsApp)
  }

  function PayerLine(tag: string, value: string, forWhatsApp: bool): string {
    Bold(forWhatsApp) + tag + Bold(forWhatsApp) + " " + value
  }

  /** The template of `generatePlainTextBill`, cut at its line breaks (each
      blank line is an empty string here), with fixed texts `t`, filled with
      the diner's first name, the items text and the three rendered
      amounts. */
  function Layout(t: Texts, first: string, items: string, subtotal: string, tip: string, total: string,
                  payer: PayerInfo, forWhatsApp: bool): (r: seq<string>)
    ensures |r| == 18
  {
    [ Greeting(t, first, forWhatsApp),
      "",
      t.products,
      items,
      t.rule,
      t.subtotalTag + subtotal,
      t.tipTag + tip,
      TotalLine(t, total, forWhatsApp),
      "",
      t.rule,
      t.transfer,
      PayerLine(t.nameTag, payer.name, forWhatsApp),
      PayerLine(t.rutTag, payer.rut, forWhatsApp),
      PayerLine(t.bankTag, payer.bank, forWhatsApp),
      PayerLine(t.typeTag, payer.accountType, forWhatsApp),
      PayerLine(t.numberTag, payer.accountNumber, forWhatsApp),
      "",
      t.thanks ]
  }

  /** The lines of the message: its own line for the items text, the
      subtotal, tip and total rendered at the ends of theirs, and the payer's
      five fields closing the five payer lines, in that order. */
  function MessageLines(bill: DinerBill, payer: PayerInfo, forWhatsApp: bool): (r: seq<string>)
    ensures |r| == 18
    ensures r[3] == ItemsText(bill.items)
    ensures && EndsWith(r[5], FormatCurrency(bill.subtotal))
            && EndsWith(r[6], FormatCurrency(bill.tip))
            && EndsWith(r[7], FormatCurrency(bill.total) + Bold(forWhatsApp))
    ensures && EndsWith(r[11], payer.name) && EndsWith(r[12], payer.rut) && EndsWith(r[13], payer.bank)
            && EndsWith(r[14], payer.accountType) && EndsWith(r[15], payer.accountNumber)
  {
    LayoutShowsAmounts(Spanish, FirstSegment(bill.diner.name), ItemsText(bill.items), FormatCurrency(bill.subtotal),
                       FormatCurrency(bill.tip), FormatCurrency(bill.total), payer, forWhatsApp);
    LayoutShowsPayer(Spanish, FirstSegment(bill.diner.name), ItemsText(bill.items), FormatCurrency(bill.subtotal),
                     FormatCurrency(bill.tip), FormatCurrency(bill.total), payer, forWhatsApp);
    Layout(Spanish, FirstSegment(bill.diner.name), ItemsText(bill.items), FormatCurrency(bill.subtotal),
           FormatCurrency(bill.tip), FormatCurrency(bill.total), payer, forWhatsApp)
  }

  /** `generatePlainTextBill(bill, payerInfo, forWhatsApp)`: the lines
      joined with line breaks, opening with the greeting up to the diner's
      first name and closing with the thanks. */
  function PlainTextBill(bill: DinerBill, payer: PayerInfo, forWhatsApp: bool): (r: string)
    ensures var g := Spanish.hello + FirstSegment(bill.diner.name) + Spanish.bang;
            |r| >= |g| && r[..|g|] == g
    ensures EndsWith(r, Spanish.thanks)
  {
    var first, items := FirstSegment(bill.diner.name), ItemsText(bill.items);
    var sub, tip, total := FormatCurrency(bill.subtotal), FormatCurrency(bill.tip), FormatCurrency(bill.total);
    LayoutGreetingAndThanks(Spanish, first, items, sub, tip, total, payer, forWhatsApp);
    assert MessageLines(bill, payer, forWhatsApp) == Layout(Spanish, first, items, sub, tip, total, payer, forWhatsApp);
    Join(MessageLines(bill, payer, forWhatsApp), "\n")
  }

  lemma JoinEndsWith(ls: seq<string>, sep: string)
    requires ls != []
    ensures var m := Join(ls, sep); var z := ls[|ls| - 1]; |m| >= |z| && m[|m| - |z|..] == z
  {
    if |ls| > 1 {
      assert ls[..|ls| - 1] + [ls[|ls| - 1]] == ls;
      JoinSnoc(ls[..|ls| - 1], ls[|ls| - 1], sep);
    }
  }

  /** Joined with line breaks, the layout opens with the greeting and ends
      with the thanks. */
  lemma LayoutGreetingAndThanks(t: Texts, first: string, items: string, subtotal: string, tip: string,
                                total: string, payer: PayerInfo, forWhatsApp: bool)
    ensures var m := Join(Layout(t, first, items, subtotal, tip, total, payer, forWhatsApp), "\n");
            var g := t.hello + first + t.bang;
            && |m| >= |g| && m[..|g|] == g
            && |m| >= |t.thanks| && m[|m| - |t.thanks|..] == t.thanks
  {
    var ls := Layout(t, first, items, subtotal, tip, total, payer, forWhatsApp);
    JoinEndsWith(ls, "\n");
    var g := t.hello + first + t.bang;
    var m := Join(ls, "\n");
    assert ls[0][..|g|] == g;
    assert m[..|g|] == m[..|ls[0]|][..|g|];
  }

  lemma SpanishGreetingTexts()
    ensures Spanish.hello == "Hola " && Spanish.bang == "! " && Spanish.thanks == "\U{A1}Gracias!"
  {
  }

  /** The message opens with the greeting and always ends with the thanks. */
  lemma GreetingAndThanks(bill: DinerBill, payer: PayerInfo, forWhatsApp: bool)
    ensures var m := PlainTextBill(bill, payer, forWhatsApp);
            var g := "Hola " + FirstSegment(bill.diner.name) + "! ";
            && |m| >= |g| && m[..|g|] == g
            && |m| >= 9 && m[|m| - 9..] == "\U{A1}Gracias!"
  {
    SpanishGreetingTexts();
  }

  predicate EndsWith(s: string, t: string) {
    |t| <= |s| && s[|s| - |t|..] == t
  }

  lemma EndsWithAppend(a: string, b: string)
    ensures EndsWith(a + b, b)
  {
    assert (a + b)[|a|..] == b;
  }

  /** The items text stands on its own line and the amount lines end with
      the three amounts. */
  lemma LayoutShowsAmounts(t: Texts, first: string, items: string, subtotal: string, tip: string, total: string,
                           payer: PayerInfo, forWhatsApp: bool)
    ensures var ls := Layout(t, first, items, subtotal, tip, total, payer, forWhatsApp);
            && ls[3] == items
            && EndsWith(ls[5], subtotal) && EndsWith(ls[6], tip) && EndsWith(ls[7], total + Bold(forWhatsApp))
  {
    var b := Bold(forWhatsApp);
    EndsWithAppend(t.subtotalTag, subtotal);
    EndsWithAppend(t.tipTag, tip);
    EndsWithAppend(b + t.totalTag, total + b);
    assert TotalLine(t, total, forWhatsApp) == b + t.totalTag + (total + b);
  }

  /** The five payer lines end with the payer's name, RUT, bank, account
      type and account number, in that order. */
  lemma LayoutShowsPayer(t: Texts, first: string, items: string, subtotal: string, tip: string, total: string,
                         payer: PayerInfo, forWhatsApp: bool)
    ensures var ls := Layout(t, first, items, subtotal, tip, total, payer, forWhatsApp);
            && EndsWith(ls[11], payer.name) && EndsWith(ls[12], payer.rut) && EndsWith(ls[13], payer.bank)
            && EndsWith(ls[14], payer.accountType) && EndsWith(ls[15], payer.accountNumber)
  {
    var b := Bold(forWhatsApp);
    EndsWithAppend(b + t.nameTag + b + " ", payer.name);
    EndsWithAppend(b + t.rutTag + b + " ", payer.rut);
    EndsWithAppend(b + t.bankTag + b + " ", payer.bank);
    EndsWithAppend(b + t.typeTag + b + " ", payer.accountType);
    EndsWithAppend(b + t.numberTag + b + " ", payer.accountNumber);
  }

  // ---------------------------------------------------------------------
  // Markup

  /** The characters only the WhatsApp variant adds. */
  predicate Markup(c: char) {
    c == '*' || c == Wave
  }

  predicate Clean(s: string) {
    '*' !in s && Wave !in s
  }

  /** `s` with every markup character dropped. */
  function Strip(s: string): string {
    if s == [] then [] else Strip(s[..|s| - 1]) + (if Markup(s[|s| - 1]) then [] else [s[|s| - 1]])
  }

  lemma {:induction false} StripAppend(a: string, b: string)
    ensures Strip(a + b) == Strip(a) + Strip(b)
  {
    if b == [] {
      assert a + b == a;
    } else {
      assert (a + b)[..|a + b| - 1] == a + b[..|b| - 1];
      StripAppend(a, b[..|b| - 1]);
    }
  }

  lemma {:induction false} StripClean(s: string)
    requires Clean(s)
    ensures Strip(s) == s
  {
    if s != [] {
      assert s[|s| - 1] in s;
      StripClean(s[..|s| - 1]);
    }
  }

  lemma StripMarkup(c: char)
    requires Markup(c)
    ensures Strip([c]) == []
  {
    assert [c][..0] == [];
  }

  lemma {:induction false} CleanJoin(ls: seq<string>, sep: string)
    requires Clean(sep) && forall i :: 0 <= i < |ls| ==> Clean(ls[i])
    ensures Clean(Join(ls, sep))
  {
    if |ls| > 1 {
      CleanJoin(ls[1..], sep);
    }
  }

  /** Markup can be dropped line by line; a line that needs no stripping
      may be given as clean and equal instead. */
  lemma {:induction false} StripJoin(w: seq<string>, p: seq<string>, sep: string)
    requires Clean(sep) && |w| == |p|
    requires forall i :: 0 <= i < |w| ==> (w[i] == p[i] && Clean(p[i])) || Strip(w[i]) == p[i]
    ensures Strip(Join(w, sep)) == Join(p, sep)
  {
    if w != [] {
      if w[0] == p[0] && Clean(p[0]) {
        StripClean(w[0]);
      }
    }
    if |w| > 1 {
      StripJoin(w[1..], p[1..], sep);
      var x := w[0] + sep;
      StripAppend(x, Join(w[1..], sep));
      StripAppend(w[0], sep);
      StripClean(sep);
    }
  }

  /** A character that is neither a digit nor '.' is not in a grouped
      number. */
  lemma {:induction false} GroupAvoids(ds: string, c: char)
    requires AllDigits(ds) && !IsDigit(c) && c != '.'
    ensures c !in Group(ds)
  {
    if |ds| > 3 {
      GroupAvoids(ds[..|ds| - 3], c);
      var last := ds[|ds| - 3..];
      assert forall j :: 0 <= j < |last| ==> IsDigit(last[j]);
    } else {
      assert forall j :: 0 <= j < |ds| ==> IsDigit(ds[j]);
    }
  }

  /** Nor in a rendered amount, unless it is '$' or '-'. */
  lemma CurrencyAvoids(v: int, c: char)
    requires !IsDigit(c) && c != '.' && c != '$' && c != '-'
    ensures c !in FormatCurrency(v)
  {
    GroupAvoids(DecimalString(if v < 0 then -v else v), c);
  }

  lemma DigitsAvoid(s: string, c: char)
    requires AllDigits(s) && !IsDigit(c)
    ensures c !in s
  {
    assert forall j :: 0 <= j < |s| ==> IsDigit(s[j]);
  }

  lemma CurrencyClean(v: int)
    ensures Clean(FormatCurrency(v))
  {
    CurrencyAvoids(v, '*');
    CurrencyAvoids(v, Wave);
  }

  /** The bill's item names, the diner's first name and the payer's fields
      carry no markup of their own. */
  predicate CleanData(bill: DinerBill, payer: PayerInfo) {
    && Clean(FirstSegment(bill.diner.name))
    && (forall i :: 0 <= i < |bill.items| ==> Clean(bill.items[i].name))
    && Clean(payer.name) && Clean(payer.rut) && Clean(payer.bank)
    && Clean(payer.accountType) && Clean(payer.accountNumber)
  }

  lemma LinePiecesAvoid(name: string, mid: string, tail: string, c: char)
    requires c !in name && c !in mid && c !in tail && c != '-' && c != ' '
    ensures c !in "- " + name + mid + tail
  {
  }

  lemma TailAvoids(fc: string, c: char)
    requires c !in fc && c != ':' && c != ' '
    ensures c !in ": " + fc
  {
  }

  lemma SharedAvoids(ds: string, c: char)
    requires c !in ds && c !in SharedOpen && c != ')'
    ensures c !in SharedOpen + ds + ")"
  {
  }

  /** An item line holds no character that its name, its fixed text and
      its numbers lack. */
  lemma ItemLineAvoids(l: BillLine, c: char)
    requires c !in l.name && !IsDigit(c) && c !in " (dividido entre $-.:)"
    ensures c !in ItemLine(l)
  {
    var fc := FormatCurrency(BillCalculator.Ceil(l.price));
    CurrencyAvoids(BillCalculator.Ceil(l.price), c);
    TailAvoids(fc, c);
    var mid: string := "";
    if l.sharedWith > 1 {
      var ds := DecimalString(l.sharedWith);
      DigitsAvoid(ds, c);
      SharedAvoids(ds, c);
      mid := SharedNote(l.sharedWith);
    }
    LinePiecesAvoid(l.name, mid, ": " + fc, c);
  }

  lemma ItemLineClean(l: BillLine)
    requires Clean(l.name)
    ensures Clean(ItemLine(l))
  {
    LineTextClean();
    ItemLineAvoids(l, '*');
    ItemLineAvoids(l, Wave);
  }

  lemma LineTextClean()
    ensures Clean(" (dividido entre $-.:)")
  {
  }

  lemma ItemsTextClean(lines: seq<BillLine>)
    requires forall i :: 0 <= i < |lines| ==> Clean(lines[i].name)
    ensures Clean(ItemsText(lines))
  {
    var ls := ItemLines(lines);
    forall i | 0 <= i < |ls| ensures Clean(ls[i]) {
      ItemLineClean(lines[i]);
    }
    CleanJoin(ls, "\n");
  }

  /** The template's own texts carry no markup. */
  predicate CleanTexts(t: Texts) {
    && Clean(t.hello) && Clean(t.bang) && Clean(t.yourShare) && Clean(t.products) && Clean(t.rule)
    && Clean(t.subtotalTag) && Clean(t.tipTag) && Clean(t.totalTag) && Clean(t.transfer)
    && Clean(t.nameTag) && Clean(t.rutTag) && Clean(t.bankTag) && Clean(t.typeTag)
    && Clean(t.numberTag) && Clean(t.thanks)
  }

  lemma GreetingTextsClean()
    ensures Clean("Hola ") && Clean("! ") && Clean(" Tu parte de la cuenta es:")
  {
  }

  lemma HeadingTextsClean()
    ensures Clean("TUS PRODUCTOS") && Clean("---------------------")
  {
  }

  lemma AmountTextsClean()
    ensures Clean("Subtotal: ") && Clean("Propina (10%): ") && Clean("TOTAL A PAGAR: ")
  {
  }

  lemma TransferTextsClean()
    ensures Clean("DATOS PARA TRANSFERIR") && Clean("Nombre:") && Clean("RUT:") && Clean("Banco:")
  {
  }

  lemma AccountTextsClean()
    ensures Clean("Tipo de Cuenta:") && Clean("N\U{B0} Cuenta:") && Clean("\U{A1}Gracias!")
  {
  }

  lemma SpanishClean()
    ensures CleanTexts(Spanish)
  {
    GreetingTextsClean();
    HeadingTextsClean();
    AmountTextsClean();
    TransferTextsClean();
    AccountTextsClean();
  }

  /** The pieces a message is filled with carry no markup. */
  predicate CleanPieces(first: string, items: string, subtotal: string, tip: string, total: string,
                        payer: PayerInfo) {
    && Clean(first) && Clean(items) && Clean(subtotal) && Clean(tip) && Clean(total)
    && Clean(payer.name) && Clean(payer.rut) && Clean(payer.bank)
    && Clean(payer.accountType) && Clean(payer.accountNumber)
  }

  /** Filled with clean pieces, the plain layout has no markup. */
  lemma LayoutClean(t: Texts, first: string, items: string, subtotal: string, tip: string, total: string,
                    payer: PayerInfo)
    requires CleanTexts(t) && CleanPieces(first, items, subtotal, tip, total, payer)
    ensures var ls := Layout(t, first, items, subtotal, tip, total, payer, false);
            forall i :: 0 <= i < 18 ==> Clean(ls[i])
  {
  }

  lemma MessagePiecesClean(bill: DinerBill, payer: PayerInfo)
    requires CleanData(bill, payer)
    ensures CleanPieces(FirstSegment(bill.diner.name), ItemsText(bill.items), FormatCurrency(bill.subtotal),
                        FormatCurrency(bill.tip), FormatCurrency(bill.total), payer)
  {
    ItemsTextClean(bill.items);
    CurrencyClean(bill.subtotal);
    CurrencyClean(bill.tip);
    CurrencyClean(bill.total);
  }

  /** Without `forWhatsApp` the message has no '*' and no emoji. */
  lemma PlainHasNoMarkup(bill: DinerBill, payer: PayerInfo)
    requires CleanData(bill, payer)
    ensures Clean(PlainTextBill(bill, payer, false))
  {
    MessagePiecesClean(bill, payer);
    SpanishClean();
    LayoutClean(Spanish, FirstSegment(bill.diner.name), ItemsText(bill.items), FormatCurrency(bill.subtotal),
                FormatCurrency(bill.tip), FormatCurrency(bill.total), payer);
    CleanJoin(MessageLines(bill, payer, false), "\n");
  }

  lemma StripAround(a: string, m: char, c: string)
    requires Clean(a) && Markup(m) && Clean(c)
    ensures Strip(a + [m] + c) == a + c
  {
    StripClean(a);
    StripMarkup(m);
    StripAppend(a, [m]);
    assert Strip(a + [m]) == a;
    StripClean(c);
    StripAppend(a + [m], c);
  }

  lemma StripWrapped(tag: string, f: string)
    requires Clean(tag) && Clean(f)
    ensures Strip("*" + tag + f + "*") == tag + f
  {
    var x := "*" + tag;
    StripMarkup('*');
    StripClean(tag);
    StripAppend("*", tag);
    assert Strip(x) == tag;
    StripClean(f);
    StripAppend(x, f);
    assert Strip(x + f) == tag + f;
    StripAppend(x + f, "*");
  }

  lemma StripPayerLine(tag: string, value: string)
    requires Clean(tag) && Clean(value)
    ensures Strip(PayerLine(tag, value, true)) == PayerLine(tag, value, false)
  {
    var x1 := "*" + tag;
    var x2 := x1 + "*";
    var x3 := x2 + " ";
    StripMarkup('*');
    StripClean(tag);
    StripAppend("*", tag);
    assert Strip(x1) == tag;
    StripAppend(x1, "*");
    assert Strip(x2) == tag;
    StripClean(" ");
    StripAppend(x2, " ");
    assert Strip(x3) == tag + " ";
    StripClean(value);
    StripAppend(x3, value);
  }

  lemma StripGreeting(t: Texts, first: string)
    requires Clean(t.hello) && Clean(t.bang) && Clean(t.yourShare) && Clean(first)
    ensures Strip(Greeting(t, first, true)) == Greeting(t, first, false)
  {
    var a := t.hello + first + t.bang;
    StripAround(a, Wave, t.yourShare);
    assert Greeting(t, first, true) == a + [Wave] + t.yourShare;
    assert Greeting(t, first, false) == a + t.yourShare;
  }

  lemma StripTotalLine(t: Texts, total: string)
    requires Clean(t.totalTag) && Clean(total)
    ensures Strip(TotalLine(t, total, true)) == TotalLine(t, total, false)
  {
    StripWrapped(t.totalTag, total);
    assert TotalLine(t, total, false) == t.totalTag + total;
  }

  /** The greeting, the total line and the payer lines lose exactly their
      markup. */
  lemma LayoutStripMarked(t: Texts, first: string, items: string, subtotal: string, tip: string, total: string,
                          payer: PayerInfo)
    requires CleanTexts(t) && CleanPieces(first, items, subtotal, tip, total, payer)
    ensures var w := Layout(t, first, items, subtotal, tip, total, payer, true);
            var p := Layout(t, first, items, subtotal, tip, total, payer, false);
            && Strip(w[0]) == p[0] && Strip(w[7]) == p[7]
            && forall i :: 11 <= i < 16 ==> Strip(w[i]) == p[i]
  {
    StripGreeting(t, first);
    StripTotalLine(t, total);
    StripPayerLine(t.nameTag, payer.name);
    StripPayerLine(t.rutTag, payer.rut);
    StripPayerLine(t.bankTag, payer.bank);
    StripPayerLine(t.typeTag, payer.accountType);
    StripPayerLine(t.numberTag, payer.accountNumber);
  }

  /** The other lines are the same in both variants. */
  lemma LayoutSame(t: Texts, first: string, items: string, subtotal: string, tip: string, total: string,
                   payer: PayerInfo)
    ensures var w := Layout(t, first, items, subtotal, tip, total, payer, true);
            var p := Layout(t, first, items, subtotal, tip, total, payer, false);
            forall i :: 0 <= i < 18 && i != 0 && i != 7 && !(11 <= i < 16) ==> w[i] == p[i]
  {
  }

  /** Line by line, the WhatsApp layout is the plain one with markup added. */
  lemma LayoutStrip(t: Texts, first: string, items: string, subtotal: string, tip: string, total: string,
                    payer: PayerInfo)
    requires CleanTexts(t) && CleanPieces(first, items, subtotal, tip, total, payer)
    ensures var w := Layout(t, first, items, subtotal, tip, total, payer, true);
            var p := Layout(t, first, items, subtotal, tip, total, payer, false);
            forall i :: 0 <= i < 18 ==> (w[i] == p[i] && Clean(p[i])) || Strip(w[i]) == p[i]
  {
    LayoutClean(t, first, items, subtotal, tip, total, payer);
    LayoutStripMarked(t, first, items, subtotal, tip, total, payer);
    LayoutSame(t, first, items, subtotal, tip, total, payer);
  }

  /** The WhatsApp message is the plain one plus markup: dropping its '*'
      and its emoji gives the plain message. */
  lemma WhatsAppIsPlainPlusMarkup(bill: DinerBill, payer: PayerInfo)
    requires CleanData(bill, payer)
    ensures Strip(PlainTextBill(bill, payer, true)) == PlainTextBill(bill, payer, false)
  {
    MessagePiecesClean(bill, payer);
    SpanishClean();
    LayoutStrip(Spanish, FirstSegment(bill.diner.name), ItemsText(bill.items), FormatCurrency(bill.subtotal),
                FormatCurrency(bill.tip), FormatCurrency(bill.total), payer);
    StripJoin(MessageLines(bill, payer, true), MessageLines(bill, payer, false), "\n");
  }

  /** In the WhatsApp layout the greeting carries the waving hand after the
      "!", the total line is wrapped in '*', and in each of the five payer
      lines the tag is wrapped in '*' before a space and the payer's field,
      whatever the layout is filled with. */
  lemma WhatsAppBold(t: Texts, first: string, items: string, subtotal: string, tip: string, total: string,
                     payer: PayerInfo)
    ensures var ls := Layout(t, first, items, subtotal, tip, total, payer, true);
            && ls[0] == t.hello + first + t.bang + [Wave] + t.yourShare
            && ls[7] == "*" + t.totalTag + total + "*"
            && ls[11] == "*" + t.nameTag + "*" + " " + payer.name
            && ls[12] == "*" + t.rutTag + "*" + " " + payer.rut
            && ls[13] == "*" + t.bankTag + "*" + " " + payer.bank
            && ls[14] == "*" + t.typeTag + "*" + " " + payer.accountType
            && ls[15] == "*" + t.numberTag + "*" + " " + payer.accountNumber
    ensures var ls := Layout(t, first, items, subtotal, tip, total, payer, true);
            && |ls[7]| >= 2 && ls[7][0] == '*' && ls[7][|ls[7]| - 1] == '*'
            && (forall i :: 11 <= i < 16 ==> |ls[i]| >= 1 && ls[i][0] == '*')
            && Wave in ls[0]
  {
    var ls := Layout(t, first, items, subtotal, tip, total, payer, true);
    var g := t.hello + first + t.bang;
    assert ls[0] == g + [Wave] + t.yourShare;
    assert ls[0][|g|] == Wave;
  }

  // ---------------------------------------------------------------------
  // The items text

  lemma {:induction false} SplitJoin(ps: seq<string>, sep: char)
    requires ps != [] && forall i :: 0 <= i < |ps| ==> sep !in ps[i]
    ensures Split(Join(ps, [sep]), sep) == ps
  {
    if |ps| == 1 {
      SplitNoSep(ps[0], sep);
    } else {
      SplitJoin(ps[1..], sep);
      SplitNoSep(ps[0], sep);
      SplitConcat(ps[0], Join(ps[1..], [sep]), sep);
    }
  }

  /** One line per bill line, in the bill's order, with nothing after the
      last: cutting the items text at its line breaks gives the item lines
      back, provided no item name has a line break. */
  lemma ItemsTextLines(lines: seq<BillLine>)
    requires lines != [] && forall i :: 0 <= i < |lines| ==> '\n' !in lines[i].name
    ensures Split(ItemsText(lines), '\n') == ItemLines(lines)
  {
    var ls := ItemLines(lines);
    assert forall i :: 0 <= i < |ls| ==> '\n' !in ls[i] by {
      forall i | 0 <= i < |ls| ensures '\n' !in ls[i] {
        ItemLineAvoids(lines[i], '\n');
      }
    }
    SplitJoin(ls, '\n');
  }
}
