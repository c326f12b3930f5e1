/** The assignment page: the diner form's checks, the avatar initials and the
    gate on "Finalizar Asignación". */
module AssignDiners {
  import opened Types
  import opened Text
  import opened Assignments
  import BillCalculator
  import AppContext

  // ---------------------------------------------------------------------
  // Email format

  /** A run of the regex class `[^\s@]`. */
  predicate NoSpaceOrAt(s: string) {
    forall i :: 0 <= i < |s| ==> !IsSpace(s[i]) && s[i] != '@'
  }

  /** `/^[^\s@]+@[^\s@]+\.[^\s@]+$/.test(e)`: some '@' and some later '.'
      cut `e` into three non-empty runs free of white space and '@'. */
  predicate EmailPattern(e: string) {
    exists at, dot :: 0 < at && at + 1 < dot && dot + 1 < |e| && e[at] == '@' && e[dot] == '.' &&
                      NoSpaceOrAt(e[..at]) && NoSpaceOrAt(e[at + 1..dot]) && NoSpaceOrAt(e[dot + 1..])
  }

  /** The position of the first `c` in `s`, or `|s|`. */
  function IndexOf(s: string, c: char): (i: nat)
    ensures i <= |s| && c !in s[..i] && (i < |s| ==> s[i] == c)
  {
    if s == [] then 0
    else if s[0] == c then 0
    else
      var j := IndexOf(s[1..], c);
      assert s[..j + 1] == [s[0]] + s[1..][..j];
      j + 1
  }

  lemma IndexOfAt(s: string, c: char, i: nat)
    requires i < |s| && s[i] == c && c !in s[..i]
    ensures IndexOf(s, c) == i
  {
  }

  /** The shape the pattern describes, stated directly: no white space,
      exactly one '@' with something before it, and after it a '.' that is
      neither the first nor the last character. */
  predicate EmailShape(e: string) {
    var at := IndexOf(e, '@');
    var domain := if at < |e| then e[at + 1..] else "";
    && (forall i :: 0 <= i < |e| ==> !IsSpace(e[i]))
    && 0 < at < |e|
    && '@' !in domain
    && exists k :: 0 < k < |domain| - 1 && domain[k] == '.'
  }

  /** Three runs joined by '@' and '.' have no white space, and '@' only
      where it was put. */
  lemma RunsJoined(local: string, mid: string, tail: string)
    requires NoSpaceOrAt(local) && NoSpaceOrAt(mid) && NoSpaceOrAt(tail)
    ensures var e := local + "@" + mid + "." + tail;
            && (forall i :: 0 <= i < |e| ==> !IsSpace(e[i]))
            && '@' !in local && '@' !in mid + "." + tail
  {
    var e := local + "@" + mid + "." + tail;
    var domain := mid + "." + tail;
    forall i | 0 <= i < |domain| ensures !IsSpace(domain[i]) && domain[i] != '@' {
      if i < |mid| {
        assert domain[i] == mid[i];
      } else if i > |mid| {
        assert domain[i] == tail[i - |mid| - 1];
      }
    }
    assert e == local + "@" + domain;
    forall i | 0 <= i < |e| ensures !IsSpace(e[i]) {
      if i < |local| {
        assert e[i] == local[i];
      } else if i > |local| {
        assert e[i] == domain[i - |local| - 1];
      }
    }
    assert forall i :: 0 <= i < |local| ==> local[i] != '@';
  }

  lemma CutAtTwo(e: string, at: nat, dot: nat)
    requires 0 < at && at + 1 < dot && dot + 1 < |e| && e[at] == '@' && e[dot] == '.'
    ensures e == e[..at] + "@" + e[at + 1..dot] + "." + e[dot + 1..]
    ensures e[at + 1..] == e[at + 1..dot] + "." + e[dot + 1..]
  {
  }

  lemma EmailPatternIsShape(e: string)
    requires EmailPattern(e)
    ensures EmailShape(e)
  {
    var at, dot :| 0 < at && at + 1 < dot && dot + 1 < |e| && e[at] == '@' && e[dot] == '.' &&
                   NoSpaceOrAt(e[..at]) && NoSpaceOrAt(e[at + 1..dot]) && NoSpaceOrAt(e[dot + 1..]);
    var local, mid, tail := e[..at], e[at + 1..dot], e[dot + 1..];
    CutAtTwo(e, at, dot);
    RunsJoined(local, mid, tail);
    IndexOfAt(e, '@', at);
    var domain := e[at + 1..];
    assert domain[|mid|] == '.';
  }

  lemma EmailShapeIsPattern(e: string)
    requires EmailShape(e)
    ensures EmailPattern(e)
  {
    var at := IndexOf(e, '@');
    var domain := e[at + 1..];
    var k :| 0 < k < |domain| - 1 && domain[k] == '.';
    var dot := at + 1 + k;
    assert e[dot] == '.';
    var local, mid, tail := e[..at], e[at + 1..dot], e[dot + 1..];
    forall i | 0 <= i < |local| ensures !IsSpace(local[i]) && local[i] != '@' {
      assert local[i] == e[i];
    }
    forall i | 0 <= i < |mid| ensures !IsSpace(mid[i]) && mid[i] != '@' {
      assert mid[i] == e[at + 1 + i] == domain[i];
    }
    forall i | 0 <= i < |tail| ensures !IsSpace(tail[i]) && tail[i] != '@' {
      assert tail[i] == e[dot + 1 + i] == domain[k + 1 + i];
    }
    assert NoSpaceOrAt(local) && NoSpaceOrAt(mid) && NoSpaceOrAt(tail);
  }

  /** The regex accepts exactly the addresses of that shape. */
  lemma EmailPatternIff(e: string)
    ensures EmailPattern(e) <==> EmailShape(e)
  {
    if EmailPattern(e) {
      EmailPatternIsShape(e);
    }
    if EmailShape(e) {
      EmailShapeIsPattern(e);
    }
  }

  lemma EmailAcceptsExample()
    ensures EmailShape("ana@mail.cl")
  {
    var e := "ana@mail.cl";
    assert e[..3] == "ana" && e[3 + 1..8] == "mail" && e[8 + 1..] == "cl";
    assert NoSpaceOrAt("ana") && NoSpaceOrAt("mail") && NoSpaceOrAt("cl");
    assert e[3] == '@' && e[8] == '.';
    assert EmailPattern(e);
    EmailPatternIsShape(e);
  }

  lemma EmailNeedsDotExample()
    ensures !EmailShape("ana@cl")
  {
    IndexOfAt("ana@cl", '@', 3);
    assert "ana@cl"[4..] == "cl";
  }

  lemma EmailNeedsLocalPartExample()
    ensures !EmailShape("@mail.cl")
  {
    IndexOfAt("@mail.cl", '@', 0);
  }

  // ---------------------------------------------------------------------
  // The new-diner form

  /** The three ways the form is refused. */
  datatype Problem = NameRequired | ContactRequired | BadEmail

  /** The toast each refusal shows. */
  function Message(p: Problem): string {
    match p
    case NameRequired => "El nombre es obligatorio."
    case ContactRequired => "Se requiere un email o un tel\U{E9}fono (WhatsApp)."
    case BadEmail => "El formato del email es incorrecto."
  }

  /** What `handleAddDiner` does with the form: show a message, or add a
      diner with these fields. */
  datatype FormOutcome =
    | Rejected(problem: Problem)
    | Accepted(name: string, email: Option<string>, phone: Option<string>)

  /** The three guards of `handleAddDiner`, in order, over the trimmed
      fields; `email || undefined` turns an empty field into no value. */
  function ValidateNewDiner(name: string, email: string, phone: string): (r: FormOutcome)
    ensures AllSpace(name) ==> r == Rejected(NameRequired)
    ensures !AllSpace(name) && AllSpace(email) && AllSpace(phone) ==> r == Rejected(ContactRequired)
    ensures !AllSpace(name) && !AllSpace(email) && !EmailShape(Trim(email)) ==> r == Rejected(BadEmail)
    ensures r.Accepted? <==>
              !AllSpace(name) && !(AllSpace(email) && AllSpace(phone)) && (AllSpace(email) || EmailShape(Trim(email)))
    ensures r.Accepted? ==>
              && r.name == Trim(name)
              && r.email == (if AllSpace(email) then None else Some(Trim(email)))
              && r.phone == (if AllSpace(phone) then None else Some(Trim(phone)))
  {
    TrimEmptyIff(name);
    TrimEmptyIff(email);
    TrimEmptyIff(phone);
    EmailPatternIff(Trim(email));
    var n := Trim(name);
    var e := Trim(email);
    var p := Trim(phone);
    if n == [] then Rejected(NameRequired)
    else if e == [] && p == [] then Rejected(ContactRequired)
    else if e != [] && !EmailPattern(e) then Rejected(BadEmail)
    else Accepted(n, if e == [] then None else Some(e), if p == [] then None else Some(p))
  }

  /** An accepted diner has a name without surrounding white space, at
      least one contact, no empty field and a well-formed e-mail. */
  lemma AcceptedFormIsClean(name: string, email: string, phone: string)
    ensures var r := ValidateNewDiner(name, email, phone);
            r.Accepted? ==>
              && r.name != [] && !IsSpace(r.name[0]) && !IsSpace(r.name[|r.name| - 1])
              && (r.email.Some? || r.phone.Some?)
              && (r.email.Some? ==> r.email.value != [] && EmailShape(r.email.value))
              && (r.phone.Some? ==> r.phone.value != [])
  {
    var r := ValidateNewDiner(name, email, phone);
    if r.Accepted? {
      TrimEmptyIff(name);
      assert r.name == Trim(name) && r.name != [];
      if r.email.Some? {
        TrimEmptyIff(email);
        assert !AllSpace(email) && r.email.value == Trim(email);
      }
      if r.phone.Some? {
        TrimEmptyIff(phone);
        assert !AllSpace(phone) && r.phone.value == Trim(phone);
      }
    }
  }

  /** `handleAddDiner`: on a rejected form the message is shown and the
      store is untouched; otherwise exactly one diner is appended. */
  method HandleAddDiner(s: AppContext.Session, id: string, name: string, email: string, phone: string)
    returns (error: Option<string>)
    modifies s
    requires s.Valid()
    ensures s.Valid()
    ensures var r := ValidateNewDiner(name, email, phone);
            && (r.Rejected? ==> error == Some(Message(r.problem)) && s.diners == old(s.diners))
            && (r.Accepted? ==> error == None && s.diners == old(s.diners) + [Diner(id, r.name, r.email, r.phone)])
    ensures s.items == old(s.items) && s.assignments == old(s.assignments) && s.restaurant == old(s.restaurant)
    ensures s.currentUser == old(s.currentUser) && s.history == old(s.history)
  {
    var r := ValidateNewDiner(name, email, phone);
    if r.Rejected? {
      error := Some(Message(r.problem));
    } else {
      var d := s.AddDiner(id, r.name, r.email, r.phone);
      error := None;
    }
  }

  // ---------------------------------------------------------------------
  // Initials

  /** `n[0]` joined into a string: a segment's first character, and nothing
      for an empty segment (whose `n[0]` is `undefined`). */
  function Initial(segment: string): (r: string)
    ensures |r| <= 1
  {
    if segment == [] then "" else [segment[0]]
  }

  /** `name.split(' ').map(n => n[0]).slice(0, 2).join('').toUpperCase()`. */
  function GetInitials(name: string): (r: string)
    ensures |r| <= 2
    ensures name != [] && name[0] != ' ' ==> |r| >= 1 && r[0] == UpperChar(name[0])
  {
    var parts := Split(name, ' ');
    var firsts := seq(|parts|, i requires 0 <= i < |parts| => Initial(parts[i]));
    var kept := if |firsts| > 2 then firsts[..2] else firsts;
    assert |kept| == 1 ==> Join(kept, "") == kept[0];
    assert |kept| == 2 ==> Join(kept, "") == kept[0] + "" + kept[1];
    assert parts[0] == FirstSegment(name);
    ToUpper(Join(kept, ""))
  }

  /** The initials of a name are those of its first word and of the word
      after the first space; an empty word adds nothing. */
  lemma InitialsOfTwoWords(first: string, rest: string)
    requires ' ' !in first
    ensures GetInitials(first + " " + rest) == ToUpper(Initial(first) + Initial(FirstSegment(rest)))
  {
    SplitConcat(first, rest, ' ');
    SplitNoSep(first, ' ');
    var parts := Split(first + " " + rest, ' ');
    assert parts == [first] + Split(rest, ' ');
    var firsts := seq(|parts|, i requires 0 <= i < |parts| => Initial(parts[i]));
    var kept := if |firsts| > 2 then firsts[..2] else firsts;
    assert kept == [Initial(first), Initial(FirstSegment(rest))];
    assert Join(kept, "") == Initial(first) + "" + Initial(FirstSegment(rest));
  }

  /** A single word gives one initial. */
  lemma InitialsOfOneWord(word: string)
    requires ' ' !in word && word != []
    ensures GetInitials(word) == [UpperChar(word[0])]
  {
    SplitNoSep(word, ' ');
  }

  // ---------------------------------------------------------------------
  // The finalize gate

  /** `Object.values(assignments).some(ids => ids.length > 0)`. */
  function HasAssignments(a: Assignment): (r: bool)
    ensures r <==> exists i :: 0 <= i < |a| && |a[i].dinerIds| > 0
  {
    if a == [] then false
    else
      var pre := a[..|a| - 1];
      assert forall i :: 0 <= i < |pre| ==> pre[i] == a[i];
      HasAssignments(pre) || |a[|a| - 1].dinerIds| > 0
  }

  /** "Finalizar Asignación" is disabled with no diners or when every
      item's list is empty. */
  function FinalizeDisabled(diners: seq<Diner>, a: Assignment): (r: bool)
    ensures r <==> diners == [] || forall i :: 0 <= i < |a| ==> a[i].dinerIds == []
  {
    |diners| == 0 || !HasAssignments(a)
  }

  /** While nothing is assigned, every diner's bill is empty and zero. */
  lemma NoAssignmentsNoBills(diners: seq<Diner>, items: seq<Item>, a: Assignment)
    requires !HasAssignments(a)
    ensures forall d :: d in diners ==>
              BillCalculator.LinesFor(d.id, items, a) == [] && BillCalculator.BillFor(d, items, a).total == 0
  {
    forall d | d in diners
      ensures BillCalculator.LinesFor(d.id, items, a) == [] && BillCalculator.BillFor(d, items, a).total == 0
    {
      forall s | s in a ensures d.id !in s.dinerIds {
        var i :| 0 <= i < |a| && a[i] == s;
      }
      BillCalculator.UnassignedPaysNothing(d, items, a);
    }
  }

  lemma {:induction false} LookupNonEmpty(a: Assignment, k: string)
    requires Lookup(a, k) != []
    ensures HasAssignments(a)
  {
    var i :| 0 <= i < |a| && a[i].itemId == k && a[i].dinerIds == Lookup(a, k);
  }

  /** Assigning a diner to an item, with at least one diner at the table,
      enables finalizing. */
  lemma ToggleOnEnablesFinalize(diners: seq<Diner>, a: Assignment, itemId: string, dinerId: string)
    requires |diners| > 0 && dinerId !in Lookup(a, itemId)
    ensures !FinalizeDisabled(diners, AppContext.Toggle(a, itemId, dinerId))
  {
    var r := AppContext.Toggle(a, itemId, dinerId);
    assert dinerId in Lookup(r, itemId);
    LookupNonEmpty(r, itemId);
  }
}
