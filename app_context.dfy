/** The app's store: the bill being edited (items, diners, assignments and
    the restaurant name), the logged-in user and the saved history. Each
    store action replaces a field with a new value computed from the old
    one; the pure transitions come first, the store class after them. */
module AppContext {
  import opened Types
  import opened Assignments
  import opened BillCalculator

  // ---------------------------------------------------------------------
  // Assignment toggling

  /** `ids.filter(id => id !== d)`. */
  function Without(ids: seq<string>, d: string): (r: seq<string>)
    ensures forall x :: x in r <==> x in ids && x != d
    ensures |r| <= |ids|
    ensures d !in ids ==> r == ids
  {
    if ids == [] then []
    else if ids[0] == d then Without(ids[1..], d)
    else [ids[0]] + Without(ids[1..], d)
  }

  /** The new diner list of a toggle: every copy of `d` removed when it is
      there, `d` appended at the end when it is not. */
  function ToggledList(cur: seq<string>, d: string): (r: seq<string>)
    ensures d in r <==> d !in cur
    ensures forall x :: x != d ==> (x in r <==> x in cur)
  {
    if d in cur then Without(cur, d) else cur + [d]
  }

  /** `toggleAssignment(itemId, dinerId)` on the assignment object: it flips
      whether the diner is listed for the item (an absent key reads as the
      empty list), keeps every other diner of that list, leaves every other
      key as it was, keeps an existing key in its place or appends a new one,
      and keeps keys unique. */
  function Toggle(a: Assignment, itemId: string, dinerId: string): (r: Assignment)
    ensures dinerId in Lookup(r, itemId) <==> dinerId !in Lookup(a, itemId)
    ensures forall x :: x != dinerId ==> (x in Lookup(r, itemId) <==> x in Lookup(a, itemId))
    ensures forall other :: other != itemId ==> Lookup(r, other) == Lookup(a, other)
    ensures Keys(r) == if itemId in Keys(a) then Keys(a) else Keys(a) + [itemId]
    ensures KeysDistinct(a) ==> KeysDistinct(r)
  {
    var v := ToggledList(Lookup(a, itemId), dinerId);
    PutLookup(a, itemId, v, itemId);
    PutPreserves(a, itemId, v);
    assert forall other :: other != itemId ==> Lookup(Put(a, itemId, v), other) == Lookup(a, other) by {
      forall other | other != itemId ensures Lookup(Put(a, itemId, v), other) == Lookup(a, other) {
        PutLookup(a, itemId, v, other);
      }
    }
    Put(a, itemId, v)
  }

  lemma {:induction false} WithoutNoDup(ids: seq<string>, d: string)
    requires NoDup(ids)
    ensures NoDup(Without(ids, d))
  {
    if ids != [] {
      assert NoDup(ids[1..]);
      WithoutNoDup(ids[1..], d);
      assert ids[0] !in ids[1..];
    }
  }

  /** A duplicate-free list stays duplicate-free under a toggle. */
  lemma ToggleKeepsNoDup(a: Assignment, itemId: string, dinerId: string)
    requires forall s :: s in a ==> NoDup(s.dinerIds)
    ensures forall s :: s in Toggle(a, itemId, dinerId) ==> NoDup(s.dinerIds)
  {
    var cur := Lookup(a, itemId);
    var v := ToggledList(cur, dinerId);
    assert NoDup(v) by {
      if cur != [] {
        var i :| 0 <= i < |a| && a[i].itemId == itemId && a[i].dinerIds == cur;
        assert a[i] in a;
      }
      if dinerId in cur {
        WithoutNoDup(cur, dinerId);
      }
    }
    assert Toggle(a, itemId, dinerId) == Put(a, itemId, v);
    PutMembers(a, itemId, v);
  }

  /** A write leaves the old slots and the written one. */
  lemma PutMembers(a: Assignment, k: string, v: seq<string>)
    ensures forall s :: s in Put(a, k, v) ==> s in a || s == Slot(k, v)
  {
    var r := Put(a, k, v);
    forall s | s in r ensures s in a || s == Slot(k, v) {
      var j :| 0 <= j < |r| && r[j] == s;
      if j < |a| && r[j] != Slot(k, v) {
        assert r[j] == a[j];
      }
    }
  }

  lemma {:induction false} WithoutAppended(cur: seq<string>, d: string)
    requires d !in cur
    ensures Without(cur + [d], d) == cur
  {
    if cur != [] {
      assert (cur + [d])[1..] == cur[1..] + [d];
      WithoutAppended(cur[1..], d);
    }
  }

  /** Toggling a diner who is not listed, twice, gives the item's list back. */
  lemma ToggleTwiceRestoresList(a: Assignment, itemId: string, dinerId: string)
    requires dinerId !in Lookup(a, itemId)
    ensures Lookup(Toggle(Toggle(a, itemId, dinerId), itemId, dinerId), itemId) == Lookup(a, itemId)
  {
    var cur := Lookup(a, itemId);
    var a1 := Toggle(a, itemId, dinerId);
    PutLookup(a, itemId, cur + [dinerId], itemId);
    WithoutAppended(cur, dinerId);
    PutLookup(a1, itemId, cur, itemId);
  }

  /** When the item already has a key, the double toggle restores the whole
      object exactly. */
  lemma ToggleTwiceRestores(a: Assignment, itemId: string, dinerId: string)
    requires KeysDistinct(a) && itemId in Keys(a) && dinerId !in Lookup(a, itemId)
    ensures Toggle(Toggle(a, itemId, dinerId), itemId, dinerId) == a
  {
    var cur := Lookup(a, itemId);
    var a1 := Toggle(a, itemId, dinerId);
    PutLookup(a, itemId, cur + [dinerId], itemId);
    WithoutAppended(cur, dinerId);
    var a2 := Toggle(a1, itemId, dinerId);
    assert a2 == Put(a1, itemId, cur);
    forall j | 0 <= j < |a| ensures a2[j] == a[j] {
      if a[j].itemId == itemId {
        LookupAt(a, j);
      }
    }
  }

  /** When it has none, the double toggle leaves an empty list under a new
      last key. */
  lemma ToggleTwiceAbsentKey(a: Assignment, itemId: string, dinerId: string)
    requires itemId !in Keys(a)
    ensures Toggle(Toggle(a, itemId, dinerId), itemId, dinerId) == a + [Slot(itemId, [])]
  {
    var a1 := a + [Slot(itemId, [dinerId])];
    assert Toggle(a, itemId, dinerId) == a1 by {
      assert Lookup(a, itemId) == [];
      assert ToggledList([], dinerId) == [dinerId];
    }
    assert Toggle(a1, itemId, dinerId) == Put(a1, itemId, []) by {
      PutLookup(a, itemId, [dinerId], itemId);
      assert Without([dinerId], dinerId) == [];
    }
    PutLast(a, itemId, [dinerId], []);
  }

  /** Writing the key of the last slot, when no earlier slot has it,
      replaces just that slot. */
  lemma PutLast(a: Assignment, k: string, v: seq<string>, v': seq<string>)
    requires k !in Keys(a)
    ensures Put(a + [Slot(k, v)], k, v') == a + [Slot(k, v')]
  {
    var a1 := a + [Slot(k, v)];
    assert Keys(a1)[|a|] == k;
    var a2 := Put(a1, k, v');
    forall j | 0 <= j < |a| ensures a2[j] == a[j] {
      assert a[j].itemId == Keys(a)[j];
      assert a1[j] == a[j];
    }
  }

  /** A key with an empty list gives no bill line to anyone. */
  lemma {:induction false} EmptySlotAddsNoLines(dinerId: string, items: seq<Item>, a: Assignment, itemId: string)
    ensures LinesFor(dinerId, items, a + [Slot(itemId, [])]) == LinesFor(dinerId, items, a)
  {
    assert (a + [Slot(itemId, [])])[..|a|] == a;
  }

  /** `diners.filter(d => ids.includes(d.id))`. */
  function DinersIn(diners: seq<Diner>, ids: seq<string>): (r: seq<Diner>)
    ensures forall d :: d in r <==> d in diners && d.id in ids
    ensures |r| <= |diners|
  {
    if diners == [] then []
    else if diners[0].id in ids then [diners[0]] + DinersIn(diners[1..], ids)
    else DinersIn(diners[1..], ids)
  }

  /** The filter works piece by piece; with the membership clause above,
      which fixes what a one-diner list gives, this fixes how many diners
      remain and in which order: each listed diner once, where it stood. */
  lemma {:induction false} DinersInAppend(d1: seq<Diner>, d2: seq<Diner>, ids: seq<string>)
    ensures DinersIn(d1 + d2, ids) == DinersIn(d1, ids) + DinersIn(d2, ids)
  {
    if d1 != [] {
      assert (d1 + d2)[0] == d1[0] && (d1 + d2)[1..] == d1[1..] + d2;
      DinersInAppend(d1[1..], d2, ids);
      var x, y := DinersIn(d1[1..], ids), DinersIn(d2, ids);
      assert [d1[0]] + (x + y) == [d1[0]] + x + y;
    } else {
      assert d1 + d2 == d2;
    }
  }

  /** `getDinersAssignedToItem(itemId)`: the diners whose id the item's
      list holds, and none for an item without a key. */
  function DinersAssignedTo(diners: seq<Diner>, a: Assignment, itemId: string): (r: seq<Diner>)
    ensures forall d :: d in r <==> d in diners && d.id in Lookup(a, itemId)
    ensures |r| <= |diners|
    ensures itemId !in Keys(a) ==> r == []
  {
    var r := DinersIn(diners, Lookup(a, itemId));
    assert r != [] ==> r[0] in r;
    r
  }

  /** The item's diners keep the session's order. */
  lemma DinersAssignedToAppend(d1: seq<Diner>, d2: seq<Diner>, a: Assignment, itemId: string)
    ensures DinersAssignedTo(d1 + d2, a, itemId) == DinersAssignedTo(d1, a, itemId) + DinersAssignedTo(d2, a, itemId)
  {
    DinersInAppend(d1, d2, Lookup(a, itemId));
  }

  /** After a toggle, a listed diner with that id is among the item's diners
      exactly when it was not before; every other diner stays as it was. */
  lemma ToggleFlipsAssignedDiners(diners: seq<Diner>, a: Assignment, itemId: string, dinerId: string, d: Diner)
    requires d in diners
    ensures var before := DinersAssignedTo(diners, a, itemId);
            var after := DinersAssignedTo(diners, Toggle(a, itemId, dinerId), itemId);
            && (d.id == dinerId ==> (d in after <==> d !in before))
            && (d.id != dinerId ==> (d in after <==> d in before))
  {
  }

  // ---------------------------------------------------------------------
  // Items

  /** `items.filter(item => item.id !== id)`. */
  function RemoveItems(items: seq<Item>, id: string): (r: seq<Item>)
    ensures forall x :: x in r <==> x in items && x.id != id
    ensures (forall i :: 0 <= i < |items| ==> items[i].id != id) ==> r == items
    ensures |r| <= |items|
  {
    if items == [] then []
    else if items[0].id == id then RemoveItems(items[1..], id)
    else [items[0]] + RemoveItems(items[1..], id)
  }

  /** The filter works piece by piece; with the clauses above, which fix
      what a one-item list gives, this fixes the survivors, their number and
      their order. */
  lemma {:induction false} RemoveItemsAppend(a: seq<Item>, b: seq<Item>, id: string)
    ensures RemoveItems(a + b, id) == RemoveItems(a, id) + RemoveItems(b, id)
  {
    if a != [] {
      assert (a + b)[0] == a[0] && (a + b)[1..] == a[1..] + b;
      RemoveItemsAppend(a[1..], b, id);
      var x, y := RemoveItems(a[1..], id), RemoveItems(b, id);
      assert [a[0]] + (x + y) == [a[0]] + x + y;
    } else {
      assert a + b == b;
    }
  }

  /** Deleting the one item with that id leaves the items before and after
      it, in order, and takes its price off the sum. */
  lemma RemoveItemsAt(items: seq<Item>, id: string, i: nat)
    requires i < |items| && items[i].id == id
    requires forall j :: 0 <= j < |items| && j != i ==> items[j].id != id
    ensures RemoveItems(items, id) == items[..i] + items[i + 1..]
    ensures ItemsSum(RemoveItems(items, id)) + items[i].price == ItemsSum(items)
  {
    var pre, x, post := items[..i], [items[i]], items[i + 1..];
    assert items == pre + x + post;
    OtherIdsKept(items, id, i, pre, post);
    RemoveItemsAppend(pre + x, post, id);
    RemoveItemsAppend(pre, x, id);
    assert RemoveItems(x, id) == [];
    assert RemoveItems(items, id) == pre + post;
    ItemsSumAppend(pre, post);
    ItemsSumAppend(pre + x, post);
    ItemsSumAppend(pre, x);
  }

  lemma OtherIdsKept(items: seq<Item>, id: string, i: nat, pre: seq<Item>, post: seq<Item>)
    requires i < |items| && pre == items[..i] && post == items[i + 1..]
    requires forall j :: 0 <= j < |items| && j != i ==> items[j].id != id
    ensures RemoveItems(pre, id) == pre && RemoveItems(post, id) == post
  {
    assert forall j :: 0 <= j < |pre| ==> pre[j] == items[j];
    assert forall j :: 0 <= j < |post| ==> post[j] == items[i + 1 + j];
  }

  /** `items.map(item => item.id === id ? { ...item, ...updates } : item)`. */
  function UpdateItems(items: seq<Item>, id: string, name: Option<string>, price: Option<nat>): (r: seq<Item>)
    ensures |r| == |items|
    ensures forall i :: 0 <= i < |items| ==> r[i].id == items[i].id
    ensures forall i :: 0 <= i < |items| && items[i].id != id ==> r[i] == items[i]
    ensures forall i :: 0 <= i < |items| && items[i].id == id ==>
              && r[i].name == (if name.Some? then name.value else items[i].name)
              && r[i].price == (if price.Some? then price.value else items[i].price)
  {
    seq(|items|, i requires 0 <= i < |items| =>
      var item := items[i];
      if item.id == id then
        Item(item.id, if name.Some? then name.value else item.name, if price.Some? then price.value else item.price)
      else item)
  }

  /** Applying the same update twice is applying it once. */
  lemma UpdateItemsIdempotent(items: seq<Item>, id: string, name: Option<string>, price: Option<nat>)
    ensures UpdateItems(UpdateItems(items, id, name, price), id, name, price) == UpdateItems(items, id, name, price)
  {
  }

  /** A rename changes no price, so no total either. */
  lemma {:induction false} RenameKeepsTotal(items: seq<Item>, id: string, name: Option<string>)
    ensures ItemsSum(UpdateItems(items, id, name, None)) == ItemsSum(items)
    ensures TotalBill(UpdateItems(items, id, name, None)) == TotalBill(items)
  {
    if items != [] {
      var r := UpdateItems(items, id, name, None);
      assert r[..|r| - 1] == UpdateItems(items[..|items| - 1], id, name, None);
      RenameKeepsTotal(items[..|items| - 1], id, name);
    }
  }

  // ---------------------------------------------------------------------
  // History

  /** The `payments` of a new entry: every snapshot diner's id mapped to
      `false`. */
  function PaymentsFor(diners: seq<Diner>): (r: map<string, bool>)
    ensures r.Keys == IdSet(diners)
    ensures forall k :: k in r ==> !r[k]
  {
    if diners == [] then map[]
    else
      var prefix := diners[..|diners| - 1];
      assert IdSet(diners) == IdSet(prefix) + {diners[|diners| - 1].id} by {
        assert diners == prefix + [diners[|diners| - 1]];
      }
      PaymentsFor(prefix)[diners[|diners| - 1].id := false]
  }

  function NewEntry(id: string, date: string, restaurant: string, total: int,
                    items: seq<Item>, diners: seq<Diner>, a: Assignment): (e: HistoryEntry)
    ensures e.id == id && e.date == date && e.restaurant == restaurant && e.total == total
    ensures e.items == items && e.diners == diners && e.assignments == a
    ensures e.payments.Keys == IdSet(diners) && forall k :: k in e.payments ==> !e.payments[k]
  {
    HistoryEntry(id, date, restaurant, total, items, diners, a, PaymentsFor(diners))
  }

  /** `updatePaymentStatus(historyId, dinerId, isPaid)` on the history. */
  function SetPayment(history: seq<HistoryEntry>, historyId: string, dinerId: string, isPaid: bool): (r: seq<HistoryEntry>)
    ensures |r| == |history|
    ensures forall i :: 0 <= i < |history| && history[i].id != historyId ==> r[i] == history[i]
    ensures forall i :: 0 <= i < |history| && history[i].id == historyId ==>
              && r[i].payments.Keys == history[i].payments.Keys + {dinerId}
              && r[i].payments[dinerId] == isPaid
              && (forall k :: k in history[i].payments && k != dinerId ==> r[i].payments[k] == history[i].payments[k])
              && r[i] == history[i].(payments := r[i].payments)
  {
    seq(|history|, i requires 0 <= i < |history| =>
      var entry := history[i];
      if entry.id == historyId then entry.(payments := entry.payments[dinerId := isPaid]) else entry)
  }

  /** An unknown history id changes nothing. */
  lemma SetPaymentUnknown(history: seq<HistoryEntry>, historyId: string, dinerId: string, isPaid: bool)
    requires forall i :: 0 <= i < |history| ==> history[i].id != historyId
    ensures SetPayment(history, historyId, dinerId, isPaid) == history
  {
  }

  /** The last of two writes to the same flag wins, so in particular the
      same call twice is the call once. */
  lemma SetPaymentLastWins(history: seq<HistoryEntry>, historyId: string, dinerId: string, first: bool, second: bool)
    ensures SetPayment(SetPayment(history, historyId, dinerId, first), historyId, dinerId, second)
            == SetPayment(history, historyId, dinerId, second)
  {
    var h1 := SetPayment(history, historyId, dinerId, first);
    var h2 := SetPayment(h1, historyId, dinerId, second);
    var h := SetPayment(history, historyId, dinerId, second);
    forall i | 0 <= i < |history| ensures h2[i] == h[i] {
      if history[i].id == historyId {
        assert h2[i].payments == h[i].payments;
      }
    }
  }

  lemma SetPaymentIdempotent(history: seq<HistoryEntry>, historyId: string, dinerId: string, isPaid: bool)
    ensures SetPayment(SetPayment(history, historyId, dinerId, isPaid), historyId, dinerId, isPaid)
            == SetPayment(history, historyId, dinerId, isPaid)
  {
    SetPaymentLastWins(history, historyId, dinerId, isPaid, isPaid);
  }

  lemma SetPaymentAt(history: seq<HistoryEntry>, historyId: string, dinerId: string, isPaid: bool, i: nat)
    requires i < |history|
    ensures SetPayment(history, historyId, dinerId, isPaid)[i] ==
            if history[i].id == historyId then history[i].(payments := history[i].payments[dinerId := isPaid])
            else history[i]
  {
  }

  lemma UpdatesCommute(m: map<string, bool>, d1: string, p1: bool, d2: string, p2: bool)
    requires d1 != d2
    ensures m[d1 := p1][d2 := p2] == m[d2 := p2][d1 := p1]
  {
  }

  /** Flags of two different diners can be written in either order. */
  lemma SetPaymentCommutes(history: seq<HistoryEntry>, historyId: string, d1: string, p1: bool, d2: string, p2: bool)
    requires d1 != d2
    ensures SetPayment(SetPayment(history, historyId, d1, p1), historyId, d2, p2)
            == SetPayment(SetPayment(history, historyId, d2, p2), historyId, d1, p1)
  {
    var h1 := SetPayment(history, historyId, d1, p1);
    var h2 := SetPayment(history, historyId, d2, p2);
    var x := SetPayment(h1, historyId, d2, p2);
    var y := SetPayment(h2, historyId, d1, p1);
    forall i | 0 <= i < |history| ensures x[i] == y[i] {
      SetPaymentAt(history, historyId, d1, p1, i);
      SetPaymentAt(history, historyId, d2, p2, i);
      SetPaymentAt(h1, historyId, d2, p2, i);
      SetPaymentAt(h2, historyId, d1, p1, i);
      UpdatesCommute(history[i].payments, d1, p1, d2, p2);
    }
  }

  // ---------------------------------------------------------------------
  // The payer

  /** The guest profile shown while nobody is logged in. */
  const GuestPayer := PayerInfo("Juan Perez (Invitado)", "12.345.678-9", "Banco Estado", "Cuenta Corriente", "1234567890")

  /** `payerInfo`: the user's five bank fields, or the guest profile. */
  function PayerInfoOf(user: Option<User>): (p: PayerInfo)
    ensures user.None? ==> p == GuestPayer
    ensures user.Some? ==> p.name == user.value.name && p.rut == user.value.rut && p.bank == user.value.bank &&
                           p.accountType == user.value.accountType && p.accountNumber == user.value.accountNumber
  {
    match user
    case None => GuestPayer
    case Some(u) => PayerInfo(u.name, u.rut, u.bank, u.accountType, u.accountNumber)
  }

  /** The payer does not depend on the user's id, email, phone or password. */
  lemma PayerIgnoresCredentials(u: User, id: string, email: string, phone: string, password: Option<string>)
    ensures PayerInfoOf(Some(u.(id := id, email := email, phone := phone, password := password))) == PayerInfoOf(Some(u))
  {
  }

  // ---------------------------------------------------------------------
  // The store

  class Session {
    var items: seq<Item>
    var diners: seq<Diner>
    var assignments: Assignment
    var restaurant: string
    var currentUser: Option<User>
    var history: seq<HistoryEntry>

    /** The assignment object's keys are unique, as a JavaScript object's
        are; it is what lets a second toggle undo the first
        (`ToggleAssignment`). */
    predicate Valid()
      reads this
    {
      KeysDistinct(assignments)
    }

    /** A fresh store: an empty bill, and the user and history read back
        from storage. */
    constructor (storedUser: Option<User>, storedHistory: seq<HistoryEntry>)
      ensures Valid()
      ensures items == [] && diners == [] && assignments == [] && restaurant == ""
      ensures currentUser == storedUser && history == storedHistory
    {
      items := [];
      diners := [];
      assignments := [];
      restaurant := "";
      currentUser := storedUser;
      history := storedHistory;
    }

    function Payer(): PayerInfo
      reads this
    {
      PayerInfoOf(currentUser)
    }

    function DinersAssignedToItem(itemId: string): seq<Diner>
      reads this
    {
      DinersAssignedTo(diners, assignments, itemId)
    }

    method SetItems(newItems: seq<Item>)
      modifies this
      requires Valid()
      ensures Valid()
      ensures items == newItems
      ensures diners == old(diners) && assignments == old(assignments) && restaurant == old(restaurant)
      ensures currentUser == old(currentUser) && history == old(history)
    {
      items := newItems;
    }

    method AddDiner(id: string, name: string, email: Option<string>, phone: Option<string>) returns (d: Diner)
      modifies this
      requires Valid()
      ensures Valid()
      ensures d == Diner(id, name, email, phone)
      ensures diners == old(diners) + [d]
      ensures items == old(items) && assignments == old(assignments) && restaurant == old(restaurant)
      ensures currentUser == old(currentUser) && history == old(history)
    {
      d := Diner(id, name, email, phone);
      diners := diners + [d];
    }

    method ToggleAssignment(itemId: string, dinerId: string)
      modifies this
      requires Valid()
      ensures Valid()
      ensures assignments == Toggle(old(assignments), itemId, dinerId)
      ensures itemId in Keys(old(assignments)) && dinerId in Lookup(assignments, itemId) ==>
                Toggle(assignments, itemId, dinerId) == old(assignments)
      ensures items == old(items) && diners == old(diners) && restaurant == old(restaurant)
      ensures currentUser == old(currentUser) && history == old(history)
    {
      if itemId in Keys(assignments) && dinerId !in Lookup(assignments, itemId) {
        ToggleTwiceRestores(assignments, itemId, dinerId);
      }
      assignments := Toggle(assignments, itemId, dinerId);
    }

    method UpdateItem(id: string, name: Option<string>, price: Option<nat>)
      modifies this
      requires Valid()
      ensures Valid()
      ensures items == UpdateItems(old(items), id, name, price)
      ensures diners == old(diners) && assignments == old(assignments) && restaurant == old(restaurant)
      ensures currentUser == old(currentUser) && history == old(history)
    {
      items := UpdateItems(items, id, name, price);
    }

    /** Drops the item and its assignment key together. */
    method DeleteItem(id: string)
      modifies this
      requires Valid()
      ensures Valid()
      ensures items == RemoveItems(old(items), id) && assignments == Remove(old(assignments), id)
      ensures diners == old(diners) && restaurant == old(restaurant)
      ensures currentUser == old(currentUser) && history == old(history)
    {
      RemoveDistinct(assignments, id);
      items := RemoveItems(items, id);
      assignments := Remove(assignments, id);
    }

    method AddItem(id: string, name: string, price: nat)
      modifies this
      requires Valid()
      ensures Valid()
      ensures items == old(items) + [Item(id, name, price)]
      ensures diners == old(diners) && assignments == old(assignments) && restaurant == old(restaurant)
      ensures currentUser == old(currentUser) && history == old(history)
    {
      items := items + [Item(id, name, price)];
    }

    /** `{...prev, ...info}`: a supplied name replaces the old one. */
    method UpdateCurrentBillInfo(name: Option<string>)
      modifies this
      requires Valid()
      ensures Valid()
      ensures restaurant == if name.Some? then name.value else old(restaurant)
      ensures items == old(items) && diners == old(diners) && assignments == old(assignments)
      ensures currentUser == old(currentUser) && history == old(history)
    {
      if name.Some? {
        restaurant := name.value;
      }
    }

    /** Clears the bill; the user and the history stay. */
    method ResetState()
      modifies this
      ensures Valid()
      ensures items == [] && diners == [] && assignments == [] && restaurant == ""
      ensures currentUser == old(currentUser) && history == old(history)
    {
      items := [];
      diners := [];
      assignments := [];
      restaurant := "";
    }

    /** Saves a bill as the newest entry, nobody paid yet. */
    method AddHistoryEntry(id: string, date: string, billRestaurant: string, total: int,
                           billItems: seq<Item>, billDiners: seq<Diner>, billAssignments: Assignment)
      modifies this
      requires Valid()
      ensures Valid()
      ensures history == [NewEntry(id, date, billRestaurant, total, billItems, billDiners, billAssignments)] + old(history)
      ensures items == old(items) && diners == old(diners) && assignments == old(assignments)
      ensures restaurant == old(restaurant) && currentUser == old(currentUser)
    {
      history := [NewEntry(id, date, billRestaurant, total, billItems, billDiners, billAssignments)] + history;
    }

    method UpdatePaymentStatus(historyId: string, dinerId: string, isPaid: bool)
      modifies this
      requires Valid()
      ensures Valid()
      ensures history == SetPayment(old(history), historyId, dinerId, isPaid)
      ensures items == old(items) && diners == old(diners) && assignments == old(assignments)
      ensures restaurant == old(restaurant) && currentUser == old(currentUser)
    {
      history := SetPayment(history, historyId, dinerId, isPaid);
    }
  }
}
