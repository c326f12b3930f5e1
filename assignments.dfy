/** The assignment object as JavaScript treats it: reading a missing key with
    `a[k] || []`, writing with `{...a, [k]: v}` (an existing key keeps its
    place, a new key goes last) and `delete a[k]`. */
module Assignments {
  import opened Types

  function Keys(a: Assignment): (r: seq<string>)
    ensures |r| == |a|
    ensures forall i :: 0 <= i < |a| ==> r[i] == a[i].itemId
  {
    seq(|a|, i requires 0 <= i < |a| => a[i].itemId)
  }

  /** Object keys are unique. */
  predicate KeysDistinct(a: Assignment) {
    forall i, j :: 0 <= i < j < |a| ==> a[i].itemId != a[j].itemId
  }

  /** `a[k] || []`: the diner list of the first slot with key `k`; a
      missing key reads as the empty list, and a non-empty result is the
      list of a slot with that key. */
  function Lookup(a: Assignment, k: string): (r: seq<string>)
    ensures k !in Keys(a) ==> r == []
    ensures r != [] ==> exists i :: 0 <= i < |a| && a[i].itemId == k && a[i].dinerIds == r
  {
    if a == [] then []
    else if a[0].itemId == k then a[0].dinerIds
    else
      assert Keys(a[1..]) == Keys(a)[1..];
      var r := Lookup(a[1..], k);
      assert r != [] ==> exists i :: 0 <= i < |a[1..]| && a[1..][i].itemId == k && a[1..][i].dinerIds == r;
      assert forall i :: 0 <= i < |a[1..]| ==> a[1..][i] == a[i + 1];
      r
  }

  /** Reading a key gives the list of the slot that holds it. */
  lemma {:induction false} LookupFirst(a: Assignment, k: string, i: nat)
    requires i < |a| && a[i].itemId == k
    requires forall j :: 0 <= j < i ==> a[j].itemId != k
    ensures Lookup(a, k) == a[i].dinerIds
  {
    if i > 0 {
      LookupFirst(a[1..], k, i - 1);
    }
  }

  lemma LookupAt(a: Assignment, i: nat)
    requires KeysDistinct(a) && i < |a|
    ensures Lookup(a, a[i].itemId) == a[i].dinerIds
  {
    LookupFirst(a, a[i].itemId, i);
  }

  /** `{...a, [k]: v}`. */
  function Put(a: Assignment, k: string, v: seq<string>): (r: Assignment)
    ensures Keys(r) == if k in Keys(a) then Keys(a) else Keys(a) + [k]
  {
    if k in Keys(a) then seq(|a|, i requires 0 <= i < |a| => if a[i].itemId == k then Slot(k, v) else a[i])
    else a + [Slot(k, v)]
  }

  /** After a write, the key reads back the written list, and every other
      key reads what it read before. */
  lemma PutLookup(a: Assignment, k: string, v: seq<string>, k': string)
    ensures Lookup(Put(a, k, v), k) == v
    ensures k' != k ==> Lookup(Put(a, k, v), k') == Lookup(a, k')
  {
    var r := Put(a, k, v);
    assert Keys(r)[..|a|] == Keys(a);
    assert k in Keys(r);
    var i := FirstIndex(Keys(r), k);
    LookupFirst(r, k, i);
    if k' != k {
      if k' in Keys(a) {
        var i' := FirstIndex(Keys(a), k');
        LookupFirst(a, k', i');
        LookupFirst(r, k', i');
      } else {
        assert k' !in Keys(r);
      }
    }
  }

  function FirstIndex(s: seq<string>, x: string): (i: nat)
    requires x in s
    ensures i < |s| && s[i] == x && forall j :: 0 <= j < i ==> s[j] != x
  {
    if s[0] == x then 0 else 1 + FirstIndex(s[1..], x)
  }

  /** A write keeps the keys unique, and slots of other keys where they were. */
  lemma PutPreserves(a: Assignment, k: string, v: seq<string>)
    ensures KeysDistinct(a) ==> KeysDistinct(Put(a, k, v))
    ensures forall i :: 0 <= i < |a| && a[i].itemId != k ==> Put(a, k, v)[i] == a[i]
  {
  }

  /** `delete a[k]` on a copy: exactly the slots of the other keys remain,
      and the key is gone. */
  function Remove(a: Assignment, k: string): (r: Assignment)
    ensures |r| <= |a|
    ensures forall s :: s in r <==> s in a && s.itemId != k
    ensures k !in Keys(r)
  {
    if a == [] then []
    else
      var rest := Remove(a[1..], k);
      assert forall s :: s in a <==> s == a[0] || s in a[1..];
      var r := if a[0].itemId == k then rest else [a[0]] + rest;
      assert k in Keys(r) ==> exists j :: 0 <= j < |r| && r[j].itemId == k && r[j] in r;
      r
  }

  /** The delete works slot by slot; with the clauses above, which fix what
      a one-slot object gives, this fixes the remaining slots and their
      order, which is the order the bill lines follow. */
  lemma {:induction false} RemoveAppend(a: Assignment, b: Assignment, k: string)
    ensures Remove(a + b, k) == Remove(a, k) + Remove(b, k)
  {
    if a != [] {
      assert (a + b)[0] == a[0] && (a + b)[1..] == a[1..] + b;
      RemoveAppend(a[1..], b, k);
      var x, y := Remove(a[1..], k), Remove(b, k);
      assert [a[0]] + (x + y) == [a[0]] + x + y;
    } else {
      assert a + b == b;
    }
  }

  /** With distinct keys, deleting a slot's key leaves the slots before and
      after it, in order. */
  lemma RemoveAt(a: Assignment, i: nat)
    requires KeysDistinct(a) && i < |a|
    ensures Remove(a, a[i].itemId) == a[..i] + a[i + 1..]
  {
    var k := a[i].itemId;
    var pre, x, post := a[..i], [a[i]], a[i + 1..];
    assert a == pre + x + post;
    OtherKeysKept(a, i, pre, post);
    RemoveAppend(pre + x, post, k);
    RemoveAppend(pre, x, k);
    RemoveOwnKey(a[i]);
    assert Remove(pre + x, k) == pre;
  }

  lemma RemoveOwnKey(s: Slot)
    ensures Remove([s], s.itemId) == []
  {
  }

  lemma OtherKeysKept(a: Assignment, i: nat, pre: Assignment, post: Assignment)
    requires KeysDistinct(a) && i < |a| && pre == a[..i] && post == a[i + 1..]
    ensures Remove(pre, a[i].itemId) == pre && Remove(post, a[i].itemId) == post
  {
    var k := a[i].itemId;
    assert k !in Keys(pre) by {
      assert forall j :: 0 <= j < |pre| ==> pre[j] == a[j];
    }
    assert k !in Keys(post) by {
      assert forall j :: 0 <= j < |post| ==> post[j] == a[i + 1 + j];
    }
    RemoveLookup(pre, k, k);
    RemoveLookup(post, k, k);
  }

  /** Every other key reads as before a delete; deleting an absent key
      changes nothing. */
  lemma {:induction false} RemoveLookup(a: Assignment, k: string, k': string)
    ensures k' != k ==> Lookup(Remove(a, k), k') == Lookup(a, k')
    ensures k !in Keys(a) ==> Remove(a, k) == a
  {
    if a != [] {
      assert Keys(a[1..]) == Keys(a)[1..];
      RemoveLookup(a[1..], k, k');
    }
  }

  lemma {:induction false} RemoveDistinct(a: Assignment, k: string)
    requires KeysDistinct(a)
    ensures KeysDistinct(Remove(a, k))
  {
    if a != [] {
      assert KeysDistinct(a[1..]);
      RemoveDistinct(a[1..], k);
      var rest := Remove(a[1..], k);
      forall j | 0 <= j < |rest| ensures rest[j].itemId != a[0].itemId {
        assert rest[j] in a[1..];
      }
    }
  }
}
