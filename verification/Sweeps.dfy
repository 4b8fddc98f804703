/** The two sweeps that repair keys written by old versions: keys without a separator
    and keys with a doubled one. A sweep iterates a snapshot of the table's keys while it
    rewrites the table, and can be cut off after any write. */
module Sweeps {
  import opened Bytes
  import opened Record
  import De
  import Codec

  type Rows = map<Key, seq<Byte>>

  const DOLLAR: Byte := 0x24

  datatype Repair = MissingSep | DoubleSep

  /** Position of the first '$', or the end of the key. */
  function FirstDollar(k: Key): (i: nat)
    ensures i <= |k| && DOLLAR !in k[..i]
    ensures i < |k| ==> k[i] == DOLLAR
    ensures DOLLAR in k ==> i < |k|
  {
    if k == [] || k[0] == DOLLAR then 0
    else
      var i := 1 + FirstDollar(k[1..]);
      assert k[..i] == [k[0]] + k[1..][..i - 1];
      i
  }

  /** The sweep finds this key broken. */
  predicate Broken(r: Repair, k: Key)
  {
    match r
    case MissingSep => SEP !in k
    case DoubleSep =>
      var i := RecordEnd(k, 0);
      i + 1 < |k| && k[i + 1] == SEP
  }

  /** The sweep panics on this key. */
  predicate Fatal(r: Repair, k: Key)
  {
    match r
    case MissingSep => SEP !in k && !(Utf8(k) && DOLLAR in k)
    case DoubleSep => SEP !in k
  }

  predicate Moves(r: Repair, k: Key)
  {
    Broken(r, k) && !Fatal(r, k)
  }

  /** The key that a broken key is moved to. */
  function Fix(r: Repair, k: Key): Key
  {
    match r
    case MissingSep => k[..FirstDollar(k)] + [SEP] + k[FirstDollar(k)..]
    case DoubleSep =>
      var i := RecordEnd(k, 0);
      if i < |k| then k[..i] + k[i + 1..] else k
  }

  /** The broken key that a key may have been moved from. */
  function Unfix(r: Repair, k: Key): Key
  {
    var i := RecordEnd(k, 0);
    match r
    case MissingSep => if i < |k| then k[..i] + k[i + 1..] else k
    case DoubleSep => k[..i] + [SEP] + k[i..]
  }

  /** One repair is enough for this key. */
  predicate Settles(r: Repair, k: Key)
  {
    Moves(r, k) ==> !Moves(r, Fix(r, k))
  }

  /** Taking out the first separator. */
  lemma TakeOutSep(a: Key, b: Key)
    requires SEP !in a
    ensures RecordEnd(a + [SEP] + b, 0) == |a|
    ensures Unfix(MissingSep, a + [SEP] + b) == a + b
  {
    var f := a + [SEP] + b;
    assert f[0..|a|] == a;
    RecordEndAt(f, 0, |a|);
    assert f[..|a|] == a && f[|a| + 1..] == b;
  }

  lemma MissingSepUnfix(k: Key)
    requires Moves(MissingSep, k)
    ensures Unfix(MissingSep, Fix(MissingSep, k)) == k
  {
    var i := FirstDollar(k);
    hide FirstDollar, Unfix;
    TakeOutSep(k[..i], k[i..]);
    assert k[..i] + k[i..] == k;
  }

  lemma DoubleSepFix(k: Key) returns (i: nat)
    requires Moves(DoubleSep, k)
    ensures i == RecordEnd(k, 0) == RecordEnd(Fix(DoubleSep, k), 0) && i + 1 < |k| && k[i] == SEP
    ensures Fix(DoubleSep, k) == k[..i] + k[i + 1..]
  {
    i := RecordEnd(k, 0);
    var f := k[..i] + k[i + 1..];
    assert f[0..i] == k[0..i] && f[i] == k[i + 1];
    RecordEndAt(f, 0, i);
  }

  lemma DoubleSepUnfix(k: Key)
    requires Moves(DoubleSep, k)
    ensures Unfix(DoubleSep, Fix(DoubleSep, k)) == k
  {
    var i := DoubleSepFix(k);
    var f := Fix(DoubleSep, k);
    assert k == k[..i] + [SEP] + k[i + 1..];
    assert f[..i] == k[..i] && f[i..] == k[i + 1..];
  }

  lemma UnfixFix(r: Repair, k: Key)
    requires Moves(r, k)
    ensures Unfix(r, Fix(r, k)) == k && Fix(r, k) != k
  {
    match r {
      case MissingSep =>
        MissingSepUnfix(k);
        assert |Fix(r, k)| == |k| + 1;
      case DoubleSep =>
        DoubleSepUnfix(k);
        var _ := DoubleSepFix(k);
    }
  }

  /** One pass is always enough for missing separators. */
  lemma MissingSepSettles(t: Rows)
    ensures Stable(MissingSep, t)
  {
    forall k | k in t ensures Settles(MissingSep, k) {
      assert Fix(MissingSep, k)[FirstDollar(k)] == SEP;
    }
  }

  /** One pass is enough for a doubled separator if and only if it is not tripled. */
  lemma DoubleSepSettles(k: Key)
    requires Moves(DoubleSep, k)
    ensures var i := RecordEnd(k, 0);
      Settles(DoubleSep, k) <==> !(i + 2 < |k| && k[i + 2] == SEP)
  {
    hide RecordEnd, Fix;
    var i := DoubleSepFix(k);
    var f := Fix(DoubleSep, k);
    HoldsSepAt(f, i);
    if i + 1 < |f| { assert f[i + 1] == k[i + 2]; }
  }

  lemma HoldsSepAt(k: Key, i: nat)
    requires i < |k| && i == RecordEnd(k, 0)
    ensures k[i] == SEP && SEP in k
  {
  }

  // ----- The repaired table -----

  predicate Stable(r: Repair, t: Rows)
  {
    forall k :: k in t ==> Settles(r, k)
  }

  /** Some broken key of t is moved to k. */
  predicate MovedTo(r: Repair, t: Rows, k: Key)
  {
    var b := Unfix(r, k);
    b in t && Moves(r, b) && Fix(r, b) == k
  }

  predicate Kept(r: Repair, t: Rows, k: Key)
  {
    MovedTo(r, t, k) || (k in t && !Moves(r, k))
  }

  function Targets(r: Repair, t: Rows): set<Key>
  {
    t.Keys + set b | b in t :: Fix(r, b)
  }

  /** Every broken key moved; a moved value replaces one that was under the right key. */
  function Repaired(r: Repair, t: Rows): (t': Rows)
    ensures forall k :: k in t' <==> k in Targets(r, t) && Kept(r, t, k)
    ensures forall k :: k in t' ==> Kept(r, t, k) && t'[k] == if MovedTo(r, t, k) then t[Unfix(r, k)] else t[k]
  {
    map k | k in Targets(r, t) && Kept(r, t, k) :: if MovedTo(r, t, k) then t[Unfix(r, k)] else t[k]
  }

  lemma RepairedKeys(r: Repair, t: Rows, k: Key)
    ensures k in Repaired(r, t) <==> Kept(r, t, k)
  {
  }

  /** Writing the moved row keeps what the table is repaired to. */
  lemma PutKeeps(r: Repair, t: Rows, b: Key)
    requires Stable(r, t) && b in t && Moves(r, b)
    ensures Repaired(r, t[Fix(r, b) := t[b]]) == Repaired(r, t)
    ensures Stable(r, t[Fix(r, b) := t[b]])
  {
    hide Fix, Unfix, Moves, Targets, Repaired;
    UnfixFix(r, b);
    var f := Fix(r, b);
    var t' := t[f := t[b]];
    assert !Moves(r, f);
    forall k ensures k in Repaired(r, t') <==> k in Repaired(r, t) {
      RepairedKeys(r, t', k);
      RepairedKeys(r, t, k);
      assert MovedTo(r, t', k) <==> MovedTo(r, t, k);
    }
  }

  /** Removing the broken row once the moved row is written keeps it, too. */
  lemma RemoveKeeps(r: Repair, t: Rows, b: Key)
    requires Stable(r, t) && b in t && Moves(r, b)
    requires Fix(r, b) in t && t[Fix(r, b)] == t[b]
    ensures Repaired(r, t - {b}) == Repaired(r, t)
    ensures Stable(r, t - {b})
  {
    hide Fix, Unfix, Moves, Targets, Repaired;
    UnfixFix(r, b);
    var f := Fix(r, b);
    var t' := t - {b};
    assert !Moves(r, f);
    forall k ensures k in Repaired(r, t') <==> k in Repaired(r, t) {
      RepairedKeys(r, t', k);
      RepairedKeys(r, t, k);
      if k != f { assert MovedTo(r, t', k) <==> MovedTo(r, t, k); }
    }
    forall k | k in Repaired(r, t) ensures Repaired(r, t')[k] == Repaired(r, t)[k] {
      if k != f { assert MovedTo(r, t', k) <==> MovedTo(r, t, k); }
    }
  }

  /** A cut between the remove and the insert of a moved row loses that row, unless the
      repaired key was already there with the same value. */
  lemma CutBetweenRemoveAndInsert(r: Repair, t: Rows, b: Key)
    requires Stable(r, t) && b in t && Moves(r, b)
    ensures Repaired(r, t - {b}) == Repaired(r, t) <==> Fix(r, b) in t && t[Fix(r, b)] == t[b]
  {
    var f := Fix(r, b);
    UnfixFix(r, b);
    if f in t && t[f] == t[b] {
      RemoveKeeps(r, t, b);
    } else {
      RepairedKeys(r, t, f);
      RepairedKeys(r, t - {b}, f);
      assert Repaired(r, t)[f] == t[b];
      assert !MovedTo(r, t - {b}, f);
    }
  }

  /** A table without broken keys is repaired already. */
  lemma NothingBroken(r: Repair, t: Rows)
    requires forall k :: k in t ==> !Moves(r, k)
    ensures Repaired(r, t) == t
  {
    forall k ensures k in Repaired(r, t) <==> k in t { RepairedKeys(r, t, k); }
  }

  lemma RepairedIsClean(r: Repair, t: Rows)
    requires Stable(r, t)
    ensures forall k :: k in Repaired(r, t) ==> !Moves(r, k)
  {
    forall k | k in Repaired(r, t) ensures !Moves(r, k) {
      RepairedKeys(r, t, k);
      if MovedTo(r, t, k) { assert Settles(r, Unfix(r, k)); }
    }
  }

  /** Sweeping twice is sweeping once, if and only if no key needs two repairs. */
  lemma RepairIsIdempotent(r: Repair, t: Rows)
    ensures Repaired(r, Repaired(r, t)) == Repaired(r, t) <==> Stable(r, t)
  {
    if Stable(r, t) {
      RepairedIsClean(r, t);
      NothingBroken(r, Repaired(r, t));
    } else {
      if r == MissingSep { MissingSepSettles(t); }
      var k0 :| k0 in t && !Settles(r, k0);
      hide Fix, Unfix, Moves, Targets, Repaired;
      var k := LastOfChain(t.Keys, k0);
      var f := Fix(r, k);
      UnfixFix(r, k);
      RepairedKeys(r, t, f);
      RepairedKeys(r, t, k);
      RepairedKeys(r, Repaired(r, t), f);
    }
  }

  /** From a key that needs two repairs, up to one that no other key is moved to; only
      the repair of doubled separators has such keys. */
  lemma {:induction false} LastOfChain(keys: set<Key>, k0: Key) returns (k: Key)
    requires k0 in keys && !Settles(DoubleSep, k0)
    ensures k in keys && !Settles(DoubleSep, k) && |k| >= |k0|
    ensures var b := Unfix(DoubleSep, k); !(b in keys && Moves(DoubleSep, b) && Fix(DoubleSep, b) == k)
    decreases keys
  {
    hide Fix, Unfix, Broken, Fatal, Moves;
    var b := Unfix(DoubleSep, k0);
    if b in keys && Moves(DoubleSep, b) && Fix(DoubleSep, b) == k0 {
      FixIsShorter(b);
      k := LastOfChain(keys - {k0}, b);
      UnfixIsLonger(k);
    } else {
      k := k0;
    }
  }

  lemma FixIsShorter(k: Key)
    requires Moves(DoubleSep, k)
    ensures |Fix(DoubleSep, k)| == |k| - 1
  {
  }

  lemma UnfixIsLonger(k: Key)
    ensures |Unfix(DoubleSep, k)| == |k| + 1
  {
  }

  // ----- What an interrupted sweep leaves -----

  /** A sweep of t0 left t: its repair is the same, and no key of t is newly broken. */
  ghost predicate Left(r: Repair, t0: Rows, t: Rows)
  {
    && Stable(r, t)
    && Repaired(r, t) == Repaired(r, t0)
    && forall k :: k in t && Moves(r, k) ==> k in t0
  }

  /** Whatever an interrupted sweep of a table without broken keys leaves is that table. */
  lemma LeftClean(r: Repair, t0: Rows, t: Rows)
    requires Left(r, t0, t) && forall k :: k in t0 ==> !Moves(r, k)
    ensures t == t0
  {
    NothingBroken(r, t0);
    NothingBroken(r, t);
  }

  // ----- The sweeps as written -----

  /** The keys of t, each once: what a snapshot iteration delivers. */
  ghost predicate SnapshotOf(keys: seq<Key>, t: Rows)
  {
    && (forall i :: 0 <= i < |keys| ==> keys[i] in t)
    && (forall k :: k in t ==> k in keys)
    && (forall i, j :: 0 <= i < j < |keys| ==> keys[i] != keys[j])
  }

  /** The sweep has dealt with the first i keys of the snapshot: the broken keys still
      in the table are later ones, with their own values, and the table is still
      repaired to what the snapshot is. */
  ghost predicate Swept(r: Repair, t0: Rows, keys: seq<Key>, i: nat, t: Rows)
  {
    && i <= |keys| && Stable(r, t) && Repaired(r, t) == Repaired(r, t0)
    && BrokenLater(r, keys, i, t)
    && AsInSnapshot(r, t0, keys, i, t)
  }

  ghost predicate BrokenLater(r: Repair, keys: seq<Key>, i: nat, t: Rows)
    requires i <= |keys|
  {
    forall k :: k in t && Moves(r, k) ==> k in keys[i..]
  }

  ghost predicate AsInSnapshot(r: Repair, t0: Rows, keys: seq<Key>, i: nat, t: Rows)
    requires i <= |keys|
  {
    forall j :: i <= j < |keys| && Moves(r, keys[j]) ==>
      keys[j] in t && keys[j] in t0 && t[keys[j]] == t0[keys[j]]
  }

  lemma SweptNone(r: Repair, t: Rows, keys: seq<Key>)
    requires SnapshotOf(keys, t) && Stable(r, t)
    ensures Swept(r, t, keys, 0, t)
  {
    hide Moves, Repaired;
  }

  lemma SweptAll(r: Repair, t0: Rows, keys: seq<Key>, t: Rows)
    requires Swept(r, t0, keys, |keys|, t)
    ensures t == Repaired(r, t0)
  {
    hide Moves, Repaired;
    NothingBroken(r, t);
  }

  lemma SweptSkip(r: Repair, t0: Rows, keys: seq<Key>, i: nat, t: Rows)
    requires i < |keys| && Swept(r, t0, keys, i, t) && !Moves(r, keys[i])
    ensures Swept(r, t0, keys, i + 1, t)
  {
    hide Moves, Repaired;
    assert keys[i..] == [keys[i]] + keys[i + 1..];
  }

  lemma MoveKeepsBrokenLater(r: Repair, keys: seq<Key>, i: nat, t: Rows, f: Key, v: seq<Byte>)
    requires i < |keys| && !Moves(r, f) && BrokenLater(r, keys, i, t)
    ensures BrokenLater(r, keys, i + 1, t[f := v] - {keys[i]})
  {
    hide Moves;
    assert keys[i..] == [keys[i]] + keys[i + 1..];
  }

  lemma MoveKeepsSnapshot(r: Repair, t0: Rows, keys: seq<Key>, i: nat, t: Rows, f: Key, v: seq<Byte>)
    requires SnapshotOf(keys, t0) && i < |keys| && !Moves(r, f) && AsInSnapshot(r, t0, keys, i, t)
    ensures AsInSnapshot(r, t0, keys, i + 1, t[f := v] - {keys[i]})
  {
    hide Moves;
  }

  /** Moving the next broken key, in two writes or in one. */
  lemma SweptMove(r: Repair, t0: Rows, keys: seq<Key>, i: nat, t: Rows)
    requires SnapshotOf(keys, t0) && i < |keys| && Swept(r, t0, keys, i, t) && Moves(r, keys[i])
    ensures Repaired(r, t[Fix(r, keys[i]) := t0[keys[i]]]) == Repaired(r, t0)
    ensures Swept(r, t0, keys, i + 1, t[Fix(r, keys[i]) := t0[keys[i]]] - {keys[i]})
  {
    hide Moves, Fix, Repaired, BrokenLater, SnapshotOf;
    var b := keys[i];
    UnfixFix(r, b);
    assert Settles(r, b);
    MoveKeepsBrokenLater(r, keys, i, t, Fix(r, b), t0[b]);
    MoveKeepsSnapshot(r, t0, keys, i, t, Fix(r, b), t0[b]);
    PutKeeps(r, t, b);
    RemoveKeeps(r, t[Fix(r, b) := t[b]], b);
  }

  // ----- Doubled separators, whatever the table -----

  predicate InOrder(keys: seq<Key>)
  {
    forall i, j :: 0 <= i < j < |keys| ==> Less(keys[i], keys[j])
  }

  /** The rows of t0 are split at the i-th key: the rows before it, and the others. */
  ghost predicate SplitAt(t0: Rows, keys: seq<Key>, i: nat, before: Rows, after: Rows)
  {
    && i <= |keys|
    && before + after == t0
    && (forall x :: x in after <==> x in keys[i..])
    && AllEarlier(before, after)
  }

  ghost predicate AllEarlier(before: Rows, after: Rows)
  {
    forall x, y :: x in before && y in after ==> Less(x, y)
  }

  lemma {:induction false} OneMoreSepIsLater(x: Key)
    ensures Less(x, [SEP] + x)
  {
    if x != [] && x[0] == SEP {
      assert ([SEP] + x)[1..] == x && x == [SEP] + x[1..];
      OneMoreSepIsLater(x[1..]);
    }
  }

  /** A key is moved to an earlier one, so the sweep does not come across it again. */
  lemma FixIsEarlier(k: Key)
    requires Moves(DoubleSep, k)
    ensures Less(Fix(DoubleSep, k), k)
  {
    hide *;
    var i := DoubleSepFix(k);
    var a, x := k[..i], k[i + 1..];
    OneMoreSepIsLater(x);
    LessAfterCommonPrefix(a, x, [SEP] + x);
    AroundSep(k, i);
  }

  lemma AroundSep(k: Key, i: nat)
    requires i < |k| && k[i] == SEP
    ensures k == k[..i] + ([SEP] + k[i + 1..])
  {
  }

  lemma RepairedWithKept(r: Repair, t: Rows, k: Key, v: seq<Byte>)
    requires !Moves(r, k) && k !in t && !MovedTo(r, t, k)
    ensures Repaired(r, t[k := v]) == Repaired(r, t)[k := v]
  {
    hide Fix, Unfix, Moves, Targets, Repaired;
    forall x: Key ensures x in Repaired(r, t[k := v]) <==> x in Repaired(r, t) || x == k {
      RepairedKeys(r, t[k := v], x);
      RepairedKeys(r, t, x);
      assert MovedTo(r, t[k := v], x) <==> MovedTo(r, t, x);
    }
  }

  lemma RepairedWithMoved(r: Repair, t: Rows, k: Key, v: seq<Byte>)
    requires Moves(r, k) && k !in t
    ensures Repaired(r, t[k := v]) == Repaired(r, t)[Fix(r, k) := v]
  {
    hide Fix, Unfix, Moves, Targets, Repaired;
    UnfixFix(r, k);
    forall x: Key ensures x in Repaired(r, t[k := v]) <==> x in Repaired(r, t) || x == Fix(r, k) {
      RepairedKeys(r, t[k := v], x);
      RepairedKeys(r, t, x);
      if x != Fix(r, k) { assert MovedTo(r, t[k := v], x) <==> MovedTo(r, t, x); }
    }
  }

  lemma SplitStart(t: Rows, keys: seq<Key>)
    requires SnapshotOf(keys, t)
    ensures SplitAt(t, keys, 0, map[], t) && Repaired(DoubleSep, map[]) + t == t
  {
    assert keys[0..] == keys;
    var none: Rows := map[];
    assert Repaired(DoubleSep, none) == map[];
  }

  lemma SplitEnd(t0: Rows, keys: seq<Key>, before: Rows, after: Rows)
    requires SplitAt(t0, keys, |keys|, before, after)
    ensures after == map[] && before == t0
  {
    assert forall x :: x !in after;
  }

  lemma SplitNext(t0: Rows, keys: seq<Key>, i: nat, before: Rows, after: Rows)
    requires SnapshotOf(keys, t0) && InOrder(keys) && i < |keys| && SplitAt(t0, keys, i, before, after)
    ensures keys[i] in after && after[keys[i]] == t0[keys[i]]
    ensures forall y :: y in after - {keys[i]} ==> Less(keys[i], y)
    ensures SplitAt(t0, keys, i + 1, before[keys[i] := t0[keys[i]]], after - {keys[i]})
  {
    hide InOrder, AllEarlier, SnapshotOf;
    var k, rest := keys[i], keys[i + 1..];
    assert keys[i..] == [k] + rest;
    LaterIsGreater(keys, i);
    assert k in after;
    assert forall y :: y in after - {k} <==> y in rest;
    PassOneRow(t0, before, after, k);
    EarlierWithNext(before, after, k, t0[k]);
  }

  lemma PassOneRow(t0: Rows, before: Rows, after: Rows, k: Key)
    requires before + after == t0 && k in after
    ensures after[k] == t0[k] && before[k := t0[k]] + (after - {k}) == t0
  {
  }

  lemma EarlierWithNext(before: Rows, after: Rows, k: Key, v: seq<Byte>)
    requires AllEarlier(before, after) && forall y :: y in after - {k} ==> Less(k, y)
    ensures AllEarlier(before[k := v], after - {k})
  {
  }

  lemma LaterIsGreater(keys: seq<Key>, i: nat)
    requires InOrder(keys) && i < |keys|
    ensures forall y :: y in keys[i + 1..] ==> Less(keys[i], y)
    ensures keys[i] !in keys[i + 1..]
  {
    LessIrreflexive(keys[i]);
  }

  /** The next key is not where an earlier one was moved to. */
  lemma NextIsNew(before: Rows, after: Rows, k: Key)
    requires AllEarlier(before, after) && k in after
    ensures k !in before && !MovedTo(DoubleSep, before, k)
  {
    hide Fix, Unfix, Moves;
    LessIrreflexive(k);
    if MovedTo(DoubleSep, before, k) {
      var b := Unfix(DoubleSep, k);
      FixIsEarlier(b);
      assert Less(b, k);
      LessTransitive(b, k, b);
      LessIrreflexive(b);
    }
  }

  lemma PassOver(before: Rows, after: Rows, k: Key, v: seq<Byte>)
    requires AllEarlier(before, after) && k in after && after[k] == v && !Moves(DoubleSep, k)
    ensures Repaired(DoubleSep, before[k := v]) + (after - {k}) == Repaired(DoubleSep, before) + after
  {
    hide Moves, Repaired, MovedTo, AllEarlier;
    NextIsNew(before, after, k);
    RepairedWithKept(DoubleSep, before, k, v);
  }

  lemma MoveOne(before: Rows, after: Rows, k: Key, v: seq<Byte>)
    requires AllEarlier(before, after) && k in after && Moves(DoubleSep, k)
    requires forall y :: y in after - {k} ==> Less(k, y)
    ensures Repaired(DoubleSep, before[k := v]) + (after - {k})
         == (Repaired(DoubleSep, before) + after - {k})[Fix(DoubleSep, k) := v]
  {
    hide Moves, Repaired, MovedTo, AllEarlier, Fix;
    var f := Fix(DoubleSep, k);
    NextIsNew(before, after, k);
    RepairedWithMoved(DoubleSep, before, k, v);
    RepairedKeys(DoubleSep, before, k);
    FixIsEarlier(k);
    if f in after - {k} {
      LessTransitive(f, k, f);
    }
    LessIrreflexive(f);
  }

  class Table {
    var data: Rows
    var writes: nat

    constructor (data: Rows)
      ensures this.data == data && writes == 0
    {
      this.data, writes := data, 0;
    }

    method Insert(k: Key, v: seq<Byte>)
      modifies this
      ensures data == old(data)[k := v] && writes == old(writes) + 1
    {
      data, writes := data[k := v], writes + 1;
    }

    method Remove(k: Key)
      modifies this
      ensures data == old(data) - {k} && writes == old(writes) + 1
    {
      data, writes := data - {k}, writes + 1;
    }

    /** The sweep over keys without a separator, cut off after `cut` of its writes, if it
        gets that far. Whatever the cut, the table is still repaired to the same table;
        uncut and without a panic it is that table. A debug build panics on any value that
        is not empty. */
    method FixMissingSep(debug: bool, keys: seq<Key>, cut: nat) returns (done: bool)
      requires SnapshotOf(keys, data)
      modifies this
      ensures Left(MissingSep, old(data), data)
      ensures done ==> data == Repaired(MissingSep, old(data))
      ensures old(writes) <= writes <= old(writes) + cut
      ensures !done ==> writes == old(writes) + cut || !NoPanic(debug, MissingSep, old(data))
      ensures done ==> NoPanic(debug, MissingSep, old(data))
      ensures NoPanic(debug, MissingSep, old(data)) && cut >= 2 * |keys| ==> done
    {
      hide Moves, Fix, Broken, Fatal, Repaired, Swept, Left, NoPanic, NoPanicBefore, SnapshotOf, Stable;
      var snapshot := data;
      NothingPassed(debug, MissingSep, snapshot, keys);
      var start := writes;
      MissingSepSettles(snapshot);
      SweptNone(MissingSep, snapshot, keys);
      for i := 0 to |keys|
        invariant Swept(MissingSep, snapshot, keys, i, data)
        invariant start <= writes <= start + 2 * i && writes <= start + cut
        invariant NoPanicBefore(debug, MissingSep, snapshot, keys, i)
      {
        var key := keys[i];
        MovesWhen(MissingSep, key);
        IsInSnapshot(snapshot, keys, i);
        SweptIsLeft(MissingSep, snapshot, keys, i, data);
        PanicsOn(debug, MissingSep, snapshot, key);
        PassedOne(debug, MissingSep, snapshot, keys, i);
        if debug && snapshot[key] != [] { return false; }
        if Broken(MissingSep, key) {
          if Fatal(MissingSep, key) { return false; }
          SweptMove(MissingSep, snapshot, keys, i, data);
          SweptHalfMove(snapshot, keys, i, data);
          if writes == start + cut { return false; }
          Insert(Fix(MissingSep, key), snapshot[key]);
          if writes == start + cut { return false; }
          Remove(key);
        } else {
          FatalIsBroken(key);
          SweptSkip(MissingSep, snapshot, keys, i, data);
        }
      }
      SweptIsLeft(MissingSep, snapshot, keys, |keys|, data);
      SweptAll(MissingSep, snapshot, keys, data);
      PanicsOnNone(debug, MissingSep, snapshot, keys);
      done := true;
    }

    /** The sweep over keys with a doubled separator, cut off after `cut` of its writes, two
        for each key it moves; `torn` says whether the cut came between the two. Whatever
        the table and the cut, the rows of the keys walked are repaired and the others are
        as they were, and a torn table misses the row of one key. If one repair is enough
        for each key, a table that is not torn is still repaired to the same table. */
    method FixDoubleSep(keys: seq<Key>, cut: nat) returns (done: bool, torn: bool)
      requires SnapshotOf(keys, data) && InOrder(keys)
      modifies this
      ensures exists n, before, after :: PartlySwept(old(data), keys, n, before, after, data, torn)
      ensures Stable(DoubleSep, old(data)) && !torn ==> Left(DoubleSep, old(data), data)
      ensures Stable(DoubleSep, old(data)) && torn ==> exists b :: BetweenWrites(old(data), data, b)
      ensures done ==> data == Repaired(DoubleSep, old(data)) && !torn
      ensures old(writes) <= writes <= old(writes) + cut && (writes - old(writes)) % 2 == if torn then 1 else 0
      ensures !done ==> writes == old(writes) + cut || !NoPanic(false, DoubleSep, old(data))
      ensures torn ==> writes == old(writes) + cut
      ensures done ==> NoPanic(false, DoubleSep, old(data))
      ensures NoPanic(false, DoubleSep, old(data)) && cut >= 2 * |keys| ==> done
    {
      hide Moves, Fix, Broken, Fatal, Repaired, DoubleSwept, Stable, InOrder, SnapshotOf, Left, BetweenWrites;
      hide PartlySwept, NoPanic, NoPanicBefore;
      var snapshot := data;
      NothingPassed(false, DoubleSep, snapshot, keys);
      ghost var before: Rows, after := map[], snapshot;
      var start := writes;
      DoubleSweptNone(snapshot, keys);
      torn := false;
      ghost var moves := 0;
      for i := 0 to |keys|
        invariant DoubleSwept(snapshot, keys, i, data, before, after)
        invariant moves <= i && !torn && writes == start + 2 * moves && writes <= start + cut
        invariant NoPanicBefore(false, DoubleSep, snapshot, keys, i)
      {
        var key := keys[i];
        MovesWhen(DoubleSep, key);
        IsInSnapshot(snapshot, keys, i);
        PanicsOn(false, DoubleSep, snapshot, key);
        PassedOne(false, DoubleSep, snapshot, keys, i);
        DoubleSweptIsLeft(snapshot, keys, i, data, before, after);
        if Fatal(DoubleSep, key) { return false, false; }
        if Broken(DoubleSep, key) {
          DoubleSweptMove(snapshot, keys, i, data, before, after);
          if writes == start + cut { return false, false; }
          Remove(key);
          if writes == start + cut { return false, true; }
          Insert(Fix(DoubleSep, key), snapshot[key]);
          moves := moves + 1;
        } else {
          DoubleSweptSkip(snapshot, keys, i, data, before, after);
        }
        before, after := before[key := snapshot[key]], after - {key};
      }
      DoubleSweptIsLeft(snapshot, keys, |keys|, data, before, after);
      DoubleSweptAll(snapshot, keys, data, before, after);
      PanicsOnNone(false, DoubleSep, snapshot, keys);
      done := true;
    }
  }

  /** The rows before the n-th key are repaired, the others are as they were, but for the
      row of the n-th key if the sweep was torn there. */
  ghost predicate PartlySwept(t0: Rows, keys: seq<Key>, n: nat, before: Rows, after: Rows, t: Rows, torn: bool)
  {
    && SplitAt(t0, keys, n, before, after)
    && if torn then n < |keys| && Moves(DoubleSep, keys[n]) && t == (Repaired(DoubleSep, before) + after) - {keys[n]}
       else t == Repaired(DoubleSep, before) + after
  }

  /** The sweep of doubled separators has dealt with the rows before the i-th key. */
  ghost predicate DoubleSwept(t0: Rows, keys: seq<Key>, i: nat, t: Rows, before: Rows, after: Rows)
  {
    && (Stable(DoubleSep, t0) ==> Swept(DoubleSep, t0, keys, i, t))
    && SplitAt(t0, keys, i, before, after)
    && t == Repaired(DoubleSep, before) + after
  }

  lemma DoubleSweptNone(t: Rows, keys: seq<Key>)
    requires SnapshotOf(keys, t)
    ensures DoubleSwept(t, keys, 0, t, map[], t)
  {
    hide Stable, Swept, SplitAt, Repaired, SnapshotOf;
    if Stable(DoubleSep, t) { SweptNone(DoubleSep, t, keys); }
    SplitStart(t, keys);
  }

  lemma DoubleSweptIsLeft(t0: Rows, keys: seq<Key>, i: nat, t: Rows, before: Rows, after: Rows)
    requires SnapshotOf(keys, t0) && DoubleSwept(t0, keys, i, t, before, after)
    ensures Stable(DoubleSep, t0) ==> Left(DoubleSep, t0, t)
    ensures PartlySwept(t0, keys, i, before, after, t, false)
  {
    hide Stable, Swept, SplitAt, Repaired, SnapshotOf, Left;
    if Stable(DoubleSep, t0) { SweptIsLeft(DoubleSep, t0, keys, i, t); }
  }

  lemma DoubleSweptSkip(t0: Rows, keys: seq<Key>, i: nat, t: Rows, before: Rows, after: Rows)
    requires SnapshotOf(keys, t0) && InOrder(keys) && i < |keys| && keys[i] in t0 && !Moves(DoubleSep, keys[i])
    requires DoubleSwept(t0, keys, i, t, before, after)
    ensures DoubleSwept(t0, keys, i + 1, t, before[keys[i] := t0[keys[i]]], after - {keys[i]})
  {
    hide Stable, Swept, SplitAt, Repaired, SnapshotOf, InOrder, AllEarlier, Moves;
    SplitIsOrdered(t0, keys, i, before, after);
    SplitNext(t0, keys, i, before, after);
    if Stable(DoubleSep, t0) { SweptSkip(DoubleSep, t0, keys, i, t); }
    PassOver(before, after, keys[i], t0[keys[i]]);
  }

  lemma DoubleSweptMove(t0: Rows, keys: seq<Key>, i: nat, t: Rows, before: Rows, after: Rows)
    requires SnapshotOf(keys, t0) && InOrder(keys) && i < |keys| && keys[i] in t0 && Moves(DoubleSep, keys[i])
    requires DoubleSwept(t0, keys, i, t, before, after)
    ensures
      var k, v := keys[i], t0[keys[i]];
      && (Stable(DoubleSep, t0) ==> BetweenWrites(t0, t - {k}, k))
      && PartlySwept(t0, keys, i, before, after, t - {k}, true)
      && DoubleSwept(t0, keys, i + 1, (t - {k})[Fix(DoubleSep, k) := v], before[k := v], after - {k})
  {
    hide Stable, Swept, SplitAt, Repaired, SnapshotOf, InOrder, AllEarlier, Moves, Fix, BetweenWrites;
    SplitIsOrdered(t0, keys, i, before, after);
    SplitNext(t0, keys, i, before, after);
    MoveOne(before, after, keys[i], t0[keys[i]]);
    MoveAtOnce(DoubleSep, t, keys[i], t0[keys[i]]);
    if Stable(DoubleSep, t0) {
      SweptMove(DoubleSep, t0, keys, i, t);
      RemovedNotMoved(t0, keys, i, t);
    }
  }

  lemma DoubleSweptAll(t0: Rows, keys: seq<Key>, t: Rows, before: Rows, after: Rows)
    requires SnapshotOf(keys, t0) && DoubleSwept(t0, keys, |keys|, t, before, after)
    ensures t == Repaired(DoubleSep, t0)
    ensures Stable(DoubleSep, t0) ==> Left(DoubleSep, t0, t)
  {
    hide Stable, Swept, SplitAt, Repaired, SnapshotOf, Left;
    SplitEnd(t0, keys, before, after);
    DoubleSweptIsLeft(t0, keys, |keys|, t, before, after);
  }

  /** The missing-separator sweep between the two writes of a key. */
  lemma SweptHalfMove(t0: Rows, keys: seq<Key>, i: nat, t: Rows)
    requires SnapshotOf(keys, t0) && i < |keys| && Swept(MissingSep, t0, keys, i, t) && Moves(MissingSep, keys[i])
    ensures Left(MissingSep, t0, t[Fix(MissingSep, keys[i]) := t0[keys[i]]])
  {
    hide Moves, Fix, Repaired, Stable;
    var f := Fix(MissingSep, keys[i]);
    SweptMove(MissingSep, t0, keys, i, t);
    SweptIsLeft(MissingSep, t0, keys, i, t);
    MissingSepSettles(t);
    MissingSepSettles(t[f := t0[keys[i]]]);
    MovedOnce(keys[i]);
  }

  lemma MovedOnce(k: Key)
    requires Moves(MissingSep, k)
    ensures !Moves(MissingSep, Fix(MissingSep, k))
  {
    assert Fix(MissingSep, k)[FirstDollar(k)] == SEP;
  }

  lemma FatalIsBroken(k: Key)
    requires !Broken(MissingSep, k)
    ensures !Fatal(MissingSep, k)
  {
  }

  lemma PanicsOn(debug: bool, r: Repair, t: Rows, k: Key)
    requires k in t
    ensures Fatal(r, k) || (r.MissingSep? && debug && t[k] != []) ==> !NoPanic(debug, r, t)
  {
  }

  /** None of the first i keys made the sweep panic. */
  ghost predicate NoPanicBefore(debug: bool, r: Repair, t: Rows, keys: seq<Key>, i: nat)
  {
    forall j :: 0 <= j < i && j < |keys| ==>
      keys[j] in t && !Fatal(r, keys[j]) && (r.MissingSep? && debug ==> t[keys[j]] == [])
  }

  lemma NothingPassed(debug: bool, r: Repair, t: Rows, keys: seq<Key>)
    ensures NoPanicBefore(debug, r, t, keys, 0)
  {
  }

  lemma PassedOne(debug: bool, r: Repair, t: Rows, keys: seq<Key>, i: nat)
    requires i < |keys| && keys[i] in t && NoPanicBefore(debug, r, t, keys, i)
    ensures !Fatal(r, keys[i]) && (r.MissingSep? && debug ==> t[keys[i]] == []) ==>
      NoPanicBefore(debug, r, t, keys, i + 1)
  {
    hide Fatal;
  }

  lemma PanicsOnNone(debug: bool, r: Repair, t: Rows, keys: seq<Key>)
    requires SnapshotOf(keys, t) && NoPanicBefore(debug, r, t, keys, |keys|)
    ensures NoPanic(debug, r, t)
  {
    forall k | k in t ensures !Fatal(r, k) && (r.MissingSep? && debug ==> t[k] == []) {
      var j :| 0 <= j < |keys| && keys[j] == k;
    }
  }

  /** The sweep panics on no row of t. The one for doubled separators expects a separator in
      every key; the other one expects a key without one to be text with a '$', and in a
      debug build every value to be empty. */
  predicate NoPanic(debug: bool, r: Repair, t: Rows)
  {
    match r
    case DoubleSep => forall k :: k in t ==> SEP in k
    case MissingSep => forall k :: k in t ==> (SEP in k || (Utf8(k) && DOLLAR in k)) && (debug ==> t[k] == [])
  }

  /** A sweep of t0 was cut off between the remove and the insert of the broken key b. */
  ghost predicate BetweenWrites(t0: Rows, t: Rows, b: Key)
  {
    b in t0 && b !in t && Moves(DoubleSep, b) && Left(DoubleSep, t0, t[b := t0[b]])
  }

  lemma RemovedNotMoved(t0: Rows, keys: seq<Key>, i: nat, t: Rows)
    requires SnapshotOf(keys, t0) && i < |keys| && Swept(DoubleSep, t0, keys, i, t) && Moves(DoubleSep, keys[i])
    ensures BetweenWrites(t0, t - {keys[i]}, keys[i])
  {
    hide Moves, Repaired, Left;
    var b := keys[i];
    SweptIsLeft(DoubleSep, t0, keys, i, t);
    assert b in t && t[b] == t0[b];
    assert (t - {b})[b := t0[b]] == t;
  }

  /** What a cut between the two writes of b costs: the table is repaired to something
      else, unless the repaired key was there already with the value of b. */
  lemma LostBetweenWrites(t0: Rows, t: Rows, b: Key)
    requires BetweenWrites(t0, t, b)
    ensures Repaired(DoubleSep, t) == Repaired(DoubleSep, t0)
       <==> Fix(DoubleSep, b) in t && t[Fix(DoubleSep, b)] == t0[b]
  {
    hide Moves, Repaired, Fix;
    var whole := t[b := t0[b]];
    assert whole - {b} == t;
    CutBetweenRemoveAndInsert(DoubleSep, whole, b);
    UnfixFix(DoubleSep, b);
  }

  /** What the torn table is repaired to differs at one key at most. */
  lemma TornRepair(t0: Rows, t: Rows, b: Key, k: Key)
    requires BetweenWrites(t0, t, b) && k != Fix(DoubleSep, b)
    ensures SameAt(Repaired(DoubleSep, t), Repaired(DoubleSep, t0), k)
  {
    hide Moves, Repaired, Fix, Unfix, Left;
    LeftMeans(t0, t[b := t0[b]]);
    RemovedElsewhere(t[b := t0[b]], b, k);
    assert t[b := t0[b]] - {b} == t;
  }

  lemma LeftMeans(t0: Rows, t: Rows)
    requires Left(DoubleSep, t0, t)
    ensures Stable(DoubleSep, t) && Repaired(DoubleSep, t) == Repaired(DoubleSep, t0)
    ensures forall k :: k in t && Moves(DoubleSep, k) ==> k in t0
  {
    hide Moves, Repaired, Stable;
  }

  lemma TornIsStable(t0: Rows, t: Rows, b: Key)
    requires BetweenWrites(t0, t, b)
    ensures Stable(DoubleSep, t)
  {
    hide Moves, Repaired, Left, Settles;
    LeftMeans(t0, t[b := t0[b]]);
    assert forall k :: k in t ==> k in t[b := t0[b]];
  }

  /** A torn move of another key changes nothing about the repaired key of b, and does not
      bring b back. */
  lemma TornElsewhere(t0: Rows, t: Rows, other: Key, b: Key)
    requires BetweenWrites(t0, t, other) && Moves(DoubleSep, b) && b !in t0
    ensures SameAt(Repaired(DoubleSep, t), Repaired(DoubleSep, t0), Fix(DoubleSep, b)) && b !in t
  {
    hide Moves, Repaired, Fix, Unfix, Left;
    UnfixFix(DoubleSep, b);
    UnfixFix(DoubleSep, other);
    LeftMeans(t0, t[other := t0[other]]);
    TornRepair(t0, t, other, Fix(DoubleSep, b));
  }

  /** A torn move that loses a row changes the repaired table at the repaired key. */
  lemma TornLoses(t0: Rows, t: Rows, b: Key)
    requires BetweenWrites(t0, t, b)
    ensures Moves(DoubleSep, b) && b !in t && b in t0
    ensures
      var f := Fix(DoubleSep, b);
      SameAt(Repaired(DoubleSep, t), Repaired(DoubleSep, t0), f) <==> f in t && t[f] == t0[b]
  {
    hide Moves, Repaired, Fix, Unfix, Left;
    LostBetweenWrites(t0, t, b);
    forall k | k != Fix(DoubleSep, b) ensures SameAt(Repaired(DoubleSep, t), Repaired(DoubleSep, t0), k) {
      TornRepair(t0, t, b, k);
    }
    if SameAt(Repaired(DoubleSep, t), Repaired(DoubleSep, t0), Fix(DoubleSep, b)) {
      assert Repaired(DoubleSep, t) == Repaired(DoubleSep, t0) by {
        forall k ensures k in Repaired(DoubleSep, t) <==> k in Repaired(DoubleSep, t0) {
          assert SameAt(Repaired(DoubleSep, t), Repaired(DoubleSep, t0), k);
        }
        assert forall k :: k in Repaired(DoubleSep, t) ==> SameAt(Repaired(DoubleSep, t), Repaired(DoubleSep, t0), k);
      }
    }
  }

  /** Both tables have the same row under k, or none. */
  predicate SameAt(t: Rows, t': Rows, k: Key)
  {
    (k in t <==> k in t') && (k in t ==> t[k] == t'[k])
  }

  lemma RemovedElsewhere(t: Rows, b: Key, k: Key)
    requires b in t && Moves(DoubleSep, b) && k != Fix(DoubleSep, b)
    ensures SameAt(Repaired(DoubleSep, t - {b}), Repaired(DoubleSep, t), k)
  {
    hide Moves, Fix, Unfix, Targets, Repaired;
    RepairedKeys(DoubleSep, t, k);
    RepairedKeys(DoubleSep, t - {b}, k);
    assert MovedTo(DoubleSep, t - {b}, k) <==> MovedTo(DoubleSep, t, k);
    RepairedValue(DoubleSep, t, k);
    RepairedValue(DoubleSep, t - {b}, k);
  }

  lemma RepairedValue(r: Repair, t: Rows, k: Key)
    ensures k in Repaired(r, t) ==>
      Kept(r, t, k) && Repaired(r, t)[k] == if MovedTo(r, t, k) then t[Unfix(r, k)] else t[k]
  {
  }

  /** A key with a doubled separator. */
  const DOUBLED: Key := [1, SEP, SEP, 2]

  /** A crash between the two writes of one key: the row is lost. */
  lemma LostRow()
    ensures
      var t0: Rows := map[DOUBLED := []];
      BetweenWrites(t0, map[], DOUBLED) && Repaired(DoubleSep, map[]) != Repaired(DoubleSep, t0)
  {
    var t0: Rows, none: Rows := map[DOUBLED := []], map[];
    DoubledMoves();
    assert none[DOUBLED := t0[DOUBLED]] == t0;
    LostBetweenWrites(t0, none, DOUBLED);
  }

  lemma DoubledMoves()
    ensures Moves(DoubleSep, DOUBLED) && Settles(DoubleSep, DOUBLED)
  {
    RecordEndAt(DOUBLED, 0, 1);
    DoubleSepSettles(DOUBLED);
  }

  /** A key with a tripled separator. */
  const TRIPLED: Key := [1, SEP, SEP, SEP, 2]

  lemma TripledMoves()
    ensures Moves(DoubleSep, TRIPLED) && Fix(DoubleSep, TRIPLED) == DOUBLED
  {
    RecordEndAt(TRIPLED, 0, 1);
    assert TRIPLED[..1] + TRIPLED[2..] == DOUBLED;
  }

  /** One repair of a tripled separator leaves a doubled one, so repairing twice is not
      repairing once. */
  lemma TripledSeparator()
    ensures
      var t: Rows := map[TRIPLED := []];
      && Fix(DoubleSep, TRIPLED) == DOUBLED && Moves(DoubleSep, DOUBLED)
      && Repaired(DoubleSep, Repaired(DoubleSep, t)) != Repaired(DoubleSep, t)
  {
    hide Moves, Fix, Repaired;
    var t: Rows := map[TRIPLED := []];
    TripledMoves();
    DoubledMoves();
    assert TRIPLED in t && !Settles(DoubleSep, TRIPLED);
    RepairIsIdempotent(DoubleSep, t);
  }

  lemma IsInSnapshot(t: Rows, keys: seq<Key>, i: nat)
    requires SnapshotOf(keys, t) && i < |keys|
    ensures keys[i] in t
  {
  }

  lemma SplitIsOrdered(t0: Rows, keys: seq<Key>, i: nat, before: Rows, after: Rows)
    requires SplitAt(t0, keys, i, before, after)
    ensures AllEarlier(before, after)
  {
  }

  lemma SweptIsLeft(r: Repair, t0: Rows, keys: seq<Key>, i: nat, t: Rows)
    requires SnapshotOf(keys, t0) && Swept(r, t0, keys, i, t)
    ensures Left(r, t0, t)
  {
    hide Moves, Repaired;
  }

  lemma MovesWhen(r: Repair, k: Key)
    ensures Moves(r, k) == (Broken(r, k) && !Fatal(r, k))
  {
  }

  lemma MoveAtOnce(r: Repair, t: Rows, b: Key, v: seq<Byte>)
    requires Moves(r, b)
    ensures (t - {b})[Fix(r, b) := v] == t[Fix(r, b) := v] - {b}
  {
    hide Fix, Moves, Unfix;
    UnfixFix(r, b);
  }

  // ----- What is moved, and where to -----

  /** k is broken between a and b: it has no separator and is text that has its first '$' at
      the beginning of b, or its first separator, after a, is doubled. */
  predicate BrokenBetween(r: Repair, k: Key, a: Key, b: Key)
  {
    match r
    case MissingSep => k == a + b && SEP !in k && Utf8(k) && DOLLAR !in a && b != [] && b[0] == DOLLAR
    case DoubleSep => k == a + [SEP, SEP] + b && SEP !in a
  }

  lemma FixBetween(r: Repair, k: Key, a: Key, b: Key)
    requires BrokenBetween(r, k, a, b)
    ensures Moves(r, k) && Fix(r, k) == a + [SEP] + b
  {
    hide Utf8, FirstDollar, RecordEnd;
    assert k[0..|a|] == a && k[..|a|] == a;
    match r {
      case MissingSep =>
        FirstDollarAt(k, |a|);
        assert k[|a|..] == b && DOLLAR in k;
      case DoubleSep =>
        RecordEndAt(k, 0, |a|);
        assert k[|a| + 1..] == [SEP] + b;
    }
  }

  lemma BrokenSomewhere(r: Repair, k: Key) returns (a: Key, b: Key)
    requires Moves(r, k)
    ensures BrokenBetween(r, k, a, b)
  {
    match r {
      case MissingSep => a, b := k[..FirstDollar(k)], k[FirstDollar(k)..];
      case DoubleSep =>
        var i := RecordEnd(k, 0);
        assert i + 1 < |k| && k[i] == SEP && k[i + 1] == SEP && SEP !in k[0..i];
        hide *;
        a, b := k[0..i], k[i + 2..];
        AroundTwo(k, i);
    }
  }

  lemma AroundTwo(k: Key, i: nat)
    requires i + 1 < |k| && k[i] == SEP && k[i + 1] == SEP && SEP !in k[0..i]
    ensures BrokenBetween(DoubleSep, k, k[0..i], k[i + 2..])
  {
    assert k == k[0..i] + [SEP, SEP] + k[i + 2..];
  }

  /** A key is moved if and only if it is broken somewhere, and then to the key with one
      separator there. */
  lemma MovesIff(r: Repair, k: Key)
    ensures Moves(r, k) <==> exists a, b :: BrokenBetween(r, k, a, b)
    ensures forall a, b :: BrokenBetween(r, k, a, b) ==> Fix(r, k) == a + [SEP] + b
  {
    hide Moves, Fix, BrokenBetween;
    if Moves(r, k) { var _, _ := BrokenSomewhere(r, k); }
    forall a, b | BrokenBetween(r, k, a, b) ensures Moves(r, k) && Fix(r, k) == a + [SEP] + b {
      FixBetween(r, k, a, b);
    }
  }

  // ----- Keys as pairs -----

  /** The key of a pair in the codec's format. */
  function PairKey(room: Key, other: Key): Key
  {
    EncodeTuple([Str(room), Str(other)])
  }

  /** The key that old versions wrote for a pair. */
  function LegacyKey(r: Repair, room: Key, other: Key): Key
  {
    match r
    case MissingSep => room + other
    case DoubleSep => room + [SEP, SEP] + other
  }

  /** The pairs a table is about: rooms and events for the first sweep, rooms and users
      for the second. */
  predicate IsPair(r: Repair, room: Key, other: Key)
  {
    Utf8(room) && Utf8(other) && (r.MissingSep? ==> DOLLAR !in room && other != [] && other[0] == DOLLAR)
  }

  /** A pair is two texts; an event begins with the first '$'. */
  lemma PairsAreTexts(room: Key, other: Key)
    ensures IsPair(DoubleSep, room, other) <==>
      (exists text :: TextBytes(text) == room) && (exists text :: TextBytes(text) == other)
    ensures IsPair(MissingSep, room, other) <==>
      IsPair(DoubleSep, room, other) && DOLLAR !in room && other != [] && other[0] == DOLLAR
  {
    Utf8Iff(room);
    Utf8Iff(other);
  }

  lemma PairKeyIs(room: Key, other: Key)
    ensures PairKey(room, other) == room + [SEP] + other
  {
    assert EncodeTuple([Str(other)]) == other;
    assert [Str(room), Str(other)][1..] == [Str(other)];
  }

  lemma {:induction false} FirstDollarAt(k: Key, i: nat)
    requires i < |k| && k[i] == DOLLAR && DOLLAR !in k[..i]
    ensures FirstDollar(k) == i
  {
    if i > 0 {
      assert k[0] == k[..i][0];
      assert k[1..][..i - 1] == k[..i][1..];
      FirstDollarAt(k[1..], i - 1);
    }
  }

  /** The encoding of a pair: where its separator is. */
  lemma PairKeyParts(room: Key, other: Key)
    requires Utf8(room) && Utf8(other)
    ensures PairKey(room, other) == room + [SEP] + other
    ensures RecordEnd(PairKey(room, other), 0) == |room| && SEP !in other
  {
    var key := PairKey(room, other);
    PairKeyIs(room, other);
    Utf8HasNoSep(room);
    Utf8HasNoSep(other);
    assert key[0..|room|] == room;
    RecordEndAt(key, 0, |room|);
  }

  lemma MissingSepOfPair(room: Key, other: Key)
    requires IsPair(MissingSep, room, other)
    ensures Moves(MissingSep, room + other)
    ensures Fix(MissingSep, room + other) == room + [SEP] + other
  {
    Utf8HasNoSep(room);
    Utf8HasNoSep(other);
    Utf8Joined(room, other);
    var legacy := room + other;
    assert legacy[..|room|] == room && legacy[|room|..] == other;
    FirstDollarAt(legacy, |room|);
  }

  lemma DoubleSepOfPair(room: Key, other: Key)
    requires IsPair(DoubleSep, room, other)
    ensures Moves(DoubleSep, room + [SEP, SEP] + other)
    ensures Fix(DoubleSep, room + [SEP, SEP] + other) == room + [SEP] + other
  {
    Utf8HasNoSep(room);
    var legacy := room + [SEP, SEP] + other;
    assert legacy[0..|room|] == room;
    RecordEndAt(legacy, 0, |room|);
    assert legacy[|room| + 1..] == [SEP] + other;
  }

  /** Each sweep turns the legacy key of a pair into its encoding, and leaves that alone. */
  lemma RepairAgreesWithCodec(r: Repair, room: Key, other: Key)
    requires IsPair(r, room, other)
    ensures Moves(r, LegacyKey(r, room, other))
    ensures Fix(r, LegacyKey(r, room, other)) == PairKey(room, other)
    ensures !Broken(r, PairKey(room, other)) && !Fatal(r, PairKey(room, other))
  {
    hide Moves, Fix, PairKey;
    PairKeyParts(room, other);
    match r {
      case MissingSep => MissingSepOfPair(room, other);
      case DoubleSep => DoubleSepOfPair(room, other);
    }
    assert PairKey(room, other)[|room|] == SEP;
    if other != [] { assert PairKey(room, other)[|room| + 1] == other[0]; }
  }

  /** Every key that the first sweep moves is the legacy key of a pair, whatever it is:
      the text before the first '$' and the text from there on. */
  lemma MovedKeyIsAPair(k: Key) returns (room: Key, event: Key)
    requires Moves(MissingSep, k)
    ensures IsPair(MissingSep, room, event) && k == LegacyKey(MissingSep, room, event)
  {
    var i := FirstDollar(k);
    assert Utf8(k) && i < |k| && k[i] == DOLLAR && DOLLAR !in k[..i];
    hide *;
    room, event := k[..i], k[i..];
    Utf8SplitAtAscii(k, i);
    AtDollar(k, i);
  }

  lemma AtDollar(k: Key, i: nat)
    requires i < |k| && k[i] == DOLLAR && DOLLAR !in k[..i] && Utf8(k[..i]) && Utf8(k[i..])
    ensures IsPair(MissingSep, k[..i], k[i..]) && k == LegacyKey(MissingSep, k[..i], k[i..])
  {
    hide Utf8;
  }

  /** What the sweep makes of a legacy key, the deserializer reads as the pair. */
  lemma RepairedKeyIsRead(debug: bool, r: Repair, room: Key, other: Key)
    requires IsPair(r, room, other)
    ensures De.TupleFrom(debug, [KStr, KStr], Fix(r, LegacyKey(r, room, other))) == De.Ok([Str(room), Str(other)])
  {
    hide Fix, LegacyKey, Moves, Broken, Fatal, De.TupleFrom;
    RepairAgreesWithCodec(r, room, other);
    Codec.RoundTrip(debug, [KStr, KStr], [Str(room), Str(other)]);
  }

  /** Every key of t is the legacy key or the encoding of some pair. */
  ghost predicate HoldsPairs(r: Repair, t: Rows)
  {
    forall k :: k in t ==> exists room, other :: StandsFor(r, k, room, other)
  }

  predicate StandsFor(r: Repair, k: Key, room: Key, other: Key)
  {
    IsPair(r, room, other) && (k == LegacyKey(r, room, other) || k == PairKey(room, other))
  }

  lemma PairsAreStable(r: Repair, t: Rows)
    requires HoldsPairs(r, t)
    ensures Stable(r, t) && forall k :: k in t ==> !Fatal(r, k)
  {
    hide StandsFor, Settles, Fatal;
    forall k | k in t ensures Settles(r, k) && !Fatal(r, k) {
      var room, other :| StandsFor(r, k, room, other);
      PairSettles(r, k, room, other);
    }
  }

  lemma PairSettles(r: Repair, k: Key, room: Key, other: Key)
    requires StandsFor(r, k, room, other)
    ensures Settles(r, k) && !Fatal(r, k)
  {
    hide Fix, LegacyKey, PairKey, IsPair, Broken, Fatal;
    RepairAgreesWithCodec(r, room, other);
    assert Moves(r, LegacyKey(r, room, other));
  }

  /** The sweep conserves the pairs: a pair is in the repaired table, under its encoding,
      if and only if it was in the table in either form. The value is the legacy one
      where there was one. */
  lemma PairIsConserved(r: Repair, t: Rows, room: Key, other: Key)
    requires HoldsPairs(r, t) && IsPair(r, room, other)
    ensures
      var key, legacy := PairKey(room, other), LegacyKey(r, room, other);
      && (key in Repaired(r, t) <==> legacy in t || key in t)
      && (key in Repaired(r, t) ==> Repaired(r, t)[key] == if legacy in t then t[legacy] else t[key])
  {
    hide Fix, Moves, Unfix, LegacyKey, PairKey, Broken, Fatal, Repaired, IsPair;
    MovesWhen(r, PairKey(room, other));
    RepairAgreesWithCodec(r, room, other);
    UnfixFix(r, LegacyKey(r, room, other));
    RepairedKeys(r, t, PairKey(room, other));
  }

  /** Nothing but encodings of pairs is left in the repaired table. */
  lemma OnlyPairsAreLeft(r: Repair, t: Rows, k: Key) returns (room: Key, other: Key)
    requires HoldsPairs(r, t) && k in Repaired(r, t)
    ensures IsPair(r, room, other) && k == PairKey(room, other)
  {
    hide Fix, Moves, Unfix, LegacyKey, PairKey, Broken, Fatal, Repaired, IsPair;
    RepairedKeys(r, t, k);
    var b := if MovedTo(r, t, k) then Unfix(r, k) else k;
    room, other :| StandsFor(r, b, room, other);
    MovesWhen(r, PairKey(room, other));
    RepairAgreesWithCodec(r, room, other);
  }
}
