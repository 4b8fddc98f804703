/** The sweep that deletes duplicate read receipts: it walks the keys (room, count, user) in
    order and deletes a key when the key before it had the same room and user. Counts
    ascend, so of two neighbours it keeps the older receipt and deletes the newer one. */
module Receipts {
  import opened Wrappers

  /** A key of the table. */
  datatype Receipt = Receipt(room: string, count: nat, user: string)

  /** The room and user that a receipt is about. */
  datatype RoomUser = RoomUser(room: string, user: string)

  function Pair(k: Receipt): RoomUser
  {
    RoomUser(k.room, k.user)
  }

  /** The key before the i-th one, in the original order, has the same room and user. */
  predicate IsDup(keys: seq<Receipt>, i: nat)
    requires i < |keys|
  {
    i > 0 && Pair(keys[i - 1]) == Pair(keys[i])
  }

  /** The keys that stay. */
  function Survivors(keys: seq<Receipt>): seq<Receipt>
  {
    if keys == [] then []
    else if IsDup(keys, |keys| - 1) then Survivors(keys[..|keys| - 1])
    else Survivors(keys[..|keys| - 1]) + [keys[|keys| - 1]]
  }

  /** The last of these keys is about room and user of k. */
  predicate EndsLike(keys: seq<Receipt>, k: Receipt)
  {
    keys != [] && Pair(keys[|keys| - 1]) == Pair(k)
  }

  lemma SurvivorsSnoc(keys: seq<Receipt>, k: Receipt)
    ensures Survivors(keys + [k]) == if EndsLike(keys, k) then Survivors(keys) else Survivors(keys) + [k]
  {
    assert (keys + [k])[..|keys|] == keys;
  }

  lemma SplitLast(keys: seq<Receipt>)
    requires keys != []
    ensures
      var front, k := keys[..|keys| - 1], keys[|keys| - 1];
      && keys == front + [k]
      && Survivors(keys) == if EndsLike(front, k) then Survivors(front) else Survivors(front) + [k]
  {
    SurvivorsSnoc(keys[..|keys| - 1], keys[|keys| - 1]);
  }

  /** The last survivor is about what the last key is about. */
  lemma {:induction false} LastSurvivor(keys: seq<Receipt>, k: Receipt)
    ensures EndsLike(Survivors(keys), k) <==> EndsLike(keys, k)
  {
    if keys != [] {
      var front, last := keys[..|keys| - 1], keys[|keys| - 1];
      SplitLast(keys);
      LastSurvivor(front, last);
    }
  }

  /** No two neighbours among the survivors share room and user. */
  lemma {:induction false} NeighboursDiffer(keys: seq<Receipt>)
    ensures forall i :: 0 < i < |Survivors(keys)| ==> Pair(Survivors(keys)[i - 1]) != Pair(Survivors(keys)[i])
    decreases |keys|
  {
    hide Survivors;
    if keys == [] {
      NothingSurvives();
    } else {
      var front, k := keys[..|keys| - 1], keys[|keys| - 1];
      SplitLast(keys);
      NeighboursDiffer(front);
      LastSurvivor(front, k);
    }
  }

  lemma NothingSurvives()
    ensures Survivors([]) == []
  {
  }

  lemma {:induction false} SweepIsIdempotent(keys: seq<Receipt>)
    ensures Survivors(Survivors(keys)) == Survivors(keys)
    decreases |keys|
  {
    hide Survivors;
    if keys == [] {
      NothingSurvives();
    } else {
      var front, k := keys[..|keys| - 1], keys[|keys| - 1];
      SplitLast(keys);
      SweepIsIdempotent(front);
      LastSurvivor(front, k);
      SurvivorsSnoc(Survivors(front), k);
    }
  }

  // ----- What the sweep achieves -----

  predicate About(keys: seq<Receipt>, p: RoomUser)
  {
    exists i :: 0 <= i < |keys| && Pair(keys[i]) == p
  }

  /** One receipt for each room and user. */
  predicate OnePerPair(keys: seq<Receipt>)
  {
    forall i, j :: 0 <= i < j < |keys| ==> Pair(keys[i]) != Pair(keys[j])
  }

  /** Nothing stands between two receipts for the same room and user but others for them. */
  predicate Contiguous(keys: seq<Receipt>)
  {
    forall i, j, l :: 0 <= i < j < l < |keys| && Pair(keys[i]) == Pair(keys[l]) ==> Pair(keys[j]) == Pair(keys[i])
  }

  lemma {:induction false} SurvivorsAbout(keys: seq<Receipt>, p: RoomUser)
    ensures About(Survivors(keys), p) <==> About(keys, p)
    decreases |keys|
  {
    if keys != [] {
      var front, k := keys[..|keys| - 1], keys[|keys| - 1];
      SplitLast(keys);
      SurvivorsAbout(front, p);
      AboutSnoc(front, k, p);
      AboutSnoc(Survivors(front), k, p);
      if EndsLike(front, k) { assert About(front, Pair(k)); }
    }
  }

  lemma AboutSnoc(keys: seq<Receipt>, k: Receipt, p: RoomUser)
    ensures About(keys + [k], p) <==> About(keys, p) || Pair(k) == p
  {
    if About(keys, p) {
      var i :| 0 <= i < |keys| && Pair(keys[i]) == p;
      assert Pair((keys + [k])[i]) == p;
    }
    assert (keys + [k])[|keys|] == k;
  }

  lemma OnePerPairSnoc(keys: seq<Receipt>, k: Receipt)
    ensures OnePerPair(keys + [k]) <==> OnePerPair(keys) && !About(keys, Pair(k))
  {
    var all := keys + [k];
    if OnePerPair(all) {
      forall i, j | 0 <= i < j < |keys| ensures Pair(keys[i]) != Pair(keys[j]) {
        assert Pair(all[i]) != Pair(all[j]);
      }
      forall i | 0 <= i < |keys| ensures Pair(keys[i]) != Pair(k) {
        assert Pair(all[i]) != Pair(all[|keys|]);
      }
    }
  }

  lemma ContiguousSnoc(keys: seq<Receipt>, k: Receipt)
    requires keys != []
    ensures Contiguous(keys + [k])
       <==> Contiguous(keys) && (Pair(keys[|keys| - 1]) == Pair(k) || !About(keys, Pair(k)))
  {
    var all, n := keys + [k], |keys|;
    if Contiguous(all) {
      forall i, j, l | 0 <= i < j < l < n && Pair(keys[i]) == Pair(keys[l]) ensures Pair(keys[j]) == Pair(keys[i]) {
        assert Pair(all[i]) == Pair(all[l]) ==> Pair(all[j]) == Pair(all[i]);
      }
      if About(keys, Pair(k)) {
        var i :| 0 <= i < n && Pair(keys[i]) == Pair(k);
        if i < n - 1 { assert Pair(all[i]) == Pair(all[n]) ==> Pair(all[n - 1]) == Pair(all[i]); }
      }
    }
    if Contiguous(keys) && Pair(keys[n - 1]) == Pair(k) {
      forall i, j, l | 0 <= i < j < l <= n && Pair(all[i]) == Pair(all[l]) ensures Pair(all[j]) == Pair(all[i]) {
        if l == n && j < n - 1 { assert Pair(keys[i]) == Pair(keys[n - 1]) ==> Pair(keys[j]) == Pair(keys[i]); }
      }
    }
  }

  /** The sweep leaves one receipt for each room and user if and only if the receipts for
      each of them were contiguous. */
  lemma {:induction false} OneLeftIffContiguous(keys: seq<Receipt>)
    ensures OnePerPair(Survivors(keys)) <==> Contiguous(keys)
    decreases |keys|
  {
    hide Survivors, OnePerPair, Contiguous, About;
    if keys == [] {
      NothingSurvives();
      OneOrNone([]);
    } else {
      var front, k := keys[..|keys| - 1], keys[|keys| - 1];
      SplitLast(keys);
      OneLeftIffContiguous(front);
      if front == [] {
        NothingSurvives();
        OneOrNone(keys);
      } else {
        ContiguousSnoc(front, k);
        SurvivorsAbout(front, Pair(k));
        OnePerPairSnoc(Survivors(front), k);
      }
    }
  }

  lemma OneOrNone(keys: seq<Receipt>)
    requires |keys| <= 1
    ensures OnePerPair(keys) && Contiguous(keys)
  {
  }

  /** Keys sort by count within a room, so receipts of two users may alternate; then the
      sweep leaves two receipts of one user. */
  lemma AlternatingReceiptsStay()
    ensures var keys := [Receipt("r", 1, "a"), Receipt("r", 2, "b"), Receipt("r", 3, "a")];
      Survivors(keys) == keys && !OnePerPair(keys)
  {
    hide Survivors;
    var keys := [Receipt("r", 1, "a"), Receipt("r", 2, "b"), Receipt("r", 3, "a")];
    assert "a"[0] != "b"[0];
    NothingSurvives();
    SurvivorsSnoc([], keys[0]);
    SurvivorsSnoc([keys[0]], keys[1]);
    SurvivorsSnoc([keys[0], keys[1]], keys[2]);
    assert [] + [keys[0]] == [keys[0]] && [keys[0]] + [keys[1]] == [keys[0], keys[1]];
    assert [keys[0], keys[1]] + [keys[2]] == keys;
    assert Pair(keys[0]) == Pair(keys[2]);
  }

  // ----- Which receipt is left -----

  predicate Distinct(keys: seq<Receipt>)
  {
    forall i, j :: 0 <= i < j < |keys| ==> keys[i] != keys[j]
  }

  /** Within a room keys ascend by count. */
  predicate InKeyOrder(keys: seq<Receipt>)
  {
    forall i, j :: 0 <= i < j < |keys| && keys[i].room == keys[j].room ==> keys[i].count <= keys[j].count
  }

  predicate Newest(keys: seq<Receipt>, i: nat)
    requires i < |keys|
  {
    forall j :: 0 <= j < |keys| && Pair(keys[j]) == Pair(keys[i]) ==> keys[j].count <= keys[i].count
  }

  predicate Oldest(keys: seq<Receipt>, i: nat)
    requires i < |keys|
  {
    forall j :: 0 <= j < |keys| && Pair(keys[j]) == Pair(keys[i]) ==> keys[i].count <= keys[j].count
  }

  lemma {:induction false} SurvivorsAreKeys(keys: seq<Receipt>)
    ensures forall k :: k in Survivors(keys) ==> k in keys
  {
    if keys != [] { SurvivorsAreKeys(keys[..|keys| - 1]); }
  }

  /** A receipt stays if and only if the one before it is about another room or user. */
  lemma {:induction false} SurvivesIff(keys: seq<Receipt>, i: nat)
    requires Distinct(keys) && i < |keys|
    ensures keys[i] in Survivors(keys) <==> !IsDup(keys, i)
    decreases |keys|
  {
    hide Survivors;
    var front, k := keys[..|keys| - 1], keys[|keys| - 1];
    SplitLast(keys);
    SurvivorsAreKeys(front);
    assert forall j :: 0 <= j < |front| ==> front[j] == keys[j];
    if i < |front| {
      SurvivesIff(front, i);
      assert keys[i] != keys[|front|] && IsDup(front, i) == IsDup(keys, i);
    }
  }

  lemma EarlierIsOlder(keys: seq<Receipt>, i: nat, j: nat)
    requires Distinct(keys) && InKeyOrder(keys) && i < j < |keys|
    ensures Pair(keys[i]) == Pair(keys[j]) ==> keys[i].count < keys[j].count
  {
    assert keys[i] != keys[j];
  }

  lemma ContiguousIsDup(keys: seq<Receipt>, j: nat, i: nat)
    requires Contiguous(keys) && j < i < |keys|
    ensures Pair(keys[j]) == Pair(keys[i]) ==> IsDup(keys, i)
  {
    assert j < i - 1 && Pair(keys[j]) == Pair(keys[i]) ==> Pair(keys[i - 1]) == Pair(keys[j]);
  }

  /** The newest receipt of a room and user stays if and only if the receipt just before
      it is about another room or user; the oldest one always stays. */
  lemma NewestSurvivesIff(keys: seq<Receipt>, newest: nat, oldest: nat)
    requires Distinct(keys) && InKeyOrder(keys) && newest < |keys| && oldest < |keys|
    requires Newest(keys, newest) && Oldest(keys, oldest)
    ensures keys[newest] in Survivors(keys)
       <==> newest == 0 || Pair(keys[newest - 1]) != Pair(keys[newest])
    ensures keys[oldest] in Survivors(keys)
  {
    SurvivesIff(keys, newest);
    SurvivesIff(keys, oldest);
    if oldest > 0 { EarlierIsOlder(keys, oldest - 1, oldest); }
  }

  lemma FirstIsOldest(keys: seq<Receipt>, i: nat)
    requires InKeyOrder(keys) && i < |keys|
    requires forall j :: 0 <= j < i ==> Pair(keys[j]) != Pair(keys[i])
    ensures Oldest(keys, i)
  {
  }

  /** Where the sweep leaves one receipt for each room and user, that is the oldest one. */
  lemma OneLeftIsOldest(keys: seq<Receipt>, i: nat)
    requires Distinct(keys) && InKeyOrder(keys) && OnePerPair(Survivors(keys))
    requires i < |keys| && keys[i] in Survivors(keys)
    ensures Oldest(keys, i)
  {
    hide *;
    OneLeftIffContiguous(keys);
    SurvivesIff(keys, i);
    forall j | 0 <= j < i ensures Pair(keys[j]) != Pair(keys[i]) { ContiguousIsDup(keys, j, i); }
    FirstIsOldest(keys, i);
  }

  /** One user reads twice: the sweep deletes the newer receipt. */
  lemma NewestIsDeleted()
    ensures
      var keys := [Receipt("r", 1, "a"), Receipt("r", 2, "a")];
      Newest(keys, 1) && Survivors(keys) == [keys[0]]
  {
    hide Survivors;
    var keys := [Receipt("r", 1, "a"), Receipt("r", 2, "a")];
    NothingSurvives();
    SurvivorsSnoc([], keys[0]);
    SurvivorsSnoc([keys[0]], keys[1]);
    assert [] + [keys[0]] == [keys[0]] && [keys[0]] + [keys[1]] == keys;
  }

  // ----- The sweep as written -----

  class Table {
    var rows: set<Receipt>

    constructor (rows: set<Receipt>)
      ensures this.rows == rows
    {
      this.rows := rows;
    }

    /** The sweep over a snapshot of the keys, cut off before the key number `cut` if
        there is one. It deletes exactly the duplicates among the keys it walked. */
    method FixDuplicates(keys: seq<Receipt>, cut: nat) returns (total: nat, fixed: nat)
      requires Distinct(keys) && forall k :: k in keys <==> k in rows
      modifies this
      ensures total == if cut < |keys| then cut else |keys|
      ensures forall k :: k in rows <==> k in Survivors(keys[..total]) + keys[total..]
      ensures forall i :: 0 <= i < |keys| ==> (keys[i] in rows <==> i >= total || !IsDup(keys, i))
      ensures fixed + |Survivors(keys[..total])| == total
    {
      var curRoom: Option<string>, curUser: Option<string> := None, None;
      total, fixed := 0, 0;
      hide Survivors;
      WalkedNone(keys, rows);
      while total < |keys| && total < cut
        invariant total <= |keys| && total <= cut
        invariant curRoom == if total == 0 then None else Some(keys[total - 1].room)
        invariant curUser == if total == 0 then None else Some(keys[total - 1].user)
        invariant Walked(keys, total, rows)
        invariant fixed + |Survivors(keys[..total])| == total
      {
        var key := keys[total];
        var lastRoom, lastUser := curRoom, curUser;
        curRoom, curUser := Some(key.room), Some(key.user);
        var isDup := curRoom == lastRoom && curUser == lastUser;
        WalkStep(keys, total, rows);
        if isDup {
          rows := rows - {key};
          fixed := fixed + 1;
        }
        total := total + 1;
      }
    }
  }

  /** The sweep has walked the first n keys. */
  ghost predicate Walked(keys: seq<Receipt>, n: nat, rows: set<Receipt>)
    requires n <= |keys|
  {
    && (forall k :: k in rows <==> k in Survivors(keys[..n]) + keys[n..])
    && (forall i :: 0 <= i < |keys| ==> (keys[i] in rows <==> i >= n || !IsDup(keys, i)))
  }

  lemma WalkedNone(keys: seq<Receipt>, rows: set<Receipt>)
    requires forall k :: k in keys <==> k in rows
    ensures Walked(keys, 0, rows) && Survivors(keys[..0]) == []
  {
    assert Survivors(keys[..0]) + keys[0..] == keys;
  }

  lemma WalkStep(keys: seq<Receipt>, n: nat, rows: set<Receipt>)
    requires Distinct(keys) && n < |keys| && Walked(keys, n, rows)
    ensures
      var k := keys[n];
      var rows' := if IsDup(keys, n) then rows - {k} else rows;
      && Walked(keys, n + 1, rows')
      && Survivors(keys[..n + 1]) == Survivors(keys[..n]) + if IsDup(keys, n) then [] else [k]
  {
    hide Survivors, Distinct;
    var k, s, rest := keys[n], Survivors(keys[..n]), keys[n + 1..];
    WalkSnoc(keys, n);
    WalkApart(keys, n);
    SameRows(rows, s, k, rest);
  }

  lemma WalkSnoc(keys: seq<Receipt>, n: nat)
    requires n < |keys|
    ensures Survivors(keys[..n + 1]) == Survivors(keys[..n]) + if IsDup(keys, n) then [] else [keys[n]]
    ensures keys[n..] == [keys[n]] + keys[n + 1..]
  {
    hide Survivors;
    assert keys[..n + 1] == keys[..n] + [keys[n]];
    SurvivorsSnoc(keys[..n], keys[n]);
  }

  lemma WalkApart(keys: seq<Receipt>, n: nat)
    requires Distinct(keys) && n < |keys|
    ensures keys[n] !in Survivors(keys[..n]) && keys[n] !in keys[n + 1..]
    ensures forall i :: 0 <= i < |keys| && i != n ==> keys[i] != keys[n]
  {
    hide Survivors;
    SurvivorsAreKeys(keys[..n]);
  }

  lemma SameRows(rows: set<Receipt>, s: seq<Receipt>, k: Receipt, rest: seq<Receipt>)
    requires forall x :: x in rows <==> x in s + ([k] + rest)
    requires k !in s && k !in rest
    ensures forall x :: x in rows - {k} <==> x in s + rest
    ensures forall x :: x in rows <==> x in (s + [k]) + rest
    ensures s + [] == s
  {
  }

  /** What an iterator over the rows delivers, if all of them are among these keys. */
  function Listed(keys: seq<Receipt>, rows: set<Receipt>): seq<Receipt>
  {
    if keys == [] then []
    else Listed(keys[..|keys| - 1], rows) + if keys[|keys| - 1] in rows then [keys[|keys| - 1]] else []
  }

  lemma ListedSnoc(keys: seq<Receipt>, k: Receipt, rows: set<Receipt>)
    ensures Listed(keys + [k], rows) == Listed(keys, rows) + if k in rows then [k] else []
  {
    assert (keys + [k])[..|keys|] == keys;
  }

  lemma CutSnoc(keys: seq<Receipt>, k: Receipt, n: nat)
    requires n <= |keys|
    ensures CutAt(keys + [k], n) == CutAt(keys, n) + [k]
  {
    hide Survivors;
    assert (keys + [k])[..n] == keys[..n] && (keys + [k])[n..] == keys[n..] + [k];
  }

  lemma CutAll(keys: seq<Receipt>)
    ensures CutAt(keys, |keys|) == Survivors(keys)
  {
    hide Survivors;
    assert keys[..|keys|] == keys && keys[|keys|..] == [];
  }

  /** The rows that the sweep leaves are, in order, the survivors among the keys it walked
      and the other keys. */
  lemma {:induction false} ListedIsCut(keys: seq<Receipt>, rows: set<Receipt>, n: nat)
    requires n <= |keys| && forall i :: 0 <= i < |keys| ==> (keys[i] in rows <==> i >= n || !IsDup(keys, i))
    ensures Listed(keys, rows) == CutAt(keys, n)
    decreases |keys|
  {
    if keys == [] {
      CutAll(keys);
      NothingSurvives();
    } else {
      var front, k := keys[..|keys| - 1], keys[|keys| - 1];
      assert forall i :: 0 <= i < |front| ==> front[i] == keys[i] && IsDup(front, i) == IsDup(keys, i);
      assert k in rows <==> n < |keys| || !EndsLike(front, k);
      assert keys == front + [k];
      hide Survivors, CutAt, Listed, IsDup, EndsLike;
      ListedSnoc(front, k, rows);
      if n == |keys| {
        ListedIsCut(front, rows, n - 1);
        CutAll(front);
        CutAll(keys);
        SurvivorsSnoc(front, k);
      } else {
        ListedIsCut(front, rows, n);
        CutSnoc(front, k, n);
      }
    }
  }

  // ----- A sweep that was cut off, and run again -----

  /** A sweep that was cut off after its first keys, followed by a whole one, leaves what
      one whole sweep leaves. */
  lemma {:induction false} ResumeIsWhole(done: seq<Receipt>, rest: seq<Receipt>)
    ensures Survivors(Survivors(done) + rest) == Survivors(done + rest)
    decreases |rest|
  {
    hide Survivors;
    if rest == [] {
      SweepIsIdempotent(done);
      assert Survivors(done) + rest == Survivors(done) && done + rest == done;
    } else {
      var front, k := rest[..|rest| - 1], rest[|rest| - 1];
      assert rest == front + [k];
      ResumeIsWhole(done, front);
      ResumeSnoc(Survivors(done), front, k);
      ResumeSnoc(done, front, k);
      LastSurvivor(done, k);
    }
  }

  lemma ResumeSnoc(a: seq<Receipt>, front: seq<Receipt>, k: Receipt)
    ensures EndsLike(a + front, k) <==> if front == [] then EndsLike(a, k) else EndsLike(front, k)
    ensures Survivors(a + (front + [k])) ==
      if EndsLike(a + front, k) then Survivors(a + front) else Survivors(a + front) + [k]
  {
    hide Survivors;
    assert a + (front + [k]) == (a + front) + [k];
    SurvivorsSnoc(a + front, k);
  }

  /** A sweep of t0 that was cut off left t. */
  predicate Left(t0: seq<Receipt>, t: seq<Receipt>)
  {
    exists n :: 0 <= n <= |t0| && t == CutAt(t0, n)
  }

  function CutAt(t: seq<Receipt>, n: nat): seq<Receipt>
    requires n <= |t|
  {
    Survivors(t[..n]) + t[n..]
  }

  lemma LeftResumes(t0: seq<Receipt>, t: seq<Receipt>)
    requires Left(t0, t)
    ensures Survivors(t) == Survivors(t0)
  {
    hide Survivors;
    var n :| 0 <= n <= |t0| && t == CutAt(t0, n);
    ResumeIsWhole(t0[..n], t0[n..]);
    assert t0[..n] + t0[n..] == t0;
  }

  /** A sweep of a table without duplicates leaves the table, wherever it is cut off. */
  lemma LeftClean(t0: seq<Receipt>, t: seq<Receipt>)
    requires Left(t0, t) && Survivors(t0) == t0
    ensures t == t0
  {
    hide Survivors;
    var n :| 0 <= n <= |t0| && t == CutAt(t0, n);
    CleanPrefix(t0, n);
  }

  lemma {:induction false} SurvivorsAreFewer(keys: seq<Receipt>)
    ensures |Survivors(keys)| <= |keys|
    ensures |Survivors(keys)| == |keys| ==> Survivors(keys) == keys
  {
    if keys != [] {
      var front, k := keys[..|keys| - 1], keys[|keys| - 1];
      SplitLast(keys);
      SurvivorsAreFewer(front);
    }
  }

  lemma {:induction false} CleanPrefix(keys: seq<Receipt>, n: nat)
    requires Survivors(keys) == keys && n <= |keys|
    ensures Survivors(keys[..n]) == keys[..n]
    decreases |keys|
  {
    hide Survivors;
    if n == |keys| {
      assert keys[..n] == keys;
    } else {
      var front, k := keys[..|keys| - 1], keys[|keys| - 1];
      SplitLast(keys);
      SurvivorsAreFewer(front);
      CleanPrefix(front, n);
      assert front[..n] == keys[..n];
    }
  }
}
