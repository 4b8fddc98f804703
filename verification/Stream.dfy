/** The lazy cursor over a snapshot of a table, and the prefix scans built on it. */
module Stream {
  import opened Bytes
  import opened Wrappers

  /** The position of the store's iterator; an iterator that left the table stays invalid. */
  datatype Position = Invalid | At(i: nat)

  predicate Sorted(keys: seq<Key>)
  {
    forall i, j :: 0 <= i < j < |keys| ==> Less(keys[i], keys[j])
  }

  predicate OnTable(p: Position, keys: seq<Key>)
  {
    p.At? ==> p.i < |keys|
  }

  function Place(i: int, keys: seq<Key>): (p: Position)
    ensures OnTable(p, keys)
  {
    if 0 <= i < |keys| then At(i) else Invalid
  }

  /** Number of keys below k. */
  function LowerBound(keys: seq<Key>, k: Key): (n: nat)
    requires Sorted(keys)
    ensures n <= |keys|
    ensures forall i :: 0 <= i < n ==> Less(keys[i], k)
    ensures forall i :: n <= i < |keys| ==> !Less(keys[i], k)
  {
    if keys == [] then 0
    else if Less(keys[|keys| - 1], k) then
      AllBelow(keys, k);
      |keys|
    else LowerBound(keys[..|keys| - 1], k)
  }

  lemma AllBelow(keys: seq<Key>, k: Key)
    requires Sorted(keys) && keys != [] && Less(keys[|keys| - 1], k)
    ensures forall i :: 0 <= i < |keys| ==> Less(keys[i], k)
  {
    forall i | 0 <= i < |keys| - 1 ensures Less(keys[i], k) {
      LessTransitive(keys[i], keys[|keys| - 1], k);
    }
  }

  /** Number of keys not above k. */
  function UpperBound(keys: seq<Key>, k: Key): (n: nat)
    requires Sorted(keys)
    ensures n <= |keys|
    ensures forall i :: 0 <= i < n ==> !Less(k, keys[i])
    ensures forall i :: n <= i < |keys| ==> Less(k, keys[i])
  {
    if keys == [] then 0
    else if Less(k, keys[|keys| - 1]) then UpperBound(keys[..|keys| - 1], k)
    else
      NoneAbove(keys, k);
      |keys|
  }

  lemma NoneAbove(keys: seq<Key>, k: Key)
    requires Sorted(keys) && keys != [] && !Less(k, keys[|keys| - 1])
    ensures forall i :: 0 <= i < |keys| ==> !Less(k, keys[i])
  {
    forall i | 0 <= i < |keys| - 1 ensures !Less(k, keys[i]) {
      if Less(k, keys[i]) { LessTransitive(k, keys[i], keys[|keys| - 1]); }
    }
  }

  function Reversed<T>(s: seq<T>): (r: seq<T>)
    ensures |r| == |s|
    ensures forall i :: 0 <= i < |s| ==> r[i] == s[|s| - 1 - i]
  {
    if s == [] then [] else Reversed(s[1..]) + [s[0]]
  }

  class State {
    const keys: seq<Key>
    var inner: Position
    var seek: bool
    var init: bool

    ghost predicate Valid()
      reads this
    {
      Sorted(keys) && OnTable(inner, keys)
    }

    /** No key was delivered yet. */
    ghost predicate Fresh()
      reads this
    {
      Valid() && init && !seek
    }

    constructor (keys: seq<Key>)
      requires Sorted(keys)
      ensures Fresh() && this.keys == keys
    {
      this.keys := keys;
      inner, init, seek := Invalid, true, false;
    }

    /** Positions the cursor ahead of a forward enumeration. */
    method InitFwd(from: Option<Key>)
      requires Fresh()
      modifies this
      ensures Valid() && init && seek
      ensures inner == Place(if from.Some? then LowerBound(keys, from.value) else 0, keys)
    {
      match from {
        case Some(key) => inner := Place(LowerBound(keys, key), keys);
        case None => inner := Place(0, keys);
      }
      seek := true;
    }

    /** Positions the cursor ahead of a reverse enumeration. */
    method InitRev(from: Option<Key>)
      requires Fresh()
      modifies this
      ensures Valid() && init && seek
      ensures inner == Place((if from.Some? then UpperBound(keys, from.value) else |keys|) - 1, keys)
    {
      match from {
        case Some(key) => inner := Place(UpperBound(keys, key) - 1, keys);
        case None => inner := Place(|keys| - 1, keys);
      }
      seek := true;
    }

    /** Where the next forward step lands. */
    ghost function NextFwd(): Position
      reads this
    {
      if !init then (if inner.At? then Place(inner.i + 1, keys) else Invalid)
      else if seek then inner
      else Place(0, keys)
    }

    /** Where the next reverse step lands. */
    ghost function NextRev(): Position
      reads this
    {
      if !init then (if inner.At? then Place(inner.i - 1, keys) else Invalid)
      else if seek then inner
      else Place(|keys| - 1, keys)
    }

    method SeekFwd()
      requires Valid()
      modifies this
      ensures Valid() && !init && seek == old(seek)
      ensures inner == old(NextFwd())
    {
      var was := init;
      init := false;
      if !was {
        if inner.At? { inner := Place(inner.i + 1, keys); }
      } else if !seek {
        inner := Place(0, keys);
      }
    }

    method SeekRev()
      requires Valid()
      modifies this
      ensures Valid() && !init && seek == old(seek)
      ensures inner == old(NextRev())
    {
      var was := init;
      init := false;
      if !was {
        if inner.At? { inner := Place(inner.i - 1, keys); }
      } else if !seek {
        inner := Place(|keys| - 1, keys);
      }
    }

    function Fetch(): Option<Key>
      requires Valid()
      reads this
    {
      if inner.At? then Some(keys[inner.i]) else None
    }

    /** The cursor after j forward steps, whatever positioned it: the j-th key counted
        from where it starts, and no key once the table is left. */
    method SeekFwdTimes(j: nat)
      requires Valid() && init && j > 0
      modifies this
      ensures Valid() && !init
      ensures inner == if old(NextFwd()).At? then Place(old(NextFwd()).i + j - 1, keys) else Invalid
    {
      SeekFwd();
      for n := 1 to j
        invariant Valid() && !init
        invariant inner == if old(NextFwd()).At? then Place(old(NextFwd()).i + n - 1, keys) else Invalid
      {
        SeekFwd();
      }
    }

    method SeekRevTimes(j: nat)
      requires Valid() && init && j > 0
      modifies this
      ensures Valid() && !init
      ensures inner == if old(NextRev()).At? then Place(old(NextRev()).i - j + 1, keys) else Invalid
    {
      SeekRev();
      for n := 1 to j
        invariant Valid() && !init
        invariant inner == if old(NextRev()).At? then Place(old(NextRev()).i - n + 1, keys) else Invalid
      {
        SeekRev();
      }
    }

    /** Polling the forward stream to its end. */
    method CollectFwd() returns (out: seq<Key>)
      requires Valid() && init
      modifies this
      ensures Valid()
      ensures out == if old(NextFwd()).At? then keys[old(NextFwd()).i..] else []
    {
      out := [];
      SeekFwd();
      ghost var start := inner;
      while inner.At?
        invariant Valid() && !init
        invariant start.Invalid? ==> inner.Invalid? && out == []
        invariant start.At? ==> out == keys[start.i..if inner.At? then inner.i else |keys|]
        invariant start.At? && inner.At? ==> start.i <= inner.i
        decreases if inner.At? then |keys| - inner.i else 0
      {
        out := out + [Fetch().value];
        SeekFwd();
      }
    }

    /** Polling the reverse stream to its end. */
    method CollectRev() returns (out: seq<Key>)
      requires Valid() && init
      modifies this
      ensures Valid()
      ensures out == if old(NextRev()).At? then Reversed(keys[..old(NextRev()).i + 1]) else []
    {
      out := [];
      SeekRev();
      ghost var start := inner;
      while inner.At?
        invariant Valid() && !init
        invariant start.Invalid? ==> inner.Invalid? && out == []
        invariant start.At? && inner.At? ==> inner.i <= start.i && |out| == start.i - inner.i
        invariant start.At? && inner.Invalid? ==> |out| == start.i + 1
        invariant start.At? ==> |out| <= start.i + 1 && forall n :: 0 <= n < |out| ==> out[n] == keys[start.i - n]
        decreases if inner.At? then inner.i + 1 else 0
      {
        out := out + [Fetch().value];
        SeekRev();
      }
    }
  }

  /** All keys from a bound on, in order. */
  method KeysFrom(keys: seq<Key>, from: Option<Key>) returns (out: seq<Key>)
    requires Sorted(keys)
    ensures out == keys[if from.Some? then LowerBound(keys, from.value) else 0..]
  {
    var state := new State(keys);
    state.InitFwd(from);
    out := state.CollectFwd();
  }

  /** All keys down from a bound, in reverse order. */
  method RevKeysFrom(keys: seq<Key>, from: Option<Key>) returns (out: seq<Key>)
    requires Sorted(keys)
    ensures out == Reversed(keys[..if from.Some? then UpperBound(keys, from.value) else |keys|])
  {
    var state := new State(keys);
    state.InitRev(from);
    out := state.CollectRev();
  }

  /** The enumeration that was never positioned, in both directions. */
  method Keys(keys: seq<Key>) returns (out: seq<Key>, rev: seq<Key>)
    requires Sorted(keys)
    ensures out == keys && rev == Reversed(out)
  {
    var forward := new State(keys);
    out := forward.CollectFwd();
    var backward := new State(keys);
    rev := backward.CollectRev();
    assert keys[..|keys|] == keys;
  }

  // ----- Prefix scans -----

  /** The keys that start with p, in order. */
  function WithPrefix(keys: seq<Key>, p: Key): seq<Key>
  {
    if keys == [] then []
    else if p <= keys[0] then [keys[0]] + WithPrefix(keys[1..], p)
    else WithPrefix(keys[1..], p)
  }

  lemma {:induction false} WithPrefixMiddle(keys: seq<Key>, p: Key, low: nat, high: nat)
    requires low <= high <= |keys|
    requires forall i :: 0 <= i < |keys| ==> (p <= keys[i] <==> low <= i < high)
    ensures WithPrefix(keys, p) == keys[low..high]
  {
    if keys != [] {
      assert p <= keys[0] <==> low <= 0 < high;
      if low > 0 {
        WithPrefixMiddle(keys[1..], p, low - 1, high - 1);
      } else {
        WithPrefixMiddle(keys[1..], p, 0, if high > 0 then high - 1 else 0);
        if high > 0 { assert keys[0..high] == [keys[0]] + keys[1..][..high - 1]; }
      }
    }
  }

  /** Once a key at or above p does not start with p, no later key does. */
  lemma NoPrefixLater(keys: seq<Key>, p: Key, i: nat)
    requires Sorted(keys) && i < |keys| && !Less(keys[i], p) && !(p <= keys[i])
    ensures forall j :: i <= j < |keys| ==> !(p <= keys[j])
  {
    forall j | i < j < |keys| ensures !(p <= keys[j]) {
      if p <= keys[j] { PrefixInterval(p, keys[i], keys[j]); }
    }
  }

  lemma PrefixBlock(keys: seq<Key>, p: Key, high: nat)
    requires Sorted(keys) && LowerBound(keys, p) <= high <= |keys|
    requires forall i :: LowerBound(keys, p) <= i < high ==> p <= keys[i]
    requires high == |keys| || !(p <= keys[high])
    ensures WithPrefix(keys, p) == keys[LowerBound(keys, p)..high]
  {
    var low := LowerBound(keys, p);
    if high < |keys| { NoPrefixLater(keys, p, high); }
    forall i | 0 <= i < low ensures !(p <= keys[i]) {
      if p <= keys[i] { PrefixNotAfter(p, keys[i]); }
    }
    WithPrefixMiddle(keys, p, low, high);
  }

  /** The scan that starts at p and stops at the first key without the prefix p finds
      every key with that prefix, and no other. */
  method KeysPrefix(keys: seq<Key>, p: Key) returns (out: seq<Key>)
    requires Sorted(keys)
    ensures out == WithPrefix(keys, p)
  {
    var state := new State(keys);
    state.InitFwd(Some(p));
    ghost var low := LowerBound(keys, p);
    ghost var high := low;
    out := [];
    state.SeekFwd();
    while state.inner.At? && p <= keys[state.inner.i]
      invariant state.Valid() && !state.init && state.keys == keys && fresh(state)
      invariant low <= high <= |keys| && state.inner == Place(high, keys)
      invariant out == keys[low..high]
      invariant forall i :: low <= i < high ==> p <= keys[i]
      decreases |keys| - high
    {
      out := out + [keys[state.inner.i]];
      high := high + 1;
      state.SeekFwd();
    }
    PrefixBlock(keys, p, high);
  }
}
