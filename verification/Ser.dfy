/** The record serializer: a machine of three flags appending to a buffer.
    `debug` tells a build with debug assertions from a release build; a method
    returns false when a debug assertion fails (the program panics). */
module Ser {
  import opened Bytes
  import opened Record

  const U32_MAX: nat := 0xFFFF_FFFF

  /** Every Interfix is the last field. */
  predicate InterfixOnlyLast(vs: seq<Value>)
  {
    forall j :: 0 <= j < |vs| - 1 ==> !Finalizes(vs[j])
  }

  predicate Finalizes(v: Value)
  {
    v.Interfix? || (v.Some? && Finalizes(v.value))
  }

  /** The values a program can hand to the serializer. */
  predicate Writable(v: Value)
  {
    match v
    case U64(n) => n < U64_LIMIT
    case I64(i) => -I64_LIMIT <= i < I64_LIMIT
    case Some(value) => Writable(value)
    case Skipped => false
    case _ => true
  }

  /** What a schema may name can be written, and so can the directives. */
  lemma {:induction false} TypedIsWritable(v: Value, k: Kind)
    requires HasKind(v, k)
    ensures Writable(v) && Writable(Interfix) && Writable(Separator)
    decreases v
  {
    if v.Some? { TypedIsWritable(v.value, k.inner); }
  }

  /** Writing v trips an assertion of a debug build in this state. */
  predicate Trips(v: Value, depth: nat, fin: bool)
  {
    match v
    case Str(_) => depth == 0
    case Raw(_) => depth == 0
    case Some(value) => Trips(value, depth, fin)
    case Interfix => fin
    case Separator => fin
    case _ => false
  }

  /** What one element adds to the buffer. */
  function Element(sep: bool, v: Value): seq<Byte> {
    if sep then [SEP] + Encode(v) else Encode(v)
  }

  /** The buffer after the first k elements of a tuple. */
  function After(out: seq<Byte>, sep: bool, vs: seq<Value>, k: nat): seq<Byte>
    requires k <= |vs|
  {
    if k == 0 then out
    else After(out, sep, vs, k - 1) + Element(sep || k > 1, vs[k - 1])
  }

  lemma {:induction false} AfterIsTuple(out: seq<Byte>, vs: seq<Value>, k: nat)
    requires k <= |vs|
    ensures After(out, false, vs, k) == out + EncodeTuple(vs[..k])
  {
    if k > 0 {
      AfterIsTuple(out, vs, k - 1);
      assert vs[..k] == vs[..k - 1] + [vs[k - 1]];
      if k > 1 {
        EncodeTupleSnoc(vs[..k - 1], vs[k - 1]);
        Regroup(out, EncodeTuple(vs[..k - 1]), [SEP], Encode(vs[k - 1]));
      } else {
        assert vs[..k] == [vs[0]] && vs[..k - 1] == [];
      }
    }
  }

  lemma Regroup(a: seq<Byte>, b: seq<Byte>, c: seq<Byte>, d: seq<Byte>)
    ensures (a + b) + (c + d) == a + (b + c + d)
  {
  }

  class Serializer {
    const debug: bool
    var out: seq<Byte>
    var depth: nat
    var sep: bool
    var fin: bool

    ghost predicate Valid()
      reads this
    {
      depth <= U32_MAX && (!debug ==> depth == 0 && !fin)
    }

    constructor (debug: bool)
      ensures Valid() && this.debug == debug
      ensures out == [] && depth == 0 && !sep && !fin
    {
      this.debug := debug;
      out, depth, sep, fin := [], 0, false, false;
    }

    method SequenceStart() returns (ok: bool)
      requires Valid()
      modifies this`depth
      ensures Valid()
      ensures ok == !fin
      ensures depth == if ok && debug && old(depth) < U32_MAX then old(depth) + 1 else old(depth)
    {
      ok := !fin;
      if ok && debug && depth < U32_MAX { depth := depth + 1; }
    }

    method SequenceEnd()
      requires Valid()
      modifies this`depth
      ensures Valid()
      ensures depth == if debug && old(depth) > 0 then old(depth) - 1 else old(depth)
    {
      if debug && depth > 0 { depth := depth - 1; }
    }

    method TupleStart() returns (ok: bool)
      requires Valid()
      modifies this`depth
      ensures Valid()
      ensures ok == (!(debug && sep) && !fin)
      ensures depth == if ok && debug && old(depth) < U32_MAX then old(depth) + 1 else old(depth)
    {
      ok := !(debug && sep);
      if ok { ok := SequenceStart(); }
    }

    method WriteSeparator() returns (ok: bool)
      modifies this`out
      ensures ok == !fin
      ensures out == if ok then old(out) + [SEP] else old(out)
    {
      ok := !fin;
      if ok { out := out + [SEP]; }
    }

    method RecordStart() returns (ok: bool)
      modifies this`out, this`sep
      ensures ok == !fin
      ensures ok ==> sep
      ensures out == if ok && old(sep) then old(out) + [SEP] else old(out)
    {
      ok := !fin;
      if ok {
        var was := sep;
        sep := true;
        if was { ok := WriteSeparator(); }
      }
    }

    method SetFinalized() returns (ok: bool)
      requires Valid()
      modifies this`fin
      ensures Valid()
      ensures ok == !old(fin)
      ensures fin == (old(fin) || debug)
    {
      ok := !fin;
      if ok && debug { fin := true; }
    }

    method Write(buf: seq<Byte>)
      modifies this`out
      ensures out == old(out) + buf
    {
      out := out + buf;
    }

    /** Writes one value, or carries out a directive. */
    method Serialize(v: Value) returns (ok: bool)
      requires Valid() && Writable(v)
      modifies this`out, this`fin
      ensures Valid()
      ensures ok == !(debug && Trips(v, depth, old(fin)))
      ensures ok ==> out == old(out) + Encode(v)
      ensures ok ==> fin == (old(fin) || (debug && Finalizes(v)))
      decreases v
    {
      ok := true;
      match v {
        case Str(text) =>
          if debug && depth == 0 { return false; }
          Write(text);
        case Raw(bytes) =>
          if debug && depth == 0 { return false; }
          Write(bytes);
        case U64(n) => Write(BigEndian(n, 8));
        case I64(i) => Write(BigEndian(Unsigned(i), 8));
        case Bool(b) =>
          if b { Write([1]); } else { Write([0]); }
        case None =>
        case Some(value) => ok := Serialize(value);
        case Interfix => ok := SetFinalized();
        case Separator => ok := WriteSeparator();
      }
    }

    /** One element of a tuple: a record of its own. */
    method SerializeElement(v: Value) returns (ok: bool)
      requires Valid() && Writable(v) && (debug ==> depth > 0)
      modifies this`out, this`sep, this`fin
      ensures Valid()
      ensures ok == !old(fin)
      ensures ok ==> sep && fin == (debug && Finalizes(v))
      ensures ok ==> out == old(out) + Element(old(sep), v)
    {
      ok := RecordStart();
      if !ok { return; }
      if debug { FreshRecordTrips(v, depth); }
      ok := Serialize(v);
    }

    /** The elements of a tuple that has been started. */
    method SerializeElements(vs: seq<Value>) returns (ok: bool)
      requires Valid() && forall v :: v in vs ==> Writable(v)
      requires debug ==> depth > 0 && !sep && !fin
      modifies this`out, this`sep, this`fin
      ensures Valid()
      ensures ok == (!debug || InterfixOnlyLast(vs))
      ensures ok ==> out == After(old(out), old(sep), vs, |vs|)
      ensures ok ==> sep == (old(sep) || vs != []) && fin == (debug && vs != [] && Finalizes(vs[|vs| - 1]))
    {
      hide Finalizes, Writable, InterfixOnlyLast, After, Encode, Element;
      ok := true;
      NothingWritten(out, sep, vs);
      for k := 0 to |vs|
        invariant ok && Valid() && sep == (old(sep) || k > 0)
        invariant debug ==> OnlyLastFinalizes(vs, k)
        invariant fin == (debug && k > 0 && Finalizes(vs[k - 1]))
        invariant out == After(old(out), old(sep), vs, k)
      {
        if debug { NextElement(vs, k); }
        OneMore(old(out), old(sep), vs, k);
        ok := SerializeElement(vs[k]);
        if !ok { return; }
      }
    }

    /** Writes a tuple: the fields joined by separators. A separator stands before the
        first field too when a record was already begun, which a debug build rejects. */
    method SerializeTuple(vs: seq<Value>) returns (ok: bool)
      requires Valid() && forall v :: v in vs ==> Writable(v)
      modifies this
      ensures Valid()
      ensures ok == (!debug || (!old(sep) && !old(fin) && InterfixOnlyLast(vs)))
      ensures ok && !old(sep) ==> out == old(out) + EncodeTuple(vs)
      ensures ok ==> out == After(old(out), old(sep), vs, |vs|)
      ensures ok ==> sep == (old(sep) || vs != []) && fin == (debug && vs != [] && Finalizes(vs[|vs| - 1]))
      ensures ok && old(depth) < U32_MAX ==> depth == old(depth)
    {
      AfterIsTuple(out, vs, |vs|);
      assert vs[..|vs|] == vs;
      ok := TupleStart();
      if ok { ok := SerializeElements(vs); }
      if ok { SequenceEnd(); }
    }

    /** Writes a sequence: nothing between the elements. It fails if the serializer is
        finalized, and in a debug build if an element that finalizes it stands before one
        that then trips an assertion. */
    method SerializeSeq(vs: seq<Value>) returns (ok: bool)
      requires Valid() && forall v :: v in vs ==> Writable(v)
      modifies this
      ensures Valid()
      ensures ok == (!old(fin) && (debug ==> SeqFits(vs, |vs|)))
      ensures ok ==> out == old(out) + EncodeSeq(vs) && sep == old(sep)
      ensures ok ==> fin == (debug && exists v :: v in vs && Finalizes(v))
      ensures ok && old(depth) < U32_MAX ==> depth == old(depth)
    {
      hide Finalizes, Trips, Encode, EncodeSeq, SeqFits, FinalizedBy, Writable;
      ok := SequenceStart();
      if !ok { return; }
      NoElements(out, vs);
      for k := 0 to |vs|
        invariant ok && Valid() && sep == old(sep)
        invariant depth == if debug && old(depth) < U32_MAX then old(depth) + 1 else old(depth)
        invariant debug ==> SeqFits(vs, k)
        invariant fin == (debug && FinalizedBy(vs, k))
        invariant out == old(out) + EncodeSeq(vs[..k])
      {
        OneMoreElement(vs, k, depth);
        ok := Serialize(vs[k]);
        if !ok { return; }
      }
      assert vs[..|vs|] == vs;
      AllElements(vs);
      SequenceEnd();
    }
  }

  /** One of the first k values finalizes the serializer. */
  predicate FinalizedBy(vs: seq<Value>, k: nat)
  {
    exists j :: 0 <= j < k && j < |vs| && Finalizes(vs[j])
  }

  /** None of the first k values trips an assertion after one that finalizes. */
  predicate SeqFits(vs: seq<Value>, k: nat)
  {
    forall i, j :: 0 <= i < j < k && j < |vs| && Finalizes(vs[i]) ==> !TripsFinalized(vs[j])
  }

  /** Writing v in a finalized serializer trips an assertion: it is a directive. */
  predicate TripsFinalized(v: Value)
  {
    v.Interfix? || v.Separator? || (v.Some? && TripsFinalized(v.value))
  }

  lemma TripsWithin(v: Value, depth: nat, fin: bool)
    requires depth > 0
    ensures Trips(v, depth, fin) <==> fin && TripsFinalized(v)
  {
  }

  lemma NoElements(out: seq<Byte>, vs: seq<Value>)
    ensures SeqFits(vs, 0) && !FinalizedBy(vs, 0) && out + EncodeSeq(vs[..0]) == out
  {
  }

  lemma AllElements(vs: seq<Value>)
    ensures FinalizedBy(vs, |vs|) <==> exists v :: v in vs && Finalizes(v)
  {
    if v :| v in vs && Finalizes(v) {
      var j :| 0 <= j < |vs| && vs[j] == v;
      assert Finalizes(vs[j]);
    }
  }

  lemma OneMoreElement(vs: seq<Value>, k: nat, depth: nat)
    requires k < |vs|
    ensures FinalizedBy(vs, k + 1) <==> FinalizedBy(vs, k) || Finalizes(vs[k])
    ensures depth > 0 && SeqFits(vs, k) ==> (SeqFits(vs, k + 1) <==> !Trips(vs[k], depth, FinalizedBy(vs, k)))
    ensures SeqFits(vs, |vs|) ==> SeqFits(vs, k + 1)
    ensures EncodeSeq(vs[..k + 1]) == EncodeSeq(vs[..k]) + Encode(vs[k])
  {
    hide Finalizes;
    if depth > 0 { TripsWithin(vs[k], depth, FinalizedBy(vs, k)); }
    hide TripsFinalized, Trips;
    assert vs[..k + 1][..k] == vs[..k];
  }

  /** Of the first k values only the last may finalize. */
  predicate OnlyLastFinalizes(vs: seq<Value>, k: nat)
    requires k <= |vs|
  {
    forall j :: 0 <= j < k - 1 ==> !Finalizes(vs[j])
  }

  lemma NothingWritten(out: seq<Byte>, sep: bool, vs: seq<Value>)
    ensures After(out, sep, vs, 0) == out && OnlyLastFinalizes(vs, 0)
    ensures InterfixOnlyLast(vs) == OnlyLastFinalizes(vs, |vs|)
  {
  }

  lemma NextElement(vs: seq<Value>, k: nat)
    requires k < |vs| && OnlyLastFinalizes(vs, k)
    ensures OnlyLastFinalizes(vs, k + 1) <==> !(k > 0 && Finalizes(vs[k - 1]))
    ensures k > 0 && Finalizes(vs[k - 1]) ==> !InterfixOnlyLast(vs)
  {
    hide Finalizes;
  }

  lemma OneMore(out: seq<Byte>, sep: bool, vs: seq<Value>, k: nat)
    requires k < |vs|
    ensures After(out, sep, vs, k + 1) == After(out, sep, vs, k) + Element(sep || k > 0, vs[k])
  {
  }

  lemma FreshRecordTrips(v: Value, depth: nat)
    requires depth > 0
    ensures !Trips(v, depth, false)
  {
  }

  /** Serializing a tuple into an empty buffer; the depth is back at zero then. */
  method SerializeToVec(debug: bool, vs: seq<Value>) returns (ok: bool, out: seq<Byte>)
    requires forall v :: v in vs ==> Writable(v)
    ensures ok == (!debug || InterfixOnlyLast(vs))
    ensures ok ==> out == EncodeTuple(vs)
  {
    var serializer := new Serializer(debug);
    ok := serializer.SerializeTuple(vs);
    out := serializer.out;
    ok := ok && serializer.depth == 0;
  }

  /** Text, raw bytes, or such an optional. */
  predicate IsText(v: Value)
  {
    v.Str? || v.Raw? || (v.Some? && IsText(v.value))
  }

  lemma TripsAtTop(v: Value)
    ensures Trips(v, 0, false) <==> IsText(v)
  {
  }

  /** Serializing one bare value into an empty buffer: a debug build refuses text. */
  method SerializeBareToVec(debug: bool, v: Value) returns (ok: bool, out: seq<Byte>)
    requires Writable(v)
    ensures ok == !(debug && IsText(v))
    ensures ok ==> out == Encode(v)
  {
    TripsAtTop(v);
    var serializer := new Serializer(debug);
    ok := serializer.Serialize(v);
    out := serializer.out;
    ok := ok && serializer.depth == 0;
  }
}
