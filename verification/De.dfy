/** The record deserializer: a cursor over the buffer of one record.
    `debug` tells a build with debug assertions, where a failed one panics, from a
    release build. */
module De {
  import opened Bytes
  import opened Record

  datatype Outcome<+T> = Ok(value: T) | Err | Panic

  /** What reading one value at a position gives: the value and the position after it. */
  datatype Reading = Got(v: Value, pos: nat) | Failed | Panicked

  /** The same for several fields. */
  datatype Fields = All(vs: seq<Value>, pos: nat) | Broken | Aborted

  lemma {:induction false} FromBigEndianBound(s: seq<Byte>)
    ensures FromBigEndian(s) < Pow256(|s|)
  {
    if s != [] { FromBigEndianBound(s[..|s| - 1]); }
  }

  /** The eight bytes at pos as an unsigned integer. */
  function BitsAt(buf: seq<Byte>, pos: nat): (n: nat)
    requires pos + 8 <= |buf|
    ensures n < U64_LIMIT
  {
    FromBigEndianBound(buf[pos..pos + 8]);
    Pow256Of8();
    FromBigEndian(buf[pos..pos + 8])
  }

  /** Reading one value of kind k; `inSeq` says whether a tuple is being read. */
  function ReadValue(k: Kind, inSeq: bool, buf: seq<Byte>, pos: nat): (r: Reading)
    requires pos <= |buf|
    ensures r.Got? ==> pos <= r.pos <= |buf|
    ensures !r.Panicked?
  {
    match k
    case KStr =>
      var end := RecordEnd(buf, pos);
      if Utf8(buf[pos..end]) then Got(Str(buf[pos..end]), end) else Failed
    case KU64 =>
      if pos + 8 <= |buf| then Got(U64(BitsAt(buf, pos)), pos + 8) else Failed
    case KI64 =>
      if pos + 8 <= |buf| then Got(I64(Signed(BitsAt(buf, pos))), pos + 8) else Failed
    case KBool =>
      if pos < |buf| then Got(Bool(buf[pos] != 0), pos + 1) else Failed
    case KRaw => Got(Raw(buf[pos..]), |buf|)
    case KOpt(inner) =>
      if pos == |buf| || buf[pos] == SEP then Got(None, pos)
      else
        var r := ReadValue(inner, inSeq, buf, pos);
        if r.Got? then Got(Some(r.v), r.pos) else Failed
    case Ignore => Got(Skipped, if inSeq then RecordEnd(buf, pos) else |buf|)
    case IgnoreAll => Got(Skipped, |buf|)
  }

  /** Reading the next field of a tuple; `started` once a byte or a field was consumed.
      Fields that are missing at the end of the buffer make the tuple an error. */
  function ReadElement(debug: bool, k: Kind, buf: seq<Byte>, pos: nat, started: bool): (r: Reading)
    requires pos <= |buf|
    ensures r.Got? ==> pos <= r.pos <= |buf|
    ensures !debug ==> !r.Panicked?
  {
    if pos == |buf| then Failed
    else if debug && started && buf[pos] != SEP then Panicked
    else ReadValue(k, true, buf, if started then pos + 1 else pos)
  }

  /** Reading the remaining fields of a tuple. */
  function ReadFields(debug: bool, ks: seq<Kind>, buf: seq<Byte>, pos: nat, started: bool): (r: Fields)
    requires pos <= |buf|
    ensures r.All? ==> |r.vs| == |ks| && pos <= r.pos <= |buf|
    ensures !debug ==> !r.Aborted?
  {
    if ks == [] then All([], pos)
    else
      match ReadElement(debug, ks[0], buf, pos, started)
      case Failed => Broken
      case Panicked => Aborted
      case Got(v, next) => Before([v], ReadFields(debug, ks[1..], buf, next, true))
  }

  /** The outcome of the rest, after the fields vs were read. */
  function Before(vs: seq<Value>, rest: Fields): Fields {
    match rest
    case All(ws, pos) => All(vs + ws, pos)
    case Broken => Broken
    case Aborted => Aborted
  }

  lemma BeforeNothing(vs: seq<Value>, rest: Fields, pos: nat)
    ensures Before([], rest) == rest
    ensures Before(vs, All([], pos)) == All(vs, pos)
  {
    assert vs + [] == vs;
    if rest.All? { assert [] + rest.vs == rest.vs; }
  }

  lemma BeforeTwice(vs: seq<Value>, v: Value, rest: Fields)
    ensures Before(vs, Before([v], rest)) == Before(vs + [v], rest)
  {
    if rest.All? { assert vs + ([v] + rest.vs) == vs + [v] + rest.vs; }
  }

  lemma OneField(debug: bool, k: Kind, buf: seq<Byte>, pos: nat, started: bool)
    requires pos <= |buf|
    ensures
      var r := ReadElement(debug, k, buf, pos, started);
      r.Got? ==> ReadFields(debug, [k], buf, pos, started) == All([r.v], r.pos)
  {
    var r := ReadElement(debug, k, buf, pos, started);
    assert [k][1..] == [];
    if r.Got? { BeforeNothing([r.v], All([], r.pos), r.pos); }
  }

  /** Nothing is left over but at most one separator. */
  predicate FinishedAt(buf: seq<Byte>, pos: nat)
    requires pos <= |buf|
  {
    pos == |buf| || (pos + 1 == |buf| && buf[pos] == SEP)
  }

  /** Deserializing a tuple from a whole buffer. */
  function TupleFrom(debug: bool, ks: seq<Kind>, buf: seq<Byte>): (r: Outcome<seq<Value>>)
    ensures r.Ok? ==> |r.value| == |ks|
    ensures !debug ==> !r.Panic?
  {
    match ReadFields(debug, ks, buf, 0, false)
    case Broken => Err
    case Aborted => Panic
    case All(vs, pos) => if debug && !FinishedAt(buf, pos) then Panic else Ok(vs)
  }

  /** Deserializing one bare value from a whole buffer. */
  function ValueFrom(debug: bool, k: Kind, buf: seq<Byte>): (r: Outcome<Value>)
    ensures !debug ==> !r.Panic?
  {
    match ReadValue(k, false, buf, 0)
    case Failed => Err
    case Panicked => Panic
    case Got(v, pos) => if debug && !FinishedAt(buf, pos) then Panic else Ok(v)
  }

  predicate IsData(k: Kind)
  {
    match k
    case KOpt(inner) => IsData(inner)
    case Ignore => false
    case IgnoreAll => false
    case _ => true
  }

  lemma {:induction false} ReadHasKind(k: Kind, inSeq: bool, buf: seq<Byte>, pos: nat)
    requires IsData(k) && pos <= |buf|
    ensures
      var r := ReadValue(k, inSeq, buf, pos);
      r.Got? ==> HasKind(r.v, k)
    decreases k
  {
    if k.KOpt? { ReadHasKind(k.inner, inSeq, buf, pos); }
  }

  lemma {:induction false} ReadsNoData(k: Kind)
    requires !IsData(k)
    ensures var r := ReadValue(k, true, [0], 0); r.Got? && !HasKind(r.v, k)
    decreases k
  {
    if k.KOpt? { ReadsNoData(k.inner); }
  }

  /** The data kinds are those of which every reading yields a value. */
  lemma DataIff(k: Kind)
    ensures IsData(k) <==> forall buf: seq<Byte> ::
      var r := ReadValue(k, true, buf, 0); r.Got? ==> HasKind(r.v, k)
  {
    if IsData(k) {
      forall buf: seq<Byte>
        ensures var r := ReadValue(k, true, buf, 0); r.Got? ==> HasKind(r.v, k)
      {
        ReadHasKind(k, true, buf, 0);
      }
    } else {
      ReadsNoData(k);
    }
  }

  lemma {:induction false} FieldsHaveKinds(debug: bool, ks: seq<Kind>, buf: seq<Byte>, pos: nat, started: bool)
    requires pos <= |buf| && forall k :: k in ks ==> IsData(k)
    ensures
      var r := ReadFields(debug, ks, buf, pos, started);
      r.All? ==> HasKinds(r.vs, ks)
  {
    if ks != [] {
      var r := ReadElement(debug, ks[0], buf, pos, started);
      if r.Got? {
        ReadHasKind(ks[0], true, buf, if started then pos + 1 else pos);
        FieldsHaveKinds(debug, ks[1..], buf, r.pos, true);
      }
    }
  }

  /** Whatever the bytes are, what a schema reads are values of its kinds; a release
      build never panics. */
  lemma DecodingIsTyped(debug: bool, ks: seq<Kind>, buf: seq<Byte>)
    requires forall k :: k in ks ==> IsData(k)
    ensures
      var r := TupleFrom(debug, ks, buf);
      (r.Ok? ==> HasKinds(r.value, ks)) && (!debug ==> !r.Panic?)
  {
    FieldsHaveKinds(debug, ks, buf, 0, false);
  }

  class Deserializer {
    const debug: bool
    const buf: seq<Byte>
    var pos: nat
    var rec: nat
    var seqOpen: bool

    ghost predicate Valid()
      reads this
    {
      pos <= |buf|
    }

    ghost predicate Started()
      reads this
    {
      pos != 0 || rec > 0
    }

    constructor (debug: bool, buf: seq<Byte>)
      ensures Valid() && this.debug == debug && this.buf == buf
      ensures pos == 0 && rec == 0 && !seqOpen
    {
      this.debug, this.buf := debug, buf;
      pos, rec, seqOpen := 0, 0, false;
    }

    method Finished() returns (ok: bool)
      requires Valid()
      ensures ok == FinishedAt(buf, pos)
    {
      var remain := |buf| - pos;
      ok := remain == 0 || (remain == 1 && buf[pos] == SEP);
    }

    method SequenceStart() returns (ok: bool)
      modifies this`seqOpen
      ensures ok == !(debug && old(seqOpen))
      ensures ok ==> seqOpen
    {
      ok := !(debug && seqOpen);
      if ok { seqOpen := true; }
    }

    method IncPos(n: nat)
      requires pos + n <= |buf|
      modifies this`pos
      ensures pos == old(pos) + n
    {
      pos := pos + n;
    }

    /** Consumes the current record: the bytes up to the next separator. */
    method RecordNext() returns (record: seq<Byte>)
      requires Valid()
      modifies this`pos
      ensures Valid() && pos == RecordEnd(buf, old(pos))
      ensures record == buf[old(pos)..pos]
    {
      var len := 0;
      while pos + len < |buf| && buf[pos + len] != SEP
        invariant pos + len <= |buf|
        invariant RecordEnd(buf, pos) == RecordEnd(buf, pos + len)
      {
        len := len + 1;
      }
      record := buf[pos..pos + len];
      IncPos(len);
    }

    /** Consumes everything that is left, separators included. */
    method RecordTrail() returns (record: seq<Byte>)
      requires Valid()
      modifies this`pos
      ensures Valid() && pos == |buf|
      ensures record == buf[old(pos)..]
    {
      record := buf[pos..];
      IncPos(|record|);
    }

    /** Consumes the separator in front of every record but the first. */
    method RecordStart() returns (ok: bool)
      requires Valid() && pos < |buf|
      modifies this`pos, this`rec
      ensures Valid()
      ensures ok == !(debug && old(Started()) && buf[old(pos)] != SEP)
      ensures ok ==> pos == (if old(Started()) then old(pos) + 1 else old(pos)) && rec == old(rec) + 1
      ensures !ok ==> pos == old(pos)
    {
      var started := pos != 0 || rec > 0;
      ok := !(debug && started && buf[pos] != SEP);
      if ok {
        IncPos(if started then 1 else 0);
        rec := rec + 1;
      }
    }

    method ReadU64() returns (ok: bool, n: nat)
      requires Valid()
      modifies this`pos
      ensures Valid() && ok == (old(pos) + 8 <= |buf|)
      ensures pos == if ok then old(pos) + 8 else old(pos)
      ensures ok ==> n == BitsAt(buf, old(pos))
    {
      var end := if pos + 8 < |buf| then pos + 8 else |buf|;
      var bytes := buf[pos..end];
      if |bytes| < 8 { return false, 0; }
      ok, n := true, BitsAt(buf, pos);
      IncPos(8);
    }

    /** Reads one value of kind k. The cursor only moves forward and stays in the buffer
        whatever the bytes are. */
    method Deserialize(k: Kind) returns (r: Outcome<Value>)
      requires Valid()
      modifies this`pos
      ensures Valid() && old(pos) <= pos
      ensures match ReadValue(k, seqOpen, buf, old(pos))
              case Failed => r == Err
              case Panicked => r == Panic
              case Got(v, next) => r == Ok(v) && pos == next
      decreases k
    {
      match k {
        case KStr =>
          var input := RecordNext();
          r := if Utf8(input) then Ok(Str(input)) else Err;
        case KU64 =>
          var ok, n := ReadU64();
          r := if ok then Ok(U64(n)) else Err;
        case KI64 =>
          var ok, n := ReadU64();
          r := if ok then Ok(I64(Signed(n))) else Err;
        case KBool =>
          if pos == |buf| { return Err; }
          r := Ok(Bool(buf[pos] != 0));
          IncPos(1);
        case KRaw =>
          var input := RecordTrail();
          r := Ok(Raw(input));
        case KOpt(inner) =>
          if pos == |buf| || buf[pos] == SEP {
            r := Ok(None);
          } else {
            r := Deserialize(inner);
            if r.Ok? { r := Ok(Some(r.value)); }
          }
        case Ignore =>
          if seqOpen { var _ := RecordNext(); } else { var _ := RecordTrail(); }
          r := Ok(Skipped);
        case IgnoreAll =>
          var _ := RecordTrail();
          r := Ok(Skipped);
      }
    }

    method NextElement(k: Kind) returns (r: Outcome<Value>)
      requires Valid() && seqOpen
      modifies this`pos, this`rec
      ensures Valid() && old(pos) <= pos
      ensures match ReadElement(debug, k, buf, old(pos), old(Started()))
              case Failed => r == Err
              case Panicked => r == Panic
              case Got(v, next) => r == Ok(v) && pos == next && rec > 0
    {
      if pos >= |buf| { return Err; }
      var ok := RecordStart();
      if !ok { return Panic; }
      r := Deserialize(k);
    }

    /** Reads a tuple. Within another sequence a debug build panics; a release build reads
        the fields as if they belonged to that sequence. */
    method DeserializeTuple(ks: seq<Kind>) returns (r: Outcome<seq<Value>>)
      requires Valid()
      modifies this
      ensures Valid() && old(pos) <= pos
      ensures if debug && old(seqOpen) then r == Panic && pos == old(pos)
              else match ReadFields(debug, ks, buf, old(pos), old(Started()))
                   case Broken => r == Err
                   case Aborted => r == Panic
                   case All(vs, end) => r == Ok(vs) && pos == end
    {
      var ok := SequenceStart();
      if !ok { return Panic; }
      var vs := [];
      ghost var whole := ReadFields(debug, ks, buf, pos, Started());
      BeforeNothing([], whole, pos);
      assert ks[0..] == ks;
      for i := 0 to |ks|
        invariant Valid() && seqOpen && old(pos) <= pos
        invariant Started() == (old(Started()) || i > 0)
        invariant whole == Before(vs, ReadFields(debug, ks[i..], buf, pos, Started()))
      {
        var element := NextElement(ks[i]);
        assert ks[i..][1..] == ks[i + 1..];
        match element {
          case Err => return Err;
          case Panic => return Panic;
          case Ok(v) =>
            BeforeTwice(vs, v, ReadFields(debug, ks[i + 1..], buf, pos, true));
            vs := vs + [v];
        }
      }
      BeforeNothing(vs, whole, pos);
      r := Ok(vs);
    }
  }

  /** Deserialization of a whole buffer as a tuple. */
  method TupleFromSlice(debug: bool, ks: seq<Kind>, buf: seq<Byte>) returns (r: Outcome<seq<Value>>)
    ensures r == TupleFrom(debug, ks, buf)
  {
    var deserializer := new Deserializer(debug, buf);
    r := deserializer.DeserializeTuple(ks);
    if debug && r.Ok? {
      var finished := deserializer.Finished();
      if !finished { r := Panic; }
    }
  }

  /** Deserialization of a whole buffer as one bare value. */
  method ValueFromSlice(debug: bool, k: Kind, buf: seq<Byte>) returns (r: Outcome<Value>)
    ensures r == ValueFrom(debug, k, buf)
  {
    var deserializer := new Deserializer(debug, buf);
    r := deserializer.Deserialize(k);
    if debug && r.Ok? {
      var finished := deserializer.Finished();
      if !finished { r := Panic; }
    }
  }
}
