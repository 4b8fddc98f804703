/** The values a record may hold, the kinds a schema may name, and the bytes that a
    record stands for. */
module Record {
  import opened Bytes

  datatype Value =
    | Str(text: seq<Byte>)
    | U64(n: nat)
    | I64(i: int)
    | Bool(b: bool)
    | Raw(bytes: seq<Byte>)
    | None
    | Some(value: Value)
    | Interfix    // written: ends a prefix key
    | Separator   // written: one extra separator
    | Skipped     // read: the unit result of Ignore and IgnoreAll

  datatype Kind = KStr | KU64 | KI64 | KBool | KRaw | KOpt(inner: Kind) | Ignore | IgnoreAll

  /** v is a value of the type that k stands for. */
  predicate HasKind(v: Value, k: Kind)
  {
    match k
    case KStr => v.Str? && Utf8(v.text)
    case KU64 => v.U64? && v.n < U64_LIMIT
    case KI64 => v.I64? && -I64_LIMIT <= v.i < I64_LIMIT
    case KBool => v.Bool?
    case KRaw => v.Raw?
    case KOpt(inner) => v.None? || (v.Some? && HasKind(v.value, inner))
    case Ignore => false
    case IgnoreAll => false
  }

  predicate HasKinds(vs: seq<Value>, ks: seq<Kind>)
  {
    |vs| == |ks| && forall j :: 0 <= j < |vs| ==> HasKind(vs[j], ks[j])
  }

  /** Two's complement of a 64-bit integer, and back. */
  function Unsigned(i: int): nat
    requires -I64_LIMIT <= i < I64_LIMIT
  {
    if i < 0 then i + U64_LIMIT else i
  }

  function Signed(n: nat): int
    requires n < U64_LIMIT
  {
    if n < I64_LIMIT then n else n - U64_LIMIT
  }

  function Encode(v: Value): seq<Byte>
  {
    match v
    case Str(text) => text
    case U64(n) => BigEndian(n, 8)
    case I64(i) => if -I64_LIMIT <= i < I64_LIMIT then BigEndian(Unsigned(i), 8) else []
    case Bool(b) => if b then [1] else [0]
    case Raw(bytes) => bytes
    case None => []
    case Some(value) => Encode(value)
    case Interfix => []
    case Separator => [SEP]
    case Skipped => []
  }

  /** The fields of a tuple, a separator between each two of them. */
  function EncodeTuple(vs: seq<Value>): seq<Byte>
  {
    if vs == [] then []
    else if |vs| == 1 then Encode(vs[0])
    else Encode(vs[0]) + [SEP] + EncodeTuple(vs[1..])
  }

  /** The elements of a sequence, nothing between them. */
  function EncodeSeq(vs: seq<Value>): seq<Byte>
  {
    if vs == [] then [] else EncodeSeq(vs[..|vs| - 1]) + Encode(vs[|vs| - 1])
  }

  /** The elements stand in their order, each as its own encoding. */
  lemma {:induction false} EncodeSeqJoined(vs: seq<Value>, ws: seq<Value>)
    ensures EncodeSeq(vs + ws) == EncodeSeq(vs) + EncodeSeq(ws)
    decreases |ws|
  {
    if ws == [] {
      assert vs + ws == vs;
    } else {
      var front, last := ws[..|ws| - 1], ws[|ws| - 1];
      EncodeSeqJoined(vs, front);
      assert (vs + ws)[..|vs + ws| - 1] == vs + front;
    }
  }

  lemma EncodeSeqOne(v: Value)
    ensures EncodeSeq([v]) == Encode(v)
  {
    assert [v][..0] == [];
  }

  lemma EncodeSeqAround(a: seq<Value>, v: Value, b: seq<Value>)
    ensures EncodeSeq(a + [v] + b) == EncodeSeq(a) + Encode(v) + EncodeSeq(b)
  {
    hide Encode, EncodeSeq;
    EncodeSeqJoined(a + [v], b);
    EncodeSeqJoined(a, [v]);
    EncodeSeqOne(v);
  }

  lemma SeqElementAt(vs: seq<Value>, i: nat)
    requires i < |vs|
    ensures EncodeSeq(vs) == EncodeSeq(vs[..i]) + Encode(vs[i]) + EncodeSeq(vs[i + 1..])
  {
    hide *;
    Around(vs, i);
    EncodeSeqAround(vs[..i], vs[i], vs[i + 1..]);
  }

  lemma Around(vs: seq<Value>, i: nat)
    requires i < |vs|
    ensures vs[..i] + [vs[i]] + vs[i + 1..] == vs
  {
  }

  lemma {:induction false} EncodeTupleSnoc(vs: seq<Value>, v: Value)
    requires vs != []
    ensures EncodeTuple(vs + [v]) == EncodeTuple(vs) + [SEP] + Encode(v)
  {
    if |vs| == 1 {
      assert (vs + [v])[1..] == [v];
    } else {
      assert (vs + [v])[1..] == vs[1..] + [v];
      EncodeTupleSnoc(vs[1..], v);
    }
  }
}
