/** What the serializer and the deserializer promise together: round trips, skipping,
    prefix keys and the order of keys. */
module Codec {
  import opened Bytes
  import opened Record
  import opened De

  // ----- One value -----

  /** v can be read back: raw bytes swallow what follows them, and an absent optional is
      told from a present one by its first byte. */
  predicate Readable(v: Value, last: bool)
  {
    match v
    case Raw(_) => last
    case Some(x) => Encode(x) != [] && Encode(x)[0] != SEP && Readable(x, last)
    case _ => true
  }

  /** The encoding of v stands at pos, up to a separator or the end of the buffer. */
  predicate StandsAt(buf: seq<Byte>, pos: nat, v: Value)
  {
    var end := pos + |Encode(v)|;
    end <= |buf| && buf[pos..end] == Encode(v) && (end == |buf| || buf[end] == SEP)
  }

  lemma IntegerBack(n: nat)
    requires n < U64_LIMIT
    ensures FromBigEndian(BigEndian(n, 8)) == n
  {
    Pow256Of8();
    BigEndianRoundTrip(n, 8);
  }

  lemma IntegerStands(n: nat, buf: seq<Byte>, pos: nat)
    requires n < U64_LIMIT && pos + 8 <= |buf| && buf[pos..pos + 8] == BigEndian(n, 8)
    ensures BitsAt(buf, pos) == n
  {
    hide BigEndian, FromBigEndian;
    IntegerBack(n);
  }

  lemma TextStands(inSeq: bool, text: seq<Byte>, buf: seq<Byte>, pos: nat)
    requires Utf8(text) && StandsAt(buf, pos, Str(text))
    ensures ReadValue(KStr, inSeq, buf, pos) == Got(Str(text), pos + |text|)
  {
    hide Utf8, RecordEnd;
    Utf8HasNoSep(text);
    RecordEndAt(buf, pos, pos + |text|);
  }

  lemma {:induction false} ReadBack(k: Kind, inSeq: bool, v: Value, buf: seq<Byte>, pos: nat)
    requires HasKind(v, k) && StandsAt(buf, pos, v)
    requires Readable(v, pos + |Encode(v)| == |buf|)
    ensures ReadValue(k, inSeq, buf, pos) == Got(v, pos + |Encode(v)|)
    decreases v
  {
    hide Utf8, RecordEnd, BigEndian, BitsAt;
    match v {
      case Str(text) => TextStands(inSeq, text, buf, pos);
      case U64(n) => IntegerStands(n, buf, pos);
      case I64(i) => IntegerStands(Unsigned(i), buf, pos);
      case Some(x) =>
        assert buf[pos] == Encode(x)[0];
        ReadBack(k.inner, inSeq, x, buf, pos);
      case _ => PlainStands(k, inSeq, v, buf, pos);
    }
  }

  lemma PlainStands(k: Kind, inSeq: bool, v: Value, buf: seq<Byte>, pos: nat)
    requires v.Raw? || v.Bool? || v.None?
    requires HasKind(v, k) && StandsAt(buf, pos, v) && Readable(v, pos + |Encode(v)| == |buf|)
    ensures ReadValue(k, inSeq, buf, pos) == Got(v, pos + |Encode(v)|)
  {
    match v {
      case Raw(bytes) => assert buf[pos..] == buf[pos..pos + |bytes|];
      case Bool(b) => assert buf[pos] == Encode(v)[0];
      case None => assert pos == |buf| || buf[pos] == SEP;
    }
  }

  lemma {:induction false} NotReadBack(k: Kind, inSeq: bool, v: Value, buf: seq<Byte>, pos: nat)
    requires HasKind(v, k) && StandsAt(buf, pos, v)
    requires !Readable(v, pos + |Encode(v)| == |buf|)
    ensures ReadValue(k, inSeq, buf, pos).Got? ==> ReadValue(k, inSeq, buf, pos).v != v
    decreases v
  {
    match v {
      case Raw(bytes) => assert |buf[pos..]| > |bytes|;
      case Some(x) =>
        if Encode(x) != [] && Encode(x)[0] != SEP {
          NotReadBack(k.inner, inSeq, x, buf, pos);
        }
    }
  }

  // ----- A tuple -----

  /** What is left of the buffer at pos is the encoding of vs, after a separator if
      fields were read before. */
  predicate RestIs(buf: seq<Byte>, pos: nat, started: bool, vs: seq<Value>)
  {
    if started then pos < |buf| && buf[pos] == SEP && buf[pos + 1..] == EncodeTuple(vs)
    else pos <= |buf| && buf[pos..] == EncodeTuple(vs)
  }

  lemma PeelField(buf: seq<Byte>, pos: nat, started: bool, vs: seq<Value>)
    requires vs != [] && RestIs(buf, pos, started, vs)
    ensures
      var start := if started then pos + 1 else pos;
      var end := start + |Encode(vs[0])|;
      && StandsAt(buf, start, vs[0])
      && (|vs| == 1 <==> end == |buf|)
      && (|vs| > 1 ==> RestIs(buf, end, true, vs[1..]))
  {
    var start := if started then pos + 1 else pos;
    var e := Encode(vs[0]);
    SliceAt(buf, start, |e|);
    if |vs| > 1 {
      var tail := EncodeTuple(vs[1..]);
      assert (e + [SEP] + tail)[|e|] == SEP;
      assert buf[start + |e|] == buf[start..][|e|];
      SliceAt(buf, start, |e| + 1);
      assert (e + [SEP] + tail)[|e| + 1..] == tail;
    }
  }

  lemma SliceAt(buf: seq<Byte>, start: nat, n: nat)
    requires start + n <= |buf|
    ensures buf[start..start + n] == buf[start..][..n]
    ensures buf[start + n..] == buf[start..][n..]
  {
  }

  /** Kind k reads the written value v as w. */
  predicate ReadsField(k: Kind, v: Value, w: Value, last: bool)
  {
    || (HasKind(v, k) && Readable(v, last) && w == v)
    || (k == Ignore && SEP !in Encode(v) && w == Skipped)
  }

  /** The schema ks reads the written tuple vs as ws. */
  predicate ReadsAs(ks: seq<Kind>, vs: seq<Value>, ws: seq<Value>)
  {
    if ks == [] || vs == [] || ws == [] then ks == [] && vs == [] && ws == []
    else if ks[0] == IgnoreAll then |ks| == 1 && ws == [Skipped]
    else ReadsField(ks[0], vs[0], ws[0], |vs| == 1) && ReadsAs(ks[1..], vs[1..], ws[1..])
  }

  lemma RecordIsField(e: seq<Byte>, buf: seq<Byte>, start: nat)
    requires start + |e| <= |buf| && buf[start..start + |e|] == e
    requires start + |e| == |buf| || buf[start + |e|] == SEP
    ensures RecordEnd(buf, start) == start + |e| <==> SEP !in e
  {
    if SEP !in e { RecordEndAt(buf, start, start + |e|); }
  }

  lemma ReadElementAs(debug: bool, k: Kind, vs: seq<Value>, w: Value, buf: seq<Byte>, pos: nat, started: bool)
    returns (end: nat)
    requires vs != [] && RestIs(buf, pos, started, vs) && pos < |buf|
    requires ReadsField(k, vs[0], w, |vs| == 1)
    ensures ReadElement(debug, k, buf, pos, started) == Got(w, end)
    ensures end <= |buf| && (|vs| == 1 <==> end == |buf|)
    ensures |vs| > 1 ==> RestIs(buf, end, true, vs[1..])
  {
    hide Encode, EncodeTuple, RecordEnd, HasKind, Readable, ReadElement, ReadValue;
    PeelField(buf, pos, started, vs);
    ElementIsValue(debug, k, buf, pos, started);
    var start := if started then pos + 1 else pos;
    end := start + |Encode(vs[0])|;
    if HasKind(vs[0], k) && Readable(vs[0], |vs| == 1) && w == vs[0] {
      ReadBack(k, true, vs[0], buf, start);
    } else {
      RecordIsField(Encode(vs[0]), buf, start);
      IgnoreReads(buf, start);
    }
  }

  lemma ElementIsValue(debug: bool, k: Kind, buf: seq<Byte>, pos: nat, started: bool)
    requires pos < |buf| && (started ==> buf[pos] == SEP)
    ensures ReadElement(debug, k, buf, pos, started) == ReadValue(k, true, buf, if started then pos + 1 else pos)
  {
    hide ReadValue;
  }

  lemma IgnoreReads(buf: seq<Byte>, pos: nat)
    requires pos <= |buf|
    ensures ReadValue(Ignore, true, buf, pos) == Got(Skipped, RecordEnd(buf, pos))
  {
    hide RecordEnd;
  }

  lemma ReadOne(debug: bool, k: Kind, ks: seq<Kind>, buf: seq<Byte>, pos: nat, started: bool)
    requires pos <= |buf| && ReadElement(debug, k, buf, pos, started).Got?
    ensures
      var r := ReadElement(debug, k, buf, pos, started);
      ReadFields(debug, [k] + ks, buf, pos, started) == Before([r.v], ReadFields(debug, ks, buf, r.pos, true))
  {
    hide ReadElement;
    assert ([k] + ks)[1..] == ks;
  }

  lemma {:induction false} ReadFieldsAs(debug: bool, ks: seq<Kind>, vs: seq<Value>, ws: seq<Value>,
                                        buf: seq<Byte>, pos: nat, started: bool)
    requires ks != [] && ReadsAs(ks, vs, ws)
    requires RestIs(buf, pos, started, vs) && pos < |buf|
    ensures ReadFields(debug, ks, buf, pos, started) == All(ws, |buf|)
  {
    hide Encode, EncodeTuple, ReadElement, ReadFields, ReadsField, RestIs, Before;
    if ks[0] == IgnoreAll {
      assert ks == [IgnoreAll];
      ReadTheRest(debug, vs, buf, pos, started);
    } else {
      var end := ReadElementAs(debug, ks[0], vs, ws[0], buf, pos, started);
      assert ks == [ks[0]] + ks[1..] && ws == [ws[0]] + ws[1..];
      ReadOne(debug, ks[0], ks[1..], buf, pos, started);
      if |vs| > 1 {
        ReadFieldsAs(debug, ks[1..], vs[1..], ws[1..], buf, end, true);
        BeforeAll([ws[0]], ws[1..], |buf|);
      } else {
        ReadNone(debug, buf, end);
        BeforeAll([ws[0]], [], |buf|);
      }
    }
  }

  lemma BeforeAll(vs: seq<Value>, ws: seq<Value>, pos: nat)
    ensures Before(vs, All(ws, pos)) == All(vs + ws, pos)
  {
  }

  lemma ReadNone(debug: bool, buf: seq<Byte>, pos: nat)
    requires pos <= |buf|
    ensures ReadFields(debug, [], buf, pos, true) == All([], pos)
  {
  }

  lemma ReadTheRest(debug: bool, vs: seq<Value>, buf: seq<Byte>, pos: nat, started: bool)
    requires vs != [] && RestIs(buf, pos, started, vs) && pos < |buf|
    ensures ReadFields(debug, [IgnoreAll], buf, pos, started) == All([Skipped], |buf|)
  {
    hide EncodeTuple;
    OneField(debug, IgnoreAll, buf, pos, started);
  }

  /** Reading a whole buffer: the fields come out and nothing is left over. */
  lemma TupleReadsAs(debug: bool, ks: seq<Kind>, vs: seq<Value>, ws: seq<Value>)
    requires ks != [] && ReadsAs(ks, vs, ws) && EncodeTuple(vs) != []
    ensures TupleFrom(debug, ks, EncodeTuple(vs)) == Ok(ws)
  {
    var buf := EncodeTuple(vs);
    assert buf[0..] == EncodeTuple(vs);
    ReadFieldsAs(debug, ks, vs, ws, buf, 0, false);
  }

  /** Exactly the tuples that a schema gets back. */
  predicate CanReadBack(vs: seq<Value>)
  {
    && (|vs| == 1 ==> Encode(vs[0]) != [])
    && forall j :: 0 <= j < |vs| ==> Readable(vs[j], j == |vs| - 1)
  }

  lemma UnreadableElement(debug: bool, k: Kind, vs: seq<Value>, buf: seq<Byte>, pos: nat, started: bool)
    requires vs != [] && RestIs(buf, pos, started, vs)
    requires HasKind(vs[0], k) && !Readable(vs[0], |vs| == 1)
    ensures
      var r := ReadElement(debug, k, buf, pos, started);
      r.Got? ==> r.v != vs[0]
  {
    PeelField(buf, pos, started, vs);
    NotReadBack(k, true, vs[0], buf, if started then pos + 1 else pos);
  }

  lemma {:induction false} UnreadableField(debug: bool, ks: seq<Kind>, vs: seq<Value>,
                                           buf: seq<Byte>, pos: nat, started: bool, j: nat)
    requires HasKinds(vs, ks) && j < |vs| && !Readable(vs[j], j == |vs| - 1)
    requires RestIs(buf, pos, started, vs) && pos < |buf|
    ensures
      var r := ReadFields(debug, ks, buf, pos, started);
      r.All? ==> r.vs != vs
    decreases |vs|
  {
    if !Readable(vs[0], |vs| == 1) {
      UnreadableElement(debug, ks[0], vs, buf, pos, started);
    } else {
      var end := ReadElementAs(debug, ks[0], vs, vs[0], buf, pos, started);
      UnreadableField(debug, ks[1..], vs[1..], buf, end, true, j - 1);
      var rest := ReadFields(debug, ks[1..], buf, end, true);
      if rest.All? { assert ([vs[0]] + rest.vs)[1..] == rest.vs; }
    }
  }

  /** Round trip, in both builds: a tuple is read back, with nothing left over, if and
      only if it is not one empty field, raw bytes come last only, and every present
      optional begins with a byte that is not the separator. */
  lemma RoundTrip(debug: bool, ks: seq<Kind>, vs: seq<Value>)
    requires HasKinds(vs, ks)
    ensures TupleFrom(debug, ks, EncodeTuple(vs)) == Ok(vs) <==> CanReadBack(vs)
  {
    var buf := EncodeTuple(vs);
    if vs != [] {
      assert buf[0..] == EncodeTuple(vs);
      if CanReadBack(vs) {
        ReadsFieldwise(ks, vs, vs);
        TupleReadsAs(debug, ks, vs, vs);
      } else if buf != [] {
        var j :| 0 <= j < |vs| && !Readable(vs[j], j == |vs| - 1);
        UnreadableField(debug, ks, vs, buf, 0, false, j);
      }
    }
  }

  /** No two tuples that can be read back share an encoding. */
  lemma EncodingIsInjective(ks: seq<Kind>, vs: seq<Value>, ws: seq<Value>)
    requires HasKinds(vs, ks) && HasKinds(ws, ks)
    requires CanReadBack(vs) && CanReadBack(ws)
    requires EncodeTuple(vs) == EncodeTuple(ws)
    ensures vs == ws
  {
    RoundTrip(false, ks, vs);
    RoundTrip(false, ks, ws);
  }

  /** A bare value is read back under the same conditions on itself. */
  lemma BareRoundTrip(debug: bool, k: Kind, v: Value)
    requires HasKind(v, k)
    ensures ValueFrom(debug, k, Encode(v)) == Ok(v) <==> Readable(v, true)
  {
    var buf := Encode(v);
    assert buf[0..|buf|] == buf;
    if Readable(v, true) {
      ReadBack(k, false, v, buf, 0);
    } else {
      NotReadBack(k, false, v, buf, 0);
    }
  }

  // ----- The format, by hand -----

  /** Every kind of value, and the bytes that stand for it. */
  lemma EncodingsByHand()
    ensures Encode(Str([0x40, 0x75])) == [0x40, 0x75] && Encode(Raw([0xFF, 0])) == [0xFF, 0]
    ensures Encode(U64(0x0102_0304_0506_0708)) == [1, 2, 3, 4, 5, 6, 7, 8]
    ensures Encode(I64(-2)) == [0xFF, 0xFF, 0xFF, 0xFF, 0xFF, 0xFF, 0xFF, 0xFE]
    ensures Encode(Bool(true)) == [1] && Encode(Bool(false)) == [0]
    ensures Encode(None) == [] && Encode(Some(Bool(true))) == [1]
    ensures Encode(Interfix) == [] && Encode(Separator) == [0xFF]
  {
    hide BigEndian;
    CountingBytes();
    MinusTwo();
  }

  lemma CountingBytes()
    ensures BigEndian(0x0102_0304_0506_0708, 8) == [1, 2, 3, 4, 5, 6, 7, 8]
  {
    assert BigEndian(0x0102, 2) == [1, 2];
    assert BigEndian(0x0102_0304, 4) == [1, 2, 3, 4];
    assert BigEndian(0x0102_0304_0506, 6) == [1, 2, 3, 4, 5, 6];
  }

  lemma MinusTwo()
    ensures BigEndian(0xFFFF_FFFF_FFFF_FFFE, 8) == [0xFF, 0xFF, 0xFF, 0xFF, 0xFF, 0xFF, 0xFF, 0xFE]
  {
    assert BigEndian(0xFFFF, 2) == [0xFF, 0xFF];
    assert BigEndian(0xFFFF_FFFF, 4) == [0xFF, 0xFF, 0xFF, 0xFF];
    assert BigEndian(0xFFFF_FFFF_FFFF, 6) == [0xFF, 0xFF, 0xFF, 0xFF, 0xFF, 0xFF];
  }

  /** Any byte but zero is read as true. */
  lemma BoolBytes(debug: bool, b: Byte)
    ensures TupleFrom(debug, [KBool], [b]) == Ok([Bool(b != 0)])
  {
    OneField(debug, KBool, [b], 0, false);
  }

  /** Fields are separated, and nothing else is added. */
  lemma TuplesByHand()
    ensures EncodeTuple([Str([0x21]), Str([0x40])]) == [0x21, 0xFF, 0x40]
    ensures EncodeTuple([Str([0x21]), None]) == [0x21, 0xFF] && EncodeTuple([None, Str([0x40])]) == [0xFF, 0x40]
    ensures EncodeTuple([None, None, None]) == [0xFF, 0xFF] && EncodeTuple([Str([0x21]), Interfix]) == [0x21, 0xFF]
    ensures EncodeSeq([Str([1]), Str([2])]) == [1, 2]
  {
    forall a: Value, b: Value, c: Value
      ensures [a, b, c][1..] == [b, c] && [b, c][1..] == [c] && [b, c][..1] == [b] && [b][..0] == []
    {
    }
  }

  // ----- Missing fields, and bytes that nobody encoded -----

  /** Reading more fields after some of them. */
  lemma {:induction false} ReadFieldsJoined(debug: bool, ks: seq<Kind>, more: seq<Kind>,
                                            buf: seq<Byte>, pos: nat, started: bool)
    requires pos <= |buf|
    ensures
      var r := ReadFields(debug, ks, buf, pos, started);
      ReadFields(debug, ks + more, buf, pos, started) ==
        if r.All? then Before(r.vs, ReadFields(debug, more, buf, r.pos, started || ks != [])) else r
  {
    hide ReadElement, Before;
    if ks == [] {
      assert ks + more == more;
      BeforeNothing([], ReadFields(debug, more, buf, pos, started), pos);
    } else {
      assert (ks + more)[0] == ks[0] && (ks + more)[1..] == ks[1..] + more;
      var e := ReadElement(debug, ks[0], buf, pos, started);
      if e.Got? {
        ReadFieldsJoined(debug, ks[1..], more, buf, e.pos, true);
        var r := ReadFields(debug, ks[1..], buf, e.pos, true);
        BeforeThese([e.v], r);
        if r.All? { BeforeJoined([e.v], r.vs, ReadFields(debug, more, buf, r.pos, true)); }
      }
    }
  }

  lemma BeforeThese(vs: seq<Value>, r: Fields)
    ensures Before(vs, r) == if r.All? then All(vs + r.vs, r.pos) else r
  {
  }

  lemma NothingToRead(debug: bool, ks: seq<Kind>, buf: seq<Byte>, started: bool)
    requires ks != []
    ensures ReadFields(debug, ks, buf, |buf|, started) == Broken
  {
  }

  /** A record with fewer fields than the schema is an error, whatever kinds are missing:
      also an optional, and also one that would be skipped. */
  lemma MissingFieldsAreErrors(debug: bool, ks: seq<Kind>, more: seq<Kind>, vs: seq<Value>)
    requires HasKinds(vs, ks) && CanReadBack(vs) && more != []
    ensures TupleFrom(debug, ks + more, EncodeTuple(vs)) == Err
  {
    hide ReadFields, EncodeTuple, CanReadBack, HasKinds, Before;
    var buf := EncodeTuple(vs);
    ReadFieldsJoined(debug, ks, more, buf, 0, false);
    NothingToRead(debug, more, buf, ks != []);
    ReadsAll(debug, ks, vs);
    BeforeThese(vs, Broken);
  }

  /** What can be read back is read to the end of the buffer. */
  lemma ReadsAll(debug: bool, ks: seq<Kind>, vs: seq<Value>)
    requires HasKinds(vs, ks) && CanReadBack(vs)
    ensures ReadFields(debug, ks, EncodeTuple(vs), 0, false) == All(vs, |EncodeTuple(vs)|)
  {
    var buf := EncodeTuple(vs);
    if vs != [] {
      assert buf[0..] == EncodeTuple(vs);
      ReadsFieldwise(ks, vs, vs);
      ReadFieldsAs(debug, ks, vs, vs, buf, 0, false);
    }
  }

  /** From start to end stand the texts vs, up to a separator or the end of the buffer. */
  predicate TextsStand(ks: seq<Kind>, vs: seq<Value>, buf: seq<Byte>, start: nat, end: nat)
  {
    && HasKinds(vs, ks) && start <= end <= |buf|
    && buf[start..end] == EncodeTuple(vs) && (end == |buf| || buf[end] == SEP)
  }

  lemma TextElement(debug: bool, buf: seq<Byte>, pos: nat, started: bool)
    requires pos < |buf| && (started ==> buf[pos] == SEP)
    ensures
      var start := if started then pos + 1 else pos;
      var end := RecordEnd(buf, start);
      ReadElement(debug, KStr, buf, pos, started)
        == if Utf8(buf[start..end]) then Got(Str(buf[start..end]), end) else Failed
  {
    hide RecordEnd, Utf8;
  }

  lemma TailHasKinds(ks: seq<Kind>, v: Value, rest: seq<Value>)
    requires ks != []
    ensures HasKinds([v] + rest, ks) <==> HasKind(v, ks[0]) && HasKinds(rest, ks[1..])
    ensures HasKinds([v] + rest, ks) ==> |rest| == |ks| - 1
    ensures rest == [] && |ks| == 1 ==> HasKinds(rest, ks[1..])
  {
    hide HasKind;
    var vs := [v] + rest;
    assert vs[0] == v && forall j :: 0 <= j < |rest| ==> rest[j] == vs[j + 1];
    if HasKinds(vs, ks) {
      forall j | 0 <= j < |rest| ensures HasKind(rest[j], ks[1..][j]) { assert HasKind(vs[j + 1], ks[j + 1]); }
    }
    if HasKind(v, ks[0]) && HasKinds(rest, ks[1..]) {
      forall j | 0 <= j < |vs| ensures HasKind(vs[j], ks[j]) {
        if j > 0 { assert HasKind(rest[j - 1], ks[1..][j - 1]); }
      }
    }
  }

  /** The first text and those after it. */
  predicate FirstAndRest(ks: seq<Kind>, v: Value, rest: seq<Value>, buf: seq<Byte>, start: nat, end: nat)
    requires ks != [] && start <= |buf|
  {
    var e := RecordEnd(buf, start);
    && v == Str(buf[start..e]) && Utf8(buf[start..e]) && |rest| == |ks| - 1
    && if rest == [] then end == e else e < |buf| && TextsStand(ks[1..], rest, buf, e + 1, end)
  }

  lemma TextsStandCons(ks: seq<Kind>, v: Value, rest: seq<Value>, buf: seq<Byte>, start: nat, end: nat)
    requires ks != [] && ks[0] == KStr && start <= |buf|
    ensures TextsStand(ks, [v] + rest, buf, start, end) <==> FirstAndRest(ks, v, rest, buf, start, end)
  {
    hide Utf8, RecordEnd, HasKinds, EncodeTuple;
    TailHasKinds(ks, v, rest);
    if TextsStand(ks, [v] + rest, buf, start, end) { FirstText(v.text, rest, buf, start, end); }
    if FirstAndRest(ks, v, rest, buf, start, end) {
      TextsJoined(buf, start, RecordEnd(buf, start), end, rest);
    }
  }

  lemma TextsJoined(buf: seq<Byte>, start: nat, e: nat, end: nat, rest: seq<Value>)
    requires start <= e <= |buf| && if rest == [] then end == e else e < end <= |buf| && buf[e] == SEP
    requires rest != [] ==> buf[e + 1..end] == EncodeTuple(rest)
    ensures buf[start..end] == EncodeTuple([Str(buf[start..e])] + rest)
  {
    var vs := [Str(buf[start..e])] + rest;
    assert vs[1..] == rest;
    if rest != [] { assert buf[start..end] == buf[start..e] + [SEP] + buf[e + 1..end]; }
  }

  lemma FirstText(text: seq<Byte>, rest: seq<Value>, buf: seq<Byte>, start: nat, end: nat)
    requires start <= end <= |buf| && (end == |buf| || buf[end] == SEP) && Utf8(text)
    requires buf[start..end] == EncodeTuple([Str(text)] + rest)
    ensures var e := start + |text|;
      && e <= |buf| && RecordEnd(buf, start) == e && buf[start..e] == text
      && if rest == [] then end == e else e < end && buf[e + 1..end] == EncodeTuple(rest)
  {
    hide Utf8, RecordEnd;
    Utf8HasNoSep(text);
    var vs := [Str(text)] + rest;
    assert vs[1..] == rest;
    var e := start + |text|;
    assert text <= EncodeTuple(vs);
    assert buf[start..e] == buf[start..end][..|text|];
    if rest != [] {
      assert EncodeTuple(vs)[|text|] == SEP && EncodeTuple(vs)[|text| + 1..] == EncodeTuple(rest);
      assert buf[e + 1..end] == buf[start..end][|text| + 1..];
    }
    RecordEndAt(buf, start, e);
  }

  lemma {:induction false} ReadTextsIff(debug: bool, ks: seq<Kind>, vs: seq<Value>,
                                        buf: seq<Byte>, pos: nat, started: bool, end: nat)
    requires ks != [] && (forall k :: k in ks ==> k == KStr)
    requires pos <= |buf| && (started ==> pos == |buf| || buf[pos] == SEP)
    ensures ReadFields(debug, ks, buf, pos, started) == All(vs, end)
       <==> pos < |buf| && TextsStand(ks, vs, buf, if started then pos + 1 else pos, end)
    decreases |ks|
  {
    hide ReadElement, TextsStand, Utf8, RecordEnd, Before, ReadFields;
    TextsCounted(ks, vs, buf, if started then pos + 1 else pos, end);
    if pos == |buf| {
      NothingToRead(debug, ks, buf, started);
    } else if vs != [] {
      var start := if started then pos + 1 else pos;
      var e := RecordEnd(buf, start);
      assert ks[0] in ks && forall k :: k in ks[1..] ==> k in ks;
      TextElement(debug, buf, pos, started);
      TextsStandCons(ks, vs[0], vs[1..], buf, start, end);
      assert vs == [vs[0]] + vs[1..] && ks == [KStr] + ks[1..];
      if Utf8(buf[start..e]) {
        var rest := ReadFields(debug, ks[1..], buf, e, true);
        ReadOne(debug, KStr, ks[1..], buf, pos, started);
        BeforeThese([Str(buf[start..e])], rest);
        if |ks| == 1 {
          ReadNone(debug, buf, e);
        } else {
          ReadTextsIff(debug, ks[1..], vs[1..], buf, e, true, end);
          TextsCounted(ks[1..], vs[1..], buf, e + 1, end);
        }
      } else {
        FailedAtOnce(debug, ks, buf, pos, started);
      }
    }
  }

  lemma TextsCounted(ks: seq<Kind>, vs: seq<Value>, buf: seq<Byte>, start: nat, end: nat)
    ensures TextsStand(ks, vs, buf, start, end) ==> |vs| == |ks|
  {
  }

  lemma FailedAtOnce(debug: bool, ks: seq<Kind>, buf: seq<Byte>, pos: nat, started: bool)
    requires ks != [] && pos <= |buf| && ReadElement(debug, ks[0], buf, pos, started).Failed?
    ensures ReadFields(debug, ks, buf, pos, started) == Broken
  {
  }

  /** Decoding texts is splitting at separators, on any bytes: it yields exactly the texts
      that the buffer begins with, one for each field, up to its end or a separator, beyond
      which a debug build accepts nothing. */
  lemma TextsAreSplit(debug: bool, ks: seq<Kind>, vs: seq<Value>, buf: seq<Byte>)
    requires ks != [] && forall k :: k in ks ==> k == KStr
    ensures TupleFrom(debug, ks, buf) == Ok(vs) <==>
      && HasKinds(vs, ks) && buf != [] && EncodeTuple(vs) <= buf
      && var rest := buf[|EncodeTuple(vs)|..];
         (rest == [] || rest[0] == SEP) && (debug ==> |rest| <= 1)
  {
    hide ReadFields, EncodeTuple, HasKinds;
    var r := ReadFields(debug, ks, buf, 0, false);
    if r.All? { ReadTextsIff(debug, ks, r.vs, buf, 0, false, r.pos); }
    ReadTextsIff(debug, ks, vs, buf, 0, false, |EncodeTuple(vs)|);
    assert forall n: nat :: n <= |buf| ==> buf[0..n] == buf[..n];
  }

  // ----- Skipping -----

  /** The schema that ignores the fields of ks at the positions in skip. */
  function SkipKinds(ks: seq<Kind>, skip: set<nat>): (r: seq<Kind>)
    ensures |r| == |ks|
    ensures forall j :: 0 <= j < |r| ==> r[j] == if j in skip then Ignore else ks[j]
  {
    seq(|ks|, j requires 0 <= j < |ks| => if j in skip then Ignore else ks[j])
  }

  /** The values vs with the results of Ignore at the positions in skip. */
  function SkipValues(vs: seq<Value>, skip: set<nat>): (r: seq<Value>)
    ensures |r| == |vs|
    ensures forall j :: 0 <= j < |r| ==> r[j] == if j in skip then Skipped else vs[j]
  {
    seq(|vs|, j requires 0 <= j < |vs| => if j in skip then Skipped else vs[j])
  }

  lemma {:induction false} ReadsFieldwise(ks: seq<Kind>, vs: seq<Value>, ws: seq<Value>)
    requires |ks| == |vs| == |ws|
    requires forall j :: 0 <= j < |vs| ==> ks[j] != IgnoreAll && ReadsField(ks[j], vs[j], ws[j], j == |vs| - 1)
    ensures ReadsAs(ks, vs, ws)
  {
    if vs != [] {
      assert ks[0] != IgnoreAll && ReadsField(ks[0], vs[0], ws[0], 0 == |vs| - 1);
      ReadsFieldwise(ks[1..], vs[1..], ws[1..]);
    }
  }

  /** Reading any set of separator-free fields as Ignore leaves the other fields as they
      were, with nothing left over. What is skipped need not be readable, nor of the kind
      that the schema named. */
  lemma SkipFields(debug: bool, ks: seq<Kind>, vs: seq<Value>, skip: set<nat>)
    requires |ks| == |vs| && EncodeTuple(vs) != []
    requires forall j :: 0 <= j < |vs| && j !in skip ==>
      ks[j] != IgnoreAll && HasKind(vs[j], ks[j]) && Readable(vs[j], j == |vs| - 1)
    requires forall j :: j in skip && j < |vs| ==> SEP !in Encode(vs[j])
    ensures TupleFrom(debug, SkipKinds(ks, skip), EncodeTuple(vs)) == Ok(SkipValues(vs, skip))
  {
    ReadsFieldwise(SkipKinds(ks, skip), vs, SkipValues(vs, skip));
    TupleReadsAs(debug, SkipKinds(ks, skip), vs, SkipValues(vs, skip));
  }

  /** Ignore consumes one field, no less, if and only if its encoding holds no separator. */
  lemma IgnoreIsOneField(debug: bool, vs: seq<Value>, buf: seq<Byte>, pos: nat, started: bool)
    requires vs != [] && RestIs(buf, pos, started, vs) && pos < |buf|
    ensures
      var end := (if started then pos + 1 else pos) + |Encode(vs[0])|;
      ReadElement(debug, Ignore, buf, pos, started) == Got(Skipped, end) <==> SEP !in Encode(vs[0])
  {
    hide Encode, EncodeTuple, RecordEnd;
    PeelField(buf, pos, started, vs);
    RecordIsField(Encode(vs[0]), buf, if started then pos + 1 else pos);
  }

  /** Outside a tuple Ignore skips everything, separators included. */
  lemma BareIgnoreIsAll(debug: bool, buf: seq<Byte>)
    ensures ValueFrom(debug, Ignore, buf) == Ok(Skipped) && ValueFrom(debug, IgnoreAll, buf) == Ok(Skipped)
    ensures ReadValue(Ignore, false, buf, 0) == Got(Skipped, |buf|)
  {
  }

  lemma BeforeJoined(vs: seq<Value>, ws: seq<Value>, rest: Fields)
    ensures Before(vs, Before(ws, rest)) == Before(vs + ws, rest)
  {
    if rest.All? { assert vs + (ws + rest.vs) == vs + ws + rest.vs; }
  }

  /** Reading leading fields gets the cursor to the fields after them. */
  lemma {:induction false} ReadLead(debug: bool, ks: seq<Kind>, more: seq<Kind>, lead: seq<Value>, rest: seq<Value>,
                                    buf: seq<Byte>, pos: nat, started: bool) returns (end: nat)
    requires HasKinds(lead, ks) && forall j :: 0 <= j < |lead| ==> Readable(lead[j], false)
    requires rest != [] && RestIs(buf, pos, started, lead + rest) && pos < |buf|
    ensures end <= |buf| && RestIs(buf, end, started || lead != [], rest) && (lead == [] ==> end == pos)
    ensures ReadFields(debug, ks + more, buf, pos, started)
         == Before(lead, ReadFields(debug, more, buf, end, started || lead != []))
    decreases |lead|
  {
    hide ReadFields, ReadElement, EncodeTuple, HasKind, Readable, Before;
    if lead == [] {
      end := pos;
      assert lead + rest == rest && ks + more == more;
      BeforeNothing([], ReadFields(debug, more, buf, pos, started), pos);
    } else {
      var vs := lead + rest;
      assert vs[1..] == lead[1..] + rest && ks + more == [ks[0]] + (ks[1..] + more);
      var next := ReadElementAs(debug, ks[0], vs, vs[0], buf, pos, started);
      ReadOne(debug, ks[0], ks[1..] + more, buf, pos, started);
      end := ReadLead(debug, ks[1..], more, lead[1..], rest, buf, next, true);
      BeforeJoined([lead[0]], lead[1..], ReadFields(debug, more, buf, end, true));
      assert [lead[0]] + lead[1..] == lead;
    }
  }

  /** What Ignore and a string read from a field v and the text after it, when v holds a
      separator: the string lies within v, whatever the text is. */
  function InnerText(v: Value): seq<Byte>
  {
    var e := Encode(v);
    var p := RecordEnd(e, 0);
    if p < |e| then e[p + 1..RecordEnd(e, p + 1)] else []
  }

  lemma HoldsSep(e: seq<Byte>)
    requires SEP in e
    ensures RecordEnd(e, 0) < |e| && e[RecordEnd(e, 0)] == SEP
  {
    assert e[0..|e|] == e;
  }

  lemma IgnoreGets(debug: bool, v: Value, t: seq<Byte>, buf: seq<Byte>, pos: nat, started: bool) returns (start: nat)
    requires RestIs(buf, pos, started, [v, Str(t)]) && pos < |buf| && SEP in Encode(v)
    ensures StandsAt(buf, start, v) && start + |Encode(v)| < |buf|
    ensures ReadElement(debug, Ignore, buf, pos, started) == Got(Skipped, start + RecordEnd(Encode(v), 0))
  {
    hide EncodeTuple, Encode, RecordEnd;
    PeelField(buf, pos, started, [v, Str(t)]);
    start := if started then pos + 1 else pos;
    WithinField(buf, start, Encode(v), 0);
  }

  lemma StopsInside(debug: bool, v: Value, t: seq<Byte>, buf: seq<Byte>, pos: nat, started: bool)
    requires RestIs(buf, pos, started, [v, Str(t)]) && pos < |buf| && SEP in Encode(v)
    ensures
      var r := ReadFields(debug, [Ignore, KStr], buf, pos, started);
      r.All? ==> r.vs == [Skipped, Str(InnerText(v))]
  {
    hide EncodeTuple, Encode, RecordEnd, ReadFields, ReadElement, InnerText;
    var start := IgnoreGets(debug, v, t, buf, pos, started);
    HoldsSep(Encode(v));
    assert [Ignore] + [KStr] == [Ignore, KStr];
    ReadOne(debug, Ignore, [KStr], buf, pos, started);
    ReadInnerText(debug, v, buf, start);
  }

  lemma TextAt(debug: bool, buf: seq<Byte>, at: nat)
    requires at < |buf| && buf[at] == SEP
    ensures
      var r := ReadFields(debug, [KStr], buf, at, true);
      r.All? ==> r.vs == [Str(buf[at + 1..RecordEnd(buf, at + 1)])]
  {
    hide RecordEnd;
    if ReadElement(debug, KStr, buf, at, true).Got? {
      OneField(debug, KStr, buf, at, true);
    } else {
      NoField(debug, KStr, buf, at, true);
    }
  }

  lemma ReadInnerText(debug: bool, v: Value, buf: seq<Byte>, start: nat)
    requires StandsAt(buf, start, v) && SEP in Encode(v) && start + |Encode(v)| < |buf|
    ensures RecordEnd(Encode(v), 0) < |Encode(v)|
    ensures
      var r := ReadFields(debug, [KStr], buf, start + RecordEnd(Encode(v), 0), true);
      r.All? ==> r.vs == [Str(InnerText(v))]
  {
    hide Encode, RecordEnd, ReadFields, EncodeTuple;
    InnerAt(debug, Encode(v), buf, start);
  }

  lemma InnerAt(debug: bool, e: seq<Byte>, buf: seq<Byte>, start: nat)
    requires SEP in e && start + |e| < |buf| && buf[start..start + |e|] == e && buf[start + |e|] == SEP
    ensures RecordEnd(e, 0) < |e|
    ensures
      var p := RecordEnd(e, 0);
      var r := ReadFields(debug, [KStr], buf, start + p, true);
      r.All? ==> r.vs == [Str(e[p + 1..RecordEnd(e, p + 1)])]
  {
    hide RecordEnd, ReadFields;
    HoldsSep(e);
    var p := RecordEnd(e, 0);
    var q := RecordEnd(e, p + 1);
    WithinField(buf, start, e, p + 1);
    Slice(buf, start, e, 0, p);
    Slice(buf, start, e, p + 1, q);
    TextAt(debug, buf, start + p);
  }

  lemma NoField(debug: bool, k: Kind, buf: seq<Byte>, pos: nat, started: bool)
    requires pos <= |buf| && !ReadElement(debug, k, buf, pos, started).Got?
    ensures !ReadFields(debug, [k], buf, pos, started).All?
  {
  }

  lemma Slice(buf: seq<Byte>, start: nat, e: seq<Byte>, p: nat, q: nat)
    requires p <= q <= |e| && start + |e| <= |buf| && buf[start..start + |e|] == e
    ensures buf[start + p..start + q] == e[p..q]
    ensures q < |e| ==> buf[start + q] == e[q]
  {
    forall i | 0 <= i < |e| ensures e[i] == buf[start + i] {
      assert e[i] == buf[start..start + |e|][i];
    }
    forall i | 0 <= i < q - p ensures buf[start + p..start + q][i] == e[p..q][i] {
      assert e[p + i] == buf[start + (p + i)];
    }
  }

  /** Records that begin within a field end there as they would in the field alone. */
  lemma WithinField(buf: seq<Byte>, start: nat, e: seq<Byte>, p: nat)
    requires p <= |e| && start + |e| < |buf| && buf[start..start + |e|] == e && buf[start + |e|] == SEP
    ensures RecordEnd(buf, start + p) == start + RecordEnd(e, p)
  {
    var q := RecordEnd(e, p);
    Slice(buf, start, e, p, q);
    RecordEndAt(buf, start + p, start + q);
  }

  /** Whether a field can be skipped: after any leading fields and before any text, Ignore
      in its place leaves the others as they were, with nothing left over, if and only if
      the encoding of the field holds no separator. */
  lemma SkippableIffNoSep(debug: bool, ks: seq<Kind>, lead: seq<Value>, v: Value)
    requires HasKinds(lead, ks) && forall j :: 0 <= j < |lead| ==> Readable(lead[j], false)
    ensures SEP !in Encode(v)
       <==> forall t | Utf8(t) :: SkipsBefore(debug, ks, lead, v, t)
  {
    if SEP !in Encode(v) {
      forall t | Utf8(t) ensures SkipsBefore(debug, ks, lead, v, t) {
        SkippedBefore(debug, ks, lead, v, t);
      }
    } else {
      var t := if InnerText(v) == [] then [97] else [];
      assert Utf8(t) by { assert CharWidth([97]) == 1; assert [97][1..] == []; }
      NotSkippedBefore(debug, ks, lead, v, t);
    }
  }

  /** Ignore in place of v leaves the leading fields and the text after v as they were. */
  predicate SkipsBefore(debug: bool, ks: seq<Kind>, lead: seq<Value>, v: Value, t: seq<Byte>)
  {
    TupleFrom(debug, ks + [Ignore, KStr], EncodeTuple(lead + [v, Str(t)])) == Ok(lead + [Skipped, Str(t)])
  }

  lemma SkippedBefore(debug: bool, ks: seq<Kind>, lead: seq<Value>, v: Value, t: seq<Byte>)
    requires HasKinds(lead, ks) && forall j :: 0 <= j < |lead| ==> Readable(lead[j], false)
    requires SEP !in Encode(v) && Utf8(t)
    ensures SkipsBefore(debug, ks, lead, v, t)
  {
    var all, vs := ks + [Ignore, KStr], lead + [v, Str(t)];
    EncodeTupleSplit(lead, [v, Str(t)]);
    assert |EncodeTuple([v, Str(t)])| > 0;
    ReadsFieldwise(all, vs, lead + [Skipped, Str(t)]);
    TupleReadsAs(debug, all, vs, lead + [Skipped, Str(t)]);
  }

  lemma NotSkippedBefore(debug: bool, ks: seq<Kind>, lead: seq<Value>, v: Value, t: seq<Byte>)
    requires HasKinds(lead, ks) && forall j :: 0 <= j < |lead| ==> Readable(lead[j], false)
    requires SEP in Encode(v) && t != InnerText(v)
    ensures !SkipsBefore(debug, ks, lead, v, t)
  {
    var all, rest := ks + [Ignore, KStr], [v, Str(t)];
    var buf := EncodeTuple(lead + rest);
    EncodeTupleSplit(lead, rest);
    assert buf[0..] == buf && |EncodeTuple(rest)| > 0;
    var end := ReadLead(debug, ks, [Ignore, KStr], lead, rest, buf, 0, false);
    StopsInside(debug, v, t, buf, end, lead != []);
    OtherText(lead, InnerText(v), t);
    hide ReadFields, EncodeTuple, InnerText, Encode, Readable, HasKinds;
  }

  lemma OtherText(lead: seq<Value>, a: seq<Byte>, b: seq<Byte>)
    ensures lead + [Skipped, Str(a)] == lead + [Skipped, Str(b)] ==> a == b
  {
    assert (lead + [Skipped, Str(a)])[|lead| + 1] == Str(a);
    assert (lead + [Skipped, Str(b)])[|lead| + 1] == Str(b);
  }

  lemma {:induction false} PrefixReadsAs(ks: seq<Kind>, vs: seq<Value>, i: nat)
    requires i < |vs| && |ks| == i
    requires forall j :: 0 <= j < i ==> HasKind(vs[j], ks[j]) && Readable(vs[j], false)
    ensures ReadsAs(ks + [IgnoreAll], vs, vs[..i] + [Skipped])
  {
    if i > 0 {
      PrefixReadsAs(ks[1..], vs[1..], i - 1);
      assert (ks + [IgnoreAll])[1..] == ks[1..] + [IgnoreAll];
      assert (vs[..i] + [Skipped])[1..] == vs[1..][..i - 1] + [Skipped];
    }
  }

  /** IgnoreAll after i fields: those fields come out, whatever the others are, and
      nothing is left over. */
  lemma IgnoreRest(debug: bool, ks: seq<Kind>, vs: seq<Value>)
    requires |ks| < |vs| && EncodeTuple(vs) != []
    requires forall j :: 0 <= j < |ks| ==> HasKind(vs[j], ks[j]) && Readable(vs[j], false)
    ensures TupleFrom(debug, ks + [IgnoreAll], EncodeTuple(vs)) == Ok(vs[..|ks|] + [Skipped])
  {
    PrefixReadsAs(ks, vs, |ks|);
    TupleReadsAs(debug, ks + [IgnoreAll], vs, vs[..|ks|] + [Skipped]);
  }

  lemma StopsIn255(debug: bool, buf: seq<Byte>)
    requires buf == [0, 0, 0, 0, 0, 0, 0, 255, SEP, 97]
    ensures ReadFields(debug, [Ignore, KStr], buf, 0, false) == All([Skipped, Str([])], 8)
  {
    RecordEndAt(buf, 0, 7);
    RecordEndAt(buf, 8, 8);
    assert buf[8..8] == [];
    assert ReadElement(debug, Ignore, buf, 0, false) == Got(Skipped, 7);
    assert ReadElement(debug, KStr, buf, 7, true) == Got(Str([]), 8);
    hide ReadElement, ReadFields;
    assert [Ignore] + [KStr] == [Ignore, KStr];
    ReadOne(debug, Ignore, [KStr], buf, 0, false);
    OneField(debug, KStr, buf, 7, true);
    BeforeAll([Skipped], [Str([])], 8);
  }

  /** A field that cannot be skipped: Ignore stops inside the integer 255, the next field
      comes out empty, and a debug build panics on what is left over. */
  lemma IgnoreStopsInsideAnInteger()
    ensures TupleFrom(false, [Ignore, KStr], EncodeTuple([U64(255), Str([97])])) == Ok([Skipped, Str([])])
    ensures TupleFrom(true, [Ignore, KStr], EncodeTuple([U64(255), Str([97])])) == Panic
  {
    hide ReadFields, EncodeTuple;
    EncodingOf255();
    StopsIn255(false, EncodeTuple([U64(255), Str([97])]));
    StopsIn255(true, EncodeTuple([U64(255), Str([97])]));
  }

  lemma EncodingOf255()
    ensures EncodeTuple([U64(255), Str([97])]) == [0, 0, 0, 0, 0, 0, 0, 255, SEP, 97]
  {
    assert [U64(255), Str([97])][1..] == [Str([97])];
    assert BigEndian(0, 4) == [0, 0, 0, 0];
    assert BigEndian(0, 7) == [0, 0, 0, 0, 0, 0, 0];
    assert BigEndian(255, 8) == [0, 0, 0, 0, 0, 0, 0, 255];
  }

  // ----- Prefix keys -----

  /** Kinds whose encoding shows where it ends. */
  predicate Delimited(k: Kind)
  {
    k == KStr || k == KU64 || k == KI64 || k == KBool || k == KOpt(KBool)
  }

  /** Every field of vs followed by a separator. */
  function Lead(vs: seq<Value>): seq<Byte>
  {
    if vs == [] then [] else Encode(vs[0]) + [SEP] + Lead(vs[1..])
  }

  lemma {:induction false} EncodeTupleSplit(lead: seq<Value>, rest: seq<Value>)
    requires rest != []
    ensures EncodeTuple(lead + rest) == Lead(lead) + EncodeTuple(rest)
  {
    if lead == [] {
      assert lead + rest == rest;
    } else {
      assert (lead + rest)[1..] == lead[1..] + rest;
      EncodeTupleSplit(lead[1..], rest);
    }
  }

  /** The prefix key that Interfix closes. */
  function PrefixKey(lead: seq<Value>): (p: seq<Byte>)
    ensures p == Lead(lead)
  {
    EncodeTupleSplit(lead, [Interfix]);
    EncodeTuple(lead + [Interfix])
  }

  lemma DelimitedLength(k: Kind, v: Value, w: Value, b: seq<Byte>)
    requires Delimited(k) && HasKind(v, k) && HasKind(w, k)
    requires Encode(v) + [SEP] <= b && Encode(w) + [SEP] <= b
    ensures |Encode(v)| == |Encode(w)|
  {
    if k == KStr {
      Utf8HasNoSep(v.text);
      Utf8HasNoSep(w.text);
      assert b[0..|v.text|] == v.text && b[0..|w.text|] == w.text;
      RecordEndAt(b, 0, |v.text|);
      RecordEndAt(b, 0, |w.text|);
    }
    if k == KOpt(KBool) {
      assert b[0] == if v.None? then SEP else Encode(v)[0];
      assert b[0] == if w.None? then SEP else Encode(w)[0];
    }
  }

  lemma DelimitedInjective(k: Kind, v: Value, w: Value)
    requires Delimited(k) && HasKind(v, k) && HasKind(w, k) && Encode(v) == Encode(w)
    ensures v == w
  {
    assert Encode(v)[0..|Encode(v)|] == Encode(v);
    ReadBack(k, true, v, Encode(v), 0);
    ReadBack(k, true, w, Encode(v), 0);
  }

  /** Delimited values are told apart by their encodings, even in front of other bytes. */
  lemma DelimitedApart(k: Kind, v: Value, w: Value, x: seq<Byte>, y: seq<Byte>)
    requires Delimited(k) && HasKind(v, k) && HasKind(w, k)
    ensures Encode(v) + [SEP] + x <= Encode(w) + [SEP] + y <==> v == w && x <= y
  {
    var p, q := Encode(v) + [SEP], Encode(w) + [SEP];
    if p + x <= q + y {
      assert p <= q + y && q <= q + y;
      DelimitedLength(k, v, w, q + y);
      assert (p + x)[..|p|] == p && (q + y)[..|p|] == q;
      assert Encode(v) == p[..|p| - 1] == q[..|p| - 1] == Encode(w);
      DelimitedInjective(k, v, w);
      assert (p + x)[|p|..] == x && (q + y)[|p|..] == y;
    }
  }

  /** In front of a separator, and whatever follows it, the encoding tells the value. */
  ghost predicate TellsValue(k: Kind)
  {
    forall v, w, x, y :: HasKind(v, k) && HasKind(w, k) && Encode(v) + [SEP] + x == Encode(w) + [SEP] + y ==> v == w
  }

  /** Two values of a kind that is not delimited, and what to put behind them to confuse them. */
  lemma Confused(k: Kind) returns (v: Value, w: Value, x: seq<Byte>, y: seq<Byte>)
    requires IsData(k) && !Delimited(k)
    ensures HasKind(v, k) && HasKind(w, k) && Encode(v) + [SEP] + x == Encode(w) + [SEP] + y && v != w
  {
    x, y := [], [];
    match k {
      case KRaw => v, w, x := Raw([]), Raw([SEP]), [SEP];
      case KOpt(inner) =>
        v := None;
        match inner {
          case KStr => w := Some(Str([]));
          case KRaw => w := Some(Raw([]));
          case KOpt(_) => w := Some(None);
          case _ =>
            w := if inner == KU64 then Some(U64(U64_MAX)) else Some(I64(-1));
            x := [SEP, SEP, SEP, SEP, SEP, SEP, SEP, SEP];
            AllOnes();
        }
    }
  }

  lemma AllOnes()
    ensures BigEndian(U64_MAX, 8) == [SEP, SEP, SEP, SEP, SEP, SEP, SEP, SEP]
  {
    assert BigEndian(0xFFFF, 2) == [SEP, SEP];
    assert BigEndian(0xFFFF_FFFF, 4) == [SEP, SEP, SEP, SEP];
    assert BigEndian(0xFFFF_FFFF_FFFF, 6) == [SEP, SEP, SEP, SEP, SEP, SEP];
  }

  /** The kinds that leading fields may have are all that could be told apart. */
  lemma DelimitedIff(k: Kind)
    requires IsData(k)
    ensures Delimited(k) <==> TellsValue(k)
  {
    hide Encode, HasKind;
    if Delimited(k) {
      forall v, w, x, y | HasKind(v, k) && HasKind(w, k) && Encode(v) + [SEP] + x == Encode(w) + [SEP] + y
        ensures v == w
      {
        DelimitedApart(k, v, w, x, y);
      }
    } else {
      var v, w, x, y := Confused(k);
    }
  }

  lemma {:induction false} LeadApart(ks: seq<Kind>, lead: seq<Value>, vs: seq<Value>, tail: seq<Byte>)
    requires HasKinds(lead, ks) && HasKinds(vs, ks)
    requires forall k :: k in ks ==> Delimited(k)
    ensures Lead(lead) <= Lead(vs) + tail <==> lead == vs
  {
    hide Encode, HasKind, Delimited;
    if ks != [] {
      LeadApart(ks[1..], lead[1..], vs[1..], tail);
      DelimitedApart(ks[0], lead[0], vs[0], Lead(lead[1..]), Lead(vs[1..]) + tail);
      LeadRegroup(Encode(vs[0]) + [SEP], Lead(vs[1..]), tail);
      assert lead == [lead[0]] + lead[1..] && vs == [vs[0]] + vs[1..];
    }
  }

  lemma LeadRegroup(a: seq<Byte>, b: seq<Byte>, c: seq<Byte>)
    ensures a + b + c == a + (b + c)
  {
  }

  /** Prefix scans are exact: a key starts with the prefix key of some leading values if
      and only if its own leading values are those. */
  lemma PrefixIsExact(ks: seq<Kind>, lead: seq<Value>, vs: seq<Value>)
    requires |lead| < |ks| && HasKinds(lead, ks[..|lead|]) && HasKinds(vs, ks)
    requires forall j :: 0 <= j < |lead| ==> Delimited(ks[j])
    ensures PrefixKey(lead) <= EncodeTuple(vs) <==> vs[..|lead|] == lead
  {
    var m := |lead|;
    assert vs == vs[..m] + vs[m..];
    EncodeTupleSplit(vs[..m], vs[m..]);
    LeadApart(ks[..m], lead, vs[..m], EncodeTuple(vs[m..]));
  }

  // ----- Key order -----

  /** Keys that share their leading values sort by the unsigned integer that follows,
      whatever comes after it. */
  lemma KeyOrder(lead: seq<Value>, m: nat, n: nat, x: seq<Value>, y: seq<Value>)
    requires m < n < U64_LIMIT
    ensures Less(EncodeTuple(lead + ([U64(m)] + x)), EncodeTuple(lead + ([U64(n)] + y)))
  {
    Pow256Of8();
    BigEndianOrder(m, n, 8);
    EncodeTupleSplit(lead, [U64(m)] + x);
    EncodeTupleSplit(lead, [U64(n)] + y);
    var a, b := EncodeTuple([U64(m)] + x), EncodeTuple([U64(n)] + y);
    assert a == BigEndian(m, 8) + a[8..] && b == BigEndian(n, 8) + b[8..];
    LessIgnoresTails(BigEndian(m, 8), BigEndian(n, 8), a[8..], b[8..]);
    LessAfterCommonPrefix(Lead(lead), a, b);
  }

  /** Keys that share their leading values form one block: no key of another kind of
      lead sorts between two of them. */
  lemma KeysFormABlock(ks: seq<Kind>, lead: seq<Value>, a: seq<Value>, b: seq<Value>, c: seq<Value>)
    requires |lead| < |ks| && HasKinds(lead, ks[..|lead|])
    requires forall j :: 0 <= j < |lead| ==> Delimited(ks[j])
    requires HasKinds(a, ks) && HasKinds(b, ks) && HasKinds(c, ks)
    requires a[..|lead|] == lead && c[..|lead|] == lead
    requires Less(EncodeTuple(a), EncodeTuple(b)) && Less(EncodeTuple(b), EncodeTuple(c))
    ensures b[..|lead|] == lead
  {
    PrefixIsExact(ks, lead, a);
    PrefixIsExact(ks, lead, b);
    PrefixIsExact(ks, lead, c);
    if Less(EncodeTuple(b), PrefixKey(lead)) {
      LessTransitive(EncodeTuple(a), EncodeTuple(b), PrefixKey(lead));
      PrefixNotAfter(PrefixKey(lead), EncodeTuple(a));
    }
    PrefixInterval(PrefixKey(lead), EncodeTuple(b), EncodeTuple(c));
  }
}
