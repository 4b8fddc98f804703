/** A typed prefix query, end to end: serialize the leading values, scan the table,
    deserialize what was found. */
module Query {
  import opened Bytes
  import opened Record
  import Ser
  import De
  import Codec
  import Stream

  type Row = seq<Value>

  /** The keys under which rows are stored. */
  function KeysOf(rows: seq<Row>): (keys: seq<Key>)
    ensures |keys| == |rows|
    ensures forall i :: 0 <= i < |rows| ==> keys[i] == EncodeTuple(rows[i])
  {
    if rows == [] then [] else [EncodeTuple(rows[0])] + KeysOf(rows[1..])
  }

  /** The rows that begin with the values of lead, in order. */
  function RowsWith(rows: seq<Row>, lead: Row): seq<Row>
  {
    if rows == [] then []
    else if lead <= rows[0] then [rows[0]] + RowsWith(rows[1..], lead)
    else RowsWith(rows[1..], lead)
  }

  predicate StoredRow(ks: seq<Kind>, row: Row)
  {
    HasKinds(row, ks) && Codec.CanReadBack(row)
  }

  /** The rows a table may hold are those that decoding gives back. */
  lemma StoredRowIff(debug: bool, ks: seq<Kind>, row: Row)
    ensures StoredRow(ks, row) <==> HasKinds(row, ks) && De.TupleFrom(debug, ks, EncodeTuple(row)) == De.Ok(row)
  {
    if HasKinds(row, ks) { Codec.RoundTrip(debug, ks, row); }
  }

  predicate LeadOf(ks: seq<Kind>, lead: Row)
  {
    && |lead| < |ks| && HasKinds(lead, ks[..|lead|])
    && forall j :: 0 <= j < |lead| ==> Codec.Delimited(ks[j])
  }

  /** The keys with the prefix key of lead are the keys of the rows that begin with lead. */
  lemma {:induction false} ScanFindsRows(ks: seq<Kind>, lead: Row, rows: seq<Row>)
    requires LeadOf(ks, lead)
    requires forall row :: row in rows ==> HasKinds(row, ks)
    ensures Stream.WithPrefix(KeysOf(rows), Codec.PrefixKey(lead)) == KeysOf(RowsWith(rows, lead))
  {
    if rows != [] {
      var row := rows[0];
      assert row in rows;
      Codec.PrefixIsExact(ks, lead, row);
      if row[..|lead|] == lead { assert lead <= row; }
      ScanFindsRows(ks, lead, rows[1..]);
      assert KeysOf(rows)[1..] == KeysOf(rows[1..]);
    }
  }

  lemma {:induction false} RowsWithAreRows(rows: seq<Row>, lead: Row)
    ensures forall r :: r in RowsWith(rows, lead) ==> r in rows
  {
    if rows != [] { RowsWithAreRows(rows[1..], lead); }
  }

  lemma LeadIsWritable(ks: seq<Kind>, lead: Row)
    requires LeadOf(ks, lead)
    ensures forall v :: v in lead + [Interfix] ==> Ser.Writable(v)
    ensures Ser.InterfixOnlyLast(lead + [Interfix])
  {
    var vs := lead + [Interfix];
    forall j | 0 <= j < |lead| ensures Ser.Writable(vs[j]) && !Ser.Finalizes(vs[j]) {
      assert HasKind(lead[j], ks[j]) && Codec.Delimited(ks[j]);
    }
  }

  lemma RowIsRead(debug: bool, ks: seq<Kind>, rows: seq<Row>, i: nat)
    requires i < |rows| && forall row :: row in rows ==> StoredRow(ks, row)
    ensures |KeysOf(rows)| == |rows| && De.TupleFrom(debug, ks, KeysOf(rows)[i]) == De.Ok(rows[i])
  {
    hide De.TupleFrom, Codec.CanReadBack, EncodeTuple, HasKinds;
    assert StoredRow(ks, rows[i]);
    Codec.RoundTrip(debug, ks, rows[i]);
  }

  /** Deserializes the keys of stored rows, one by one. */
  method DecodeKeys(debug: bool, ks: seq<Kind>, keys: seq<Key>, ghost rows: seq<Row>)
    returns (r: De.Outcome<seq<Row>>)
    requires forall row :: row in rows ==> StoredRow(ks, row)
    requires keys == KeysOf(rows)
    ensures r == De.Ok(rows)
  {
    hide *;
    var out := [];
    for i := 0 to |keys|
      invariant out == rows[..i]
    {
      RowIsRead(debug, ks, rows, i);
      var row := De.TupleFromSlice(debug, ks, keys[i]);
      match row {
        case Ok(value) => out := out + [value];
        case Err => return De.Err;
        case Panic => return De.Panic;
      }
    }
    assert rows[..|rows|] == rows;
    r := De.Ok(out);
  }

  /** In both builds the query delivers exactly the stored rows that begin with lead, in
      key order. */
  method KeysPrefix(debug: bool, ks: seq<Kind>, lead: Row, keys: seq<Key>, ghost rows: seq<Row>)
    returns (r: De.Outcome<seq<Row>>)
    requires |lead| < |ks| && HasKinds(lead, ks[..|lead|]) && forall j :: 0 <= j < |lead| ==> Codec.Delimited(ks[j])
    requires forall row :: row in rows ==> StoredRow(ks, row)
    requires keys == KeysOf(rows) && Stream.Sorted(keys)
    ensures r == De.Ok(RowsWith(rows, lead))
  {
    LeadIsWritable(ks, lead);
    var ok, prefix := Ser.SerializeToVec(debug, lead + [Interfix]);
    if !ok { return De.Panic; }
    var found := Stream.KeysPrefix(keys, prefix);
    ScanFindsRows(ks, lead, rows);
    RowsWithAreRows(rows, lead);
    r := DecodeKeys(debug, ks, found, RowsWith(rows, lead));
  }
}
