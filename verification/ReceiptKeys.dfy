/** The keys of read receipts as the store keeps them: what the sweep in Receipts may take for
    granted about their order. */
module ReceiptKeys {
  import opened Bytes
  import opened Record
  import De
  import Codec
  import Receipts

  /** The bytes of an identifier. */
  function Id(s: string): seq<Byte>
  {
    TextBytes(seq(|s|, i requires 0 <= i < |s| => s[i] as Scalar))
  }

  /** The fields of a key, and its bytes in the store. */
  function Fields(k: Receipts.Receipt): seq<Value>
  {
    [Str(Id(k.room)), U64(k.count), Str(Id(k.user))]
  }

  lemma IdIsText(s: string)
    ensures Utf8(Id(s))
  {
    TextIsUtf8(seq(|s|, i requires 0 <= i < |s| => s[i] as Scalar));
  }

  function StoreKey(k: Receipts.Receipt): Key
  {
    EncodeTuple(Fields(k))
  }

  lemma OlderKeyIsLess(k: Receipts.Receipt, l: Receipts.Receipt)
    requires k.room == l.room && k.count < l.count < U64_LIMIT
    ensures Less(StoreKey(k), StoreKey(l))
  {
    var lead := [Str(Id(k.room))];
    var x, y := [Str(Id(k.user))], [Str(Id(l.user))];
    Codec.KeyOrder(lead, k.count, l.count, x, y);
    assert lead + ([U64(k.count)] + x) == Fields(k);
    assert lead + ([U64(l.count)] + y) == Fields(l);
  }

  /** The order in which the store delivers the keys: each comes once, and within a room
      counts ascend. */
  lemma StoredInKeyOrder(keys: seq<Receipts.Receipt>)
    requires forall i :: 0 <= i < |keys| ==> keys[i].count < U64_LIMIT
    requires forall i, j :: 0 <= i < j < |keys| ==> Less(StoreKey(keys[i]), StoreKey(keys[j]))
    ensures Receipts.Distinct(keys) && Receipts.InKeyOrder(keys)
  {
    hide StoreKey, Less;
    forall i, j | 0 <= i < j < |keys|
      ensures keys[i] != keys[j] && (keys[i].room == keys[j].room ==> keys[i].count <= keys[j].count)
    {
      LessIrreflexive(StoreKey(keys[i]));
      if keys[i].room == keys[j].room && keys[i].count > keys[j].count {
        OlderKeyIsLess(keys[j], keys[i]);
        LessTransitive(StoreKey(keys[i]), StoreKey(keys[j]), StoreKey(keys[i]));
      }
    }
  }

  /** What the sweep reads of a stored key is the key. */
  lemma KeyIsRead(debug: bool, k: Receipts.Receipt)
    requires k.count < U64_LIMIT
    ensures De.TupleFrom(debug, [KStr, KU64, KStr], StoreKey(k)) == De.Ok(Fields(k))
  {
    hide De.TupleFrom, EncodeTuple, Utf8;
    IdIsText(k.room);
    IdIsText(k.user);
    Codec.RoundTrip(debug, [KStr, KU64, KStr], Fields(k));
  }
}
