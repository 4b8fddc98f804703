/** The background migration that takes per-user and derived data out of the `unsigned`
    object of stored events. JSON values are kept as they are, unless they are read as
    objects or strings. */
module Unsigned {

  datatype Json = Object(fields: Fields) | Str(s: string) | Other(text: string)

  type Fields = map<string, Json>

  /** Which strings are event identifiers; decided by a library. */
  type EventIds = string -> bool

  const UNSIGNED := "unsigned"
  const BECAUSE := "redacted_because"
  const REDACTED_BY := "org.continuwuity.redacted_by"
  const EVENT_ID := "event_id"
  const DROPPED: seq<string> := ["age", "membership", "prev_content", "prev_sender"]

  function Lookup(fields: Fields, key: string): Json
  {
    if key in fields then fields[key] else Other("")
  }

  /** The object under a key; the empty one if there is none. */
  function ObjectAt(fields: Fields, key: string): Fields
  {
    match Lookup(fields, key)
    case Object(inner) => inner
    case _ => map[]
  }

  /** The event that a redaction names. */
  predicate Redacts(ids: EventIds, unsigned: Fields)
  {
    var id := Lookup(ObjectAt(unsigned, BECAUSE), EVENT_ID);
    id.Str? && ids(id.s)
  }

  function Without(fields: Fields, keys: seq<string>): Fields
  {
    map k | k in fields && k !in keys :: fields[k]
  }

  /** The new `unsigned` object, as one expression. */
  function Cleaned(ids: EventIds, unsigned: Fields): Fields
  {
    var kept := Without(unsigned, DROPPED + [BECAUSE]);
    if Redacts(ids, unsigned) then kept[REDACTED_BY := Lookup(ObjectAt(unsigned, BECAUSE), EVENT_ID)] else kept
  }

  function Rewritten(ids: EventIds, json: Fields): Fields
  {
    json[UNSIGNED := Object(Cleaned(ids, ObjectAt(json, UNSIGNED)))]
  }

  // ----- What the migration means, said of the JSON alone -----

  /** v is the object under `key`; without an object there, the empty one. */
  predicate HasObject(fields: Fields, key: string, v: Fields)
  {
    if key in fields && fields[key].Object? then fields[key] == Object(v) else v == map[]
  }

  /** The redaction in an old `unsigned` object names an event, and that is its identifier. */
  predicate NamesEvent(ids: EventIds, was: Fields, id: string)
  {
    && "redacted_because" in was && was["redacted_because"].Object?
    && var because := was["redacted_because"].fields;
       "event_id" in because && because["event_id"] == Str(id) && ids(id)
  }

  predicate SameField(fields: Fields, fields': Fields, key: string)
  {
    (key in fields' <==> key in fields) && (key in fields ==> fields'[key] == fields[key])
  }

  predicate IsDropped(key: string)
  {
    key == "age" || key == "membership" || key == "prev_content" || key == "prev_sender" || key == "redacted_because"
  }

  /** From an old `unsigned` object to the new one: five fields are gone, a redaction that
      names an event leaves its identifier, and every other field is as it was. */
  ghost predicate Unembeds(ids: EventIds, was: Fields, now: Fields)
  {
    && (forall key: string :: IsDropped(key) ==> key !in now)
    && (forall id :: NamesEvent(ids, was, id) ==>
          "org.continuwuity.redacted_by" in now && now["org.continuwuity.redacted_by"] == Str(id))
    && ((forall id :: !NamesEvent(ids, was, id)) ==> SameField(was, now, "org.continuwuity.redacted_by"))
    && forall key :: !IsDropped(key) && key != "org.continuwuity.redacted_by" ==> SameField(was, now, key)
  }

  /** From an old event to the new one: only `unsigned` changes, and is an object after. */
  ghost predicate UnembedsEvent(ids: EventIds, json: Fields, json': Fields)
  {
    && (forall key :: key != "unsigned" ==> SameField(json, json', key))
    && "unsigned" in json' && json'["unsigned"].Object?
    && forall was :: HasObject(json, "unsigned", was) ==> Unembeds(ids, was, json'["unsigned"].fields)
  }

  lemma DroppedAre(key: string)
    ensures key in DROPPED + [BECAUSE] <==> IsDropped(key)
  {
    assert DROPPED + [BECAUSE] == ["age", "membership", "prev_content", "prev_sender", "redacted_because"];
  }

  lemma CleanedUnembeds(ids: EventIds, was: Fields)
    ensures Unembeds(ids, was, Cleaned(ids, was))
  {
    NamesDiffer();
    var now := Cleaned(ids, was);
    forall key: string ensures key in DROPPED + [BECAUSE] <==> IsDropped(key) { DroppedAre(key); }
    forall key | !IsDropped(key) && key != "org.continuwuity.redacted_by" ensures SameField(was, now, key) { }
    RedactsIff(ids, was);
  }

  lemma RedactsIff(ids: EventIds, was: Fields)
    ensures Redacts(ids, was) <==> exists id :: NamesEvent(ids, was, id)
    ensures forall id :: NamesEvent(ids, was, id) ==> Lookup(ObjectAt(was, BECAUSE), EVENT_ID) == Str(id)
  {
    if Redacts(ids, was) {
      assert NamesEvent(ids, was, Lookup(ObjectAt(was, BECAUSE), EVENT_ID).s);
    }
  }

  /** The rewriting does what the migration means to every event. */
  lemma RewrittenUnembeds(ids: EventIds, json: Fields)
    ensures UnembedsEvent(ids, json, Rewritten(ids, json))
  {
    hide Cleaned, Unembeds;
    assert HasObject(json, "unsigned", ObjectAt(json, UNSIGNED));
    CleanedUnembeds(ids, ObjectAt(json, UNSIGNED));
  }

  /** The meaning leaves no choice: it names one new event for each old one. */
  lemma UnembedsOne(ids: EventIds, json: Fields, json': Fields)
    ensures UnembedsEvent(ids, json, json') <==> json' == Rewritten(ids, json)
  {
    RewrittenUnembeds(ids, json);
    if UnembedsEvent(ids, json, json') {
      hide Rewritten, Unembeds;
      var was, whole := ObjectAt(json, UNSIGNED), Rewritten(ids, json);
      assert HasObject(json, "unsigned", was);
      SameUnembeds(ids, was, json'["unsigned"].fields, whole["unsigned"].fields);
      forall key ensures SameField(whole, json', key) {
        assert key != "unsigned" ==> SameField(json, json', key) && SameField(json, whole, key);
      }
      SameMaps(whole, json');
    }
  }

  lemma SameMaps(a: Fields, b: Fields)
    requires forall key :: SameField(a, b, key)
    ensures a == b
  {
    forall key ensures (key in a <==> key in b) && (key in a ==> a[key] == b[key]) {
      assert SameField(a, b, key);
    }
  }

  lemma SameUnembeds(ids: EventIds, was: Fields, a: Fields, b: Fields)
    requires Unembeds(ids, was, a) && Unembeds(ids, was, b)
    ensures a == b
  {
    forall key ensures SameField(a, b, key) {
      assert !IsDropped(key) && key != "org.continuwuity.redacted_by" ==>
        SameField(was, a, key) && SameField(was, b, key);
    }
    SameMaps(a, b);
  }

  /** One event with something under every name: what goes, what is noted, what stays. */
  lemma RedactedEvent()
    ensures
      var json := map[
        "type" := Str("m.room.message"),
        "unsigned" := Object(map[
          "age" := Other("5"), "membership" := Str("join"), "prev_content" := Object(map[]),
          "prev_sender" := Str("@a:b"), "transaction_id" := Other("null"), "invite_room_state" := Other("[]"),
          "redacted_because" := Object(map["event_id" := Str("$x"), "type" := Str("m.room.redaction")])])];
      Rewritten(id => id == "$x", json) == map[
        "type" := Str("m.room.message"),
        "unsigned" := Object(map[
          "transaction_id" := Other("null"), "invite_room_state" := Other("[]"),
          "org.continuwuity.redacted_by" := Str("$x")])]
  {
    var because := map["event_id" := Str("$x"), "type" := Str("m.room.redaction")];
    var was: Fields := map[
      "age" := Other("5"), "membership" := Str("join"), "prev_content" := Object(map[]),
      "prev_sender" := Str("@a:b"), "transaction_id" := Other("null"), "invite_room_state" := Other("[]"),
      "redacted_because" := Object(because)];
    NamesApart();
    assert Lookup(was, BECAUSE) == Object(because) && Lookup(because, EVENT_ID) == Str("$x");
    forall key: string ensures key in DROPPED + [BECAUSE] <==> IsDropped(key) { DroppedAre(key); }
    assert Without(was, DROPPED + [BECAUSE]) ==
      map["transaction_id" := Other("null"), "invite_room_state" := Other("[]")];
  }

  lemma NamesApart()
    ensures |"age"| == 3 && |"membership"| == 10 && |"prev_content"| == 12 && |"prev_sender"| == 11
    ensures |"transaction_id"| == 14 && |"invite_room_state"| == 17 && |"redacted_because"| == 16
    ensures |"type"| == 4 && |"event_id"| == 8 && |"unsigned"| == 8 && |"org.continuwuity.redacted_by"| == 28
  {
  }

  lemma NamesDiffer()
    ensures REDACTED_BY !in DROPPED + [BECAUSE]
  {
    assert |REDACTED_BY| == 28 && |BECAUSE| == 16;
    assert |DROPPED[0]| == 3 && |DROPPED[1]| == 10 && |DROPPED[2]| == 12 && |DROPPED[3]| == 11;
  }

  lemma CleanedIsClean(ids: EventIds, unsigned: Fields)
    ensures Cleaned(ids, Cleaned(ids, unsigned)) == Cleaned(ids, unsigned)
  {
    NamesDiffer();
    var cleaned := Cleaned(ids, unsigned);
    assert BECAUSE in DROPPED + [BECAUSE];
    assert BECAUSE !in cleaned;
    assert ObjectAt(cleaned, BECAUSE) == map[];
    assert forall k :: k in cleaned ==> k !in DROPPED + [BECAUSE];
    assert Without(cleaned, DROPPED + [BECAUSE]) == cleaned;
  }

  /** Migrating an event twice is migrating it once. */
  lemma RewriteIsIdempotent(ids: EventIds, json: Fields)
    ensures Rewritten(ids, Rewritten(ids, json)) == Rewritten(ids, json)
  {
    CleanedIsClean(ids, ObjectAt(json, UNSIGNED));
  }

  // ----- The migration as written -----

  class Event {
    var json: Fields

    constructor (json: Fields)
      ensures this.json == json
    {
      this.json := json;
    }

    method UnembedUnsigned(ids: EventIds)
      modifies this
      ensures json == Rewritten(ids, old(json)) && UnembedsEvent(ids, old(json), json)
    {
      RewrittenUnembeds(ids, json);
      hide UnembedsEvent, Without, ObjectAt, Lookup;
      var unsigned := ObjectAt(json, UNSIGNED);
      ghost var was, before := json, unsigned;
      json := json - {UNSIGNED};
      DropNone(before);
      for i := 0 to |DROPPED|
        invariant unsigned == Without(before, DROPPED[..i]) && json == was - {UNSIGNED}
      {
        DropNext(before, i);
        unsigned := unsigned - {DROPPED[i]};
      }
      assert DROPPED[..|DROPPED|] == DROPPED;
      assert unsigned == Without(before, DROPPED);
      DropBecause(before);
      var redaction := ObjectAt(unsigned, BECAUSE);
      assert redaction == ObjectAt(before, BECAUSE);
      unsigned := unsigned - {BECAUSE};
      var id := Lookup(redaction, EVENT_ID);
      if id.Str? && ids(id.s) {
        unsigned := unsigned[REDACTED_BY := id];
      }
      assert unsigned == Cleaned(ids, before);
      PutBack(was, unsigned);
      json := json[UNSIGNED := Object(unsigned)];
    }
  }

  lemma DropNone(fields: Fields)
    ensures Without(fields, DROPPED[..0]) == fields
  {
  }

  lemma DropNext(fields: Fields, i: nat)
    requires i < |DROPPED|
    ensures Without(fields, DROPPED[..i]) - {DROPPED[i]} == Without(fields, DROPPED[..i + 1])
  {
    assert DROPPED[..i + 1] == DROPPED[..i] + [DROPPED[i]];
  }

  lemma DropBecause(fields: Fields)
    ensures ObjectAt(Without(fields, DROPPED), BECAUSE) == ObjectAt(fields, BECAUSE)
    ensures Without(fields, DROPPED) - {BECAUSE} == Without(fields, DROPPED + [BECAUSE])
  {
    NotDropped();
  }

  lemma PutBack(json: Fields, unsigned: Fields)
    ensures (json - {UNSIGNED})[UNSIGNED := Object(unsigned)] == json[UNSIGNED := Object(unsigned)]
  {
  }

  lemma NotDropped()
    ensures BECAUSE !in DROPPED
  {
    assert |BECAUSE| == 16;
    assert |DROPPED[0]| == 3 && |DROPPED[1]| == 10 && |DROPPED[2]| == 12 && |DROPPED[3]| == 11;
  }

  // ----- The sweep -----

  /** A stored event, or bytes that are not an object. */
  datatype Stored = Good(json: Fields) | Corrupt

  type Timeline = map<nat, Stored>

  function Elements(keys: seq<nat>): set<nat> {
    set k | k in keys
  }

  function Migrated(ids: EventIds, stored: Stored): Stored
  {
    if stored.Good? then Good(Rewritten(ids, stored.json)) else stored
  }

  /** The timeline with the events under these keys migrated. */
  function MigratedAt(ids: EventIds, t: Timeline, keys: set<nat>): Timeline
  {
    map k | k in t :: if k in keys then Migrated(ids, t[k]) else t[k]
  }

  /** Migrating some events and then others, in part the same ones, is migrating all of
      them once. */
  lemma MigrateTwice(ids: EventIds, t: Timeline, first: set<nat>, second: set<nat>)
    ensures MigratedAt(ids, MigratedAt(ids, t, first), second) == MigratedAt(ids, t, first + second)
  {
    forall k | k in t && k in first && k in second
      ensures Migrated(ids, Migrated(ids, t[k])) == Migrated(ids, t[k])
    {
      if t[k].Good? { RewriteIsIdempotent(ids, t[k].json); }
    }
  }

  /** A sweep that was cut off after any events, and then run whole, is one whole sweep. */
  lemma ResumeIsWhole(ids: EventIds, t: Timeline, done: set<nat>)
    ensures MigratedAt(ids, MigratedAt(ids, t, done), t.Keys) == MigratedAt(ids, t, t.Keys)
  {
    MigrateTwice(ids, t, done, t.Keys);
    assert forall k :: k in t ==> (k in done + t.Keys <==> k in t.Keys);
  }

  class Database {
    var timeline: Timeline
    var marker: bool

    constructor (timeline: Timeline)
      ensures this.timeline == timeline && !marker
    {
      this.timeline, marker := timeline, false;
    }

    /** The sweep over a snapshot of the keys, cut off before event number `cut` if there
        is one. It stops at the first corrupt event; the completion marker is written if
        and only if every event was migrated. */
    method UnembedUnsignedInfo(ids: EventIds, keys: seq<nat>, cut: nat) returns (n: nat)
      requires !marker
      requires forall k :: k in keys <==> k in timeline
      requires forall i, j :: 0 <= i < j < |keys| ==> keys[i] != keys[j]
      modifies this
      ensures n <= |keys| && timeline == MigratedAt(ids, old(timeline), Elements(keys[..n]))
      ensures marker <==> n == |keys|
      ensures marker ==> timeline == MigratedAt(ids, old(timeline), old(timeline).Keys)
      ensures n < |keys| ==> n == cut || old(timeline)[keys[n]].Corrupt?
      ensures n <= cut && forall i :: 0 <= i < n ==> old(timeline)[keys[i]].Good?
    {
      hide Rewritten, UnembedsEvent;
      var snapshot := timeline;
      n := 0;
      assert timeline == MigratedAt(ids, snapshot, Elements(keys[..0]));
      while n < |keys|
        invariant n <= |keys| && n <= cut && !marker
        invariant forall i :: 0 <= i < n ==> snapshot[keys[i]].Good?
        invariant timeline == MigratedAt(ids, snapshot, Elements(keys[..n]))
      {
        if n == cut || snapshot[keys[n]].Corrupt? { return; }
        var event := new Event(snapshot[keys[n]].json);
        event.UnembedUnsigned(ids);
        MigrateNext(ids, snapshot, keys, n);
        timeline := timeline[keys[n] := Good(event.json)];
        n := n + 1;
      }
      marker := true;
      assert keys[..n] == keys;
      assert Elements(keys) == snapshot.Keys;
    }
  }

  lemma MigrateNext(ids: EventIds, t: Timeline, keys: seq<nat>, n: nat)
    requires n < |keys| && keys[n] in t && t[keys[n]].Good?
    ensures MigratedAt(ids, t, Elements(keys[..n + 1]))
         == MigratedAt(ids, t, Elements(keys[..n]))[keys[n] := Good(Rewritten(ids, t[keys[n]].json))]
  {
    assert keys[..n + 1] == keys[..n] + [keys[n]];
  }

  // ----- Writers beside the sweep -----

  /** The timeline while the sweep runs in the background: it has dealt with the first
      `next` keys of the snapshot that its iterator reads. */
  datatype Sweep = Sweep(timeline: Timeline, next: nat)

  /** The sweep writes back the next event of its snapshot, or a caller replaces an event,
      as a redaction does. */
  datatype Write = Next | Replace(key: nat, value: Stored)

  function Apply(ids: EventIds, snapshot: Timeline, keys: seq<nat>, s: Sweep, write: Write): Sweep
  {
    match write
    case Next =>
      if s.next < |keys| && keys[s.next] in snapshot && snapshot[keys[s.next]].Good? then
        Sweep(s.timeline[keys[s.next] := Migrated(ids, snapshot[keys[s.next]])], s.next + 1)
      else s
    case Replace(key, value) => if key in s.timeline then s.(timeline := s.timeline[key := value]) else s
  }

  function Run(ids: EventIds, snapshot: Timeline, keys: seq<nat>, writes: seq<Write>): Sweep
  {
    if writes == [] then Sweep(snapshot, 0)
    else Apply(ids, snapshot, keys, Run(ids, snapshot, keys, writes[..|writes| - 1]), writes[|writes| - 1])
  }

  lemma {:induction false} RunKeepsKeys(ids: EventIds, snapshot: Timeline, keys: seq<nat>, writes: seq<Write>)
    ensures Run(ids, snapshot, keys, writes).timeline.Keys == snapshot.Keys
  {
    if writes != [] { RunKeepsKeys(ids, snapshot, keys, writes[..|writes| - 1]); }
  }

  predicate Replaces(write: Write, key: nat)
  {
    write.Replace? && write.key == key
  }

  /** After the last replacement of an event, its value is what was put there, unless the
      sweep comes to it later: then it is what the sweep read before. */
  lemma {:induction false} AfterLastReplace(
      ids: EventIds, snapshot: Timeline, keys: seq<nat>, writes: seq<Write>, j: nat, p: nat)
    requires forall m, n :: 0 <= m < n < |keys| ==> keys[m] != keys[n]
    requires p < |keys| && keys[p] in snapshot && j < |writes| && Replaces(writes[j], keys[p])
    requires forall l :: j < l < |writes| ==> !Replaces(writes[l], keys[p])
    ensures
      var from, end := Run(ids, snapshot, keys, writes[..j]).next, Run(ids, snapshot, keys, writes);
      && from <= end.next && keys[p] in end.timeline
      && end.timeline[keys[p]] == if from <= p < end.next then Migrated(ids, snapshot[keys[p]]) else writes[j].value
    decreases |writes|
  {
    hide Migrated, Apply;
    var front := writes[..|writes| - 1];
    var before := Run(ids, snapshot, keys, front);
    RunKeepsKeys(ids, snapshot, keys, front);
    if j == |front| {
      assert writes[..j] == front;
      ReplaceNow(ids, snapshot, keys, before, writes[j], keys[p]);
    } else {
      assert front[..j] == writes[..j];
      AfterLastReplace(ids, snapshot, keys, front, j, p);
      OtherWrite(ids, snapshot, keys, before, writes[|front|], p);
    }
  }

  lemma ReplaceNow(ids: EventIds, snapshot: Timeline, keys: seq<nat>, s: Sweep, write: Write, key: nat)
    requires Replaces(write, key) && key in s.timeline
    ensures
      var s' := Apply(ids, snapshot, keys, s, write);
      s'.next == s.next && key in s'.timeline && s'.timeline[key] == write.value
  {
  }

  lemma OtherWrite(ids: EventIds, snapshot: Timeline, keys: seq<nat>, s: Sweep, write: Write, p: nat)
    requires forall m, n :: 0 <= m < n < |keys| ==> keys[m] != keys[n]
    requires p < |keys| && keys[p] in snapshot && keys[p] in s.timeline && !Replaces(write, keys[p])
    ensures
      var s' := Apply(ids, snapshot, keys, s, write);
      && s.next <= s'.next <= s.next + 1 && keys[p] in s'.timeline
      && s'.timeline[keys[p]] == if s.next == p && s'.next == p + 1 then Migrated(ids, snapshot[keys[p]])
                                 else s.timeline[keys[p]]
  {
    hide Migrated;
  }

  /** A replacement that no other follows survives the sweep if and only if the sweep was
      past the event by then, or never gets to it, or writes the same value. */
  lemma ReplaceSurvivesIff(ids: EventIds, snapshot: Timeline, keys: seq<nat>, writes: seq<Write>, j: nat, p: nat)
    requires forall m, n :: 0 <= m < n < |keys| ==> keys[m] != keys[n]
    requires p < |keys| && keys[p] in snapshot && j < |writes| && Replaces(writes[j], keys[p])
    requires forall l :: j < l < |writes| ==> !Replaces(writes[l], keys[p])
    ensures
      var from, end := Run(ids, snapshot, keys, writes[..j]).next, Run(ids, snapshot, keys, writes);
      && keys[p] in end.timeline
      && (end.timeline[keys[p]] == writes[j].value
          <==> p < from || end.next <= p || Migrated(ids, snapshot[keys[p]]) == writes[j].value)
  {
    AfterLastReplace(ids, snapshot, keys, writes, j, p);
  }

  /** A redaction while the sweep is on its way to the event: it is overwritten. */
  lemma OverwrittenReplacement(ids: EventIds)
    ensures
      var read, put := Good(map[]), Good(map["content" := Other("{}")]);
      var end := Run(ids, map[0 := read], [0], [Replace(0, put), Next]);
      && end.next == 1 && 0 in end.timeline
      && end.timeline[0] == Migrated(ids, read) && end.timeline[0] != put
  {
    var read, put := Good(map[]), Good(map["content" := Other("{}")]);
    var snapshot: Timeline, writes := map[0 := read], [Replace(0, put), Next];
    assert writes[..1] == [Replace(0, put)] && writes[..1][..0] == [];
    assert Run(ids, snapshot, [0], []) == Sweep(snapshot, 0);
    assert Run(ids, snapshot, [0], writes[..1]) == Sweep(snapshot[0 := put], 0);
    assert UNSIGNED in Migrated(ids, read).json;
    assert UNSIGNED[0] != "content"[0];
  }

  function Nexts(n: nat): seq<Write>
  {
    if n == 0 then [] else Nexts(n - 1) + [Next]
  }

  /** Without other writers, the steps of the sweep are the sweep as written. */
  lemma {:induction false} SweepAlone(ids: EventIds, snapshot: Timeline, keys: seq<nat>, n: nat)
    requires n <= |keys| && forall i :: 0 <= i < n ==> keys[i] in snapshot && snapshot[keys[i]].Good?
    ensures Run(ids, snapshot, keys, Nexts(n)) == Sweep(MigratedAt(ids, snapshot, Elements(keys[..n])), n)
  {
    if n == 0 {
      assert Elements(keys[..0]) == {};
    } else {
      SweepAlone(ids, snapshot, keys, n - 1);
      assert Nexts(n)[..|Nexts(n)| - 1] == Nexts(n - 1);
      MigrateNext(ids, snapshot, keys, n - 1);
    }
  }
}
