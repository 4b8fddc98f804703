/** Keyset pagination: reading a table page by page behind a cursor, against reading it
    with one ordered query. A table is a sequence of rows in any physical order. */
module Paging {

  // ----- Cursor columns and their order -----

  datatype Cell = Null | Int(i: int) | Text(s: string) | Bool(b: bool)

  const I64_MIN: int := -0x8000_0000_0000_0000

  predicate TextLess(a: string, b: string)
  {
    b != [] && (a == [] || a[0] < b[0] || (a[0] == b[0] && TextLess(a[1..], b[1..])))
  }

  /** Columns are of one type each; values of different types are ordered by type. */
  function Sort(c: Cell): nat
  {
    match c
    case Null => 0
    case Int(_) => 1
    case Text(_) => 2
    case Bool(_) => 3
  }

  predicate CellLess(a: Cell, b: Cell)
  {
    match (a, b)
    case (Int(x), Int(y)) => x < y
    case (Text(x), Text(y)) => TextLess(x, y)
    case (Bool(x), Bool(y)) => !x && y
    case _ => Sort(a) < Sort(b)
  }

  type Key = seq<Cell>

  /** The order of a list of columns: the first column that differs decides. */
  predicate KeyLess(a: Key, b: Key)
  {
    b != [] && (a == [] || CellLess(a[0], b[0]) || (a[0] == b[0] && KeyLess(a[1..], b[1..])))
  }

  lemma {:induction false} TextOrder(a: string, b: string, c: string)
    ensures !TextLess(a, a)
    ensures TextLess(a, b) && TextLess(b, c) ==> TextLess(a, c)
    ensures a == b || TextLess(a, b) || TextLess(b, a)
  {
    if a != [] {
      TextOrder(a[1..], if b == [] then [] else b[1..], if c == [] then [] else c[1..]);
      if b != [] && a[0] == b[0] { assert a == [a[0]] + a[1..] && b == [b[0]] + b[1..]; }
    }
  }

  lemma CellOrder(a: Cell, b: Cell, c: Cell)
    ensures !CellLess(a, a)
    ensures CellLess(a, b) && CellLess(b, c) ==> CellLess(a, c)
    ensures a == b || CellLess(a, b) || CellLess(b, a)
  {
    if a.Text? {
      TextOrder(a.s, if b.Text? then b.s else a.s, if c.Text? then c.s else a.s);
    }
  }

  lemma {:induction false} KeyOrder(a: Key, b: Key, c: Key)
    ensures !KeyLess(a, a)
    ensures KeyLess(a, b) && KeyLess(b, c) ==> KeyLess(a, c)
    ensures a == b || KeyLess(a, b) || KeyLess(b, a)
  {
    if a != [] {
      CellOrder(a[0], if b == [] then a[0] else b[0], if c == [] then a[0] else c[0]);
      KeyOrder(a[1..], if b == [] then [] else b[1..], if c == [] then [] else c[1..]);
      if b != [] && a[0] == b[0] { assert a == [a[0]] + a[1..] && b == [b[0]] + b[1..]; }
    }
  }

  /** a and b agree before column c, and column c puts a first; a key that ends there
      comes first, too. */
  predicate DecidedAt(a: Key, b: Key, c: nat)
  {
    c <= |a| && c < |b| && a[..c] == b[..c] && (c == |a| || CellLess(a[c], b[c]))
  }

  ghost predicate ComesFirst(a: Key, b: Key)
  {
    exists c: nat :: DecidedAt(a, b, c)
  }

  lemma {:induction false} KeyLessIff(a: Key, b: Key)
    ensures KeyLess(a, b) <==> ComesFirst(a, b)
  {
    hide CellLess;
    if KeyLess(a, b) {
      if a == [] || CellLess(a[0], b[0]) {
        assert DecidedAt(a, b, 0);
      } else {
        KeyLessIff(a[1..], b[1..]);
        var c: nat :| DecidedAt(a[1..], b[1..], c);
        assert a[..c + 1] == [a[0]] + a[1..][..c] && b[..c + 1] == [b[0]] + b[1..][..c];
        assert DecidedAt(a, b, c + 1);
      }
    }
    if c: nat :| DecidedAt(a, b, c) {
      if c > 0 {
        assert a[0] == a[..c][0] == b[..c][0] == b[0];
        assert a[1..][..c - 1] == a[..c][1..] && b[1..][..c - 1] == b[..c][1..];
        assert DecidedAt(a[1..], b[1..], c - 1);
        KeyLessIff(a[1..], b[1..]);
      }
    }
  }

  /** The same for the characters of two texts. */
  predicate TextDecidedAt(a: string, b: string, i: nat)
  {
    i <= |a| && i < |b| && a[..i] == b[..i] && (i == |a| || a[i] as int < b[i] as int)
  }

  lemma {:induction false} TextLessIff(a: string, b: string)
    ensures TextLess(a, b) <==> exists i: nat :: TextDecidedAt(a, b, i)
  {
    if TextLess(a, b) {
      if a == [] || a[0] < b[0] {
        assert TextDecidedAt(a, b, 0);
      } else {
        TextLessIff(a[1..], b[1..]);
        var i: nat :| TextDecidedAt(a[1..], b[1..], i);
        assert a[..i + 1] == [a[0]] + a[1..][..i] && b[..i + 1] == [b[0]] + b[1..][..i];
        assert TextDecidedAt(a, b, i + 1);
      }
    }
    if i: nat :| TextDecidedAt(a, b, i) {
      if i > 0 {
        assert a[0] == a[..i][0] == b[..i][0] == b[0];
        assert a[1..][..i - 1] == a[..i][1..] && b[1..][..i - 1] == b[..i][1..];
        assert TextDecidedAt(a[1..], b[1..], i - 1);
        TextLessIff(a[1..], b[1..]);
      }
    }
  }

  /** Numbers ascend by value, texts by their first character that differs, and false is
      before true. */
  lemma CellLessIff(x: int, y: int, s: string, t: string, p: bool, q: bool)
    ensures CellLess(Int(x), Int(y)) <==> x < y
    ensures CellLess(Text(s), Text(t)) <==> exists i: nat :: TextDecidedAt(s, t, i)
    ensures CellLess(Bool(p), Bool(q)) <==> !p && q
  {
    TextLessIff(s, t);
  }

  datatype Direction = Asc | Desc

  /** a comes before b when reading in this direction. */
  predicate Before(d: Direction, a: Key, b: Key)
  {
    if d.Asc? then KeyLess(a, b) else KeyLess(b, a)
  }

  lemma BeforeOrder(d: Direction, a: Key, b: Key, c: Key)
    ensures !Before(d, a, a)
    ensures Before(d, a, b) && Before(d, b, c) ==> Before(d, a, c)
    ensures a == b || Before(d, a, b) || Before(d, b, a)
  {
    KeyOrder(a, b, c);
    KeyOrder(c, b, a);
  }

  // ----- Queries -----

  datatype Row = Row(key: Key, data: seq<Cell>)

  /** WHERE key > cursor, or < when reading downwards; rows stay in their order. */
  function Beyond(d: Direction, rows: seq<Row>, cursor: Key): seq<Row>
  {
    if rows == [] then []
    else if Before(d, cursor, rows[0].key) then [rows[0]] + Beyond(d, rows[1..], cursor)
    else Beyond(d, rows[1..], cursor)
  }

  function Insert(d: Direction, row: Row, rows: seq<Row>): seq<Row>
  {
    if rows == [] || Before(d, row.key, rows[0].key) then [row] + rows
    else [rows[0]] + Insert(d, row, rows[1..])
  }

  /** ORDER BY key. */
  function OrderBy(d: Direction, rows: seq<Row>): seq<Row>
  {
    if rows == [] then [] else Insert(d, rows[0], OrderBy(d, rows[1..]))
  }

  /** LIMIT. */
  function Limit(rows: seq<Row>, limit: nat): seq<Row>
  {
    if |rows| <= limit then rows else rows[..limit]
  }

  /** One page: the first rows beyond the cursor, in order. */
  function Page(d: Direction, rows: seq<Row>, cursor: Key, limit: nat): seq<Row>
  {
    Limit(OrderBy(d, Beyond(d, rows, cursor)), limit)
  }

  /** The one-shot query. */
  function OneShot(d: Direction, rows: seq<Row>): seq<Row>
  {
    OrderBy(d, rows)
  }

  predicate UniqueKeys(rows: seq<Row>)
  {
    forall i, j :: 0 <= i < j < |rows| ==> rows[i].key != rows[j].key
  }

  predicate Ordered(d: Direction, rows: seq<Row>)
  {
    forall i, j :: 0 <= i < j < |rows| ==> Before(d, rows[i].key, rows[j].key)
  }

  // ----- The ordered table -----

  lemma {:induction false} InsertSame(d: Direction, row: Row, rows: seq<Row>)
    ensures multiset(Insert(d, row, rows)) == multiset{row} + multiset(rows)
  {
    if rows != [] {
      assert rows == [rows[0]] + rows[1..];
      InsertSame(d, row, rows[1..]);
    }
  }

  /** ORDER BY keeps exactly the rows. */
  lemma {:induction false} OrderBySame(d: Direction, rows: seq<Row>)
    ensures multiset(OrderBy(d, rows)) == multiset(rows)
  {
    if rows != [] {
      assert rows == [rows[0]] + rows[1..];
      OrderBySame(d, rows[1..]);
      InsertSame(d, rows[0], OrderBy(d, rows[1..]));
    }
  }

  lemma {:induction false} InsertOrdered(d: Direction, row: Row, rows: seq<Row>)
    requires Ordered(d, rows)
    requires forall i :: 0 <= i < |rows| ==> rows[i].key != row.key
    ensures Ordered(d, Insert(d, row, rows))
  {
    hide Before;
    if rows != [] {
      BeforeOrder(d, row.key, rows[0].key, row.key);
      if Before(d, row.key, rows[0].key) {
        forall j | 0 < j < |rows| ensures Before(d, row.key, rows[j].key) {
          BeforeOrder(d, row.key, rows[0].key, rows[j].key);
        }
      } else {
        InsertOrdered(d, row, rows[1..]);
        InsertSame(d, row, rows[1..]);
        forall r | r in Insert(d, row, rows[1..]) ensures Before(d, rows[0].key, r.key) {
          assert r in multiset{row} + multiset(rows[1..]);
        }
      }
    }
  }

  /** With unique keys ORDER BY orders strictly. */
  lemma {:induction false} OrderByOrdered(d: Direction, rows: seq<Row>)
    requires UniqueKeys(rows)
    ensures Ordered(d, OrderBy(d, rows))
  {
    if rows != [] {
      var rest := OrderBy(d, rows[1..]);
      OrderByOrdered(d, rows[1..]);
      OrderBySame(d, rows[1..]);
      forall i | 0 <= i < |rest| ensures rest[i].key != rows[0].key {
        assert rest[i] in multiset(rows[1..]);
      }
      InsertOrdered(d, rows[0], rest);
    }
  }

  function Reversed(rows: seq<Row>): (r: seq<Row>)
    ensures |r| == |rows| && forall i :: 0 <= i < |rows| ==> r[i] == rows[|rows| - 1 - i]
  {
    seq(|rows|, i requires 0 <= i < |rows| => rows[|rows| - 1 - i])
  }

  lemma {:induction false} ReversedSame(rows: seq<Row>)
    ensures multiset(Reversed(rows)) == multiset(rows)
  {
    if rows != [] {
      var n := |rows| - 1;
      ReversedSame(rows[..n]);
      assert Reversed(rows) == [rows[n]] + Reversed(rows[..n]);
      assert rows == rows[..n] + [rows[n]];
    }
  }

  lemma FirstIsFirst(d: Direction, a: seq<Row>, b: seq<Row>)
    requires a != [] && b != [] && Ordered(d, a) && Ordered(d, b) && a[0] in b && b[0] in a
    ensures a[0] == b[0]
  {
    hide Before;
    BeforeOrder(d, a[0].key, b[0].key, a[0].key);
    var i :| 0 <= i < |a| && a[i] == b[0];
    var j :| 0 <= j < |b| && b[j] == a[0];
  }

  /** There is one strict order of given rows. */
  lemma {:induction false} OneOrder(d: Direction, a: seq<Row>, b: seq<Row>)
    requires Ordered(d, a) && Ordered(d, b) && multiset(a) == multiset(b)
    ensures a == b
  {
    hide Ordered;
    assert |a| == |multiset(a)| == |multiset(b)| == |b|;
    if a != [] {
      assert a[0] in multiset(b) && b[0] in multiset(a);
      FirstIsFirst(d, a, b);
      SameTails(a, b);
      TailOrdered(d, a);
      TailOrdered(d, b);
      OneOrder(d, a[1..], b[1..]);
    }
  }

  lemma SameTails(a: seq<Row>, b: seq<Row>)
    requires a != [] && b != [] && multiset(a) == multiset(b) && a[0] == b[0]
    ensures multiset(a[1..]) == multiset(b[1..])
    ensures a == [a[0]] + a[1..] && b == [b[0]] + b[1..]
  {
    assert a == [a[0]] + a[1..] && b == [b[0]] + b[1..];
    assert multiset(a[1..]) == multiset(a) - multiset{a[0]};
    assert multiset(b[1..]) == multiset(b) - multiset{b[0]};
  }

  lemma TailOrdered(d: Direction, rows: seq<Row>)
    requires rows != [] && Ordered(d, rows)
    ensures Ordered(d, rows[1..])
  {
    hide Before;
  }

  /** Reading upwards the keys ascend, column by column, and reading downwards yields the
      same rows the other way round. */
  lemma OrderByDirections(rows: seq<Row>)
    requires UniqueKeys(rows)
    ensures OrderBy(Desc, rows) == Reversed(OrderBy(Asc, rows))
    ensures forall i, j :: 0 <= i < j < |OrderBy(Asc, rows)| ==>
      ComesFirst(OrderBy(Asc, rows)[i].key, OrderBy(Asc, rows)[j].key)
  {
    var up, down := OrderBy(Asc, rows), OrderBy(Desc, rows);
    OrderByOrdered(Asc, rows);
    OrderByOrdered(Desc, rows);
    OrderBySame(Asc, rows);
    OrderBySame(Desc, rows);
    ReversedSame(up);
    assert Ordered(Desc, Reversed(up)) by { hide OrderBy, KeyLess; }
    OneOrder(Desc, down, Reversed(up));
    forall i, j | 0 <= i < j < |up| ensures ComesFirst(up[i].key, up[j].key) {
      assert Before(Asc, up[i].key, up[j].key);
      KeyLessIff(up[i].key, up[j].key);
    }
  }

  lemma {:induction false} BeyondInsert(d: Direction, row: Row, rows: seq<Row>, cursor: Key)
    requires Ordered(d, rows)
    ensures Beyond(d, Insert(d, row, rows), cursor)
         == if Before(d, cursor, row.key) then Insert(d, row, Beyond(d, rows, cursor)) else Beyond(d, rows, cursor)
  {
    if rows != [] {
      BeforeOrder(d, cursor, row.key, rows[0].key);
      if Before(d, row.key, rows[0].key) {
        assert ([row] + rows)[1..] == rows;
      } else {
        BeyondInsert(d, row, rows[1..], cursor);
        assert ([rows[0]] + Insert(d, row, rows[1..]))[1..] == Insert(d, row, rows[1..]);
        assert ([rows[0]] + Beyond(d, rows[1..], cursor))[1..] == Beyond(d, rows[1..], cursor);
      }
    }
  }

  lemma {:induction false} BeyondIsWithin(d: Direction, rows: seq<Row>, cursor: Key)
    ensures forall r :: r in Beyond(d, rows, cursor) <==> r in rows && Before(d, cursor, r.key)
    ensures UniqueKeys(rows) ==> UniqueKeys(Beyond(d, rows, cursor))
  {
    if rows != [] {
      BeyondIsWithin(d, rows[1..], cursor);
      var rest := Beyond(d, rows[1..], cursor);
      if UniqueKeys(rows) {
        forall i | 0 <= i < |rest| ensures rest[i].key != rows[0].key {
          assert rest[i] in rows[1..];
        }
      }
    }
  }

  /** WHERE and ORDER BY commute. */
  lemma {:induction false} BeyondOrderBy(d: Direction, rows: seq<Row>, cursor: Key)
    requires UniqueKeys(rows)
    ensures Beyond(d, OrderBy(d, rows), cursor) == OrderBy(d, Beyond(d, rows, cursor))
  {
    if rows != [] {
      BeyondOrderBy(d, rows[1..], cursor);
      OrderByOrdered(d, rows[1..]);
      BeyondInsert(d, rows[0], OrderBy(d, rows[1..]), cursor);
      var filtered := Beyond(d, rows[1..], cursor);
      assert ([rows[0]] + filtered)[1..] == filtered;
    }
  }

  lemma {:induction false} BeyondAll(d: Direction, rows: seq<Row>, cursor: Key)
    requires forall i :: 0 <= i < |rows| ==> Before(d, cursor, rows[i].key)
    ensures Beyond(d, rows, cursor) == rows
  {
    if rows != [] {
      BeyondAll(d, rows[1..], cursor);
      assert rows == [rows[0]] + rows[1..];
    }
  }

  /** Beyond the key of row m are exactly the rows after row m. */
  lemma {:induction false} BeyondRow(d: Direction, rows: seq<Row>, m: nat)
    requires Ordered(d, rows) && m < |rows|
    ensures Beyond(d, rows, rows[m].key) == rows[m + 1..]
  {
    BeforeOrder(d, rows[0].key, rows[m].key, rows[0].key);
    if m == 0 {
      BeyondAll(d, rows[1..], rows[0].key);
    } else {
      BeyondRow(d, rows[1..], m - 1);
    }
  }

  /** What a page query returns when k rows of the ordered table are behind the cursor,
      and where its last row puts the cursor. */
  lemma PageAt(d: Direction, rows: seq<Row>, all: seq<Row>, cursor: Key, limit: nat, k: nat) returns (next: nat)
    requires UniqueKeys(rows) && all == OrderBy(d, rows) && limit > 0
    requires k <= |all| && Beyond(d, all, cursor) == all[k..]
    ensures k <= next <= |all| && Page(d, rows, cursor, limit) == all[k..next]
    ensures next == k <==> k == |all|
    ensures next - k <= limit && (next < |all| ==> next - k == limit)
    ensures next > k ==> Beyond(d, all, all[next - 1].key) == all[next..]
  {
    hide OrderBy, Beyond, Before, UniqueKeys;
    next := if k + limit < |all| then k + limit else |all|;
    BeyondOrderBy(d, rows, cursor);
    assert Limit(all[k..], limit) == all[k..next];
    if k < |all| {
      OrderByOrdered(d, rows);
      BeyondRow(d, all, next - 1);
    }
  }

  // ----- What a page query reads -----

  /** A row of the events table, as far as edges are joined with it. */
  datatype Event = Event(id: Cell, room: Cell)

  /** A table, or edges left-joined with events after each page was cut. */
  datatype Source = Table(rows: seq<Row>) | EdgesWithEvents(edges: seq<Row>, events: seq<Event>)

  /** COALESCE(edge.room, room), for an edge whose room is its first data column. */
  function WithRoom(edge: Row, room: Cell): Row
  {
    if edge.data != [] && edge.data[0] == Null then edge.(data := edge.data[0 := room]) else edge
  }

  /** The events that the edge, whose first key column is its event, is joined with. */
  function Matches(edge: Row, events: seq<Event>): seq<Row>
  {
    if events == [] then []
    else if edge.key != [] && events[0].id == edge.key[0] then
      [WithRoom(edge, events[0].room)] + Matches(edge, events[1..])
    else Matches(edge, events[1..])
  }

  /** LEFT JOIN of one edge. */
  function JoinEdge(edge: Row, events: seq<Event>): seq<Row>
  {
    var matches := Matches(edge, events);
    if matches == [] then [edge] else matches
  }

  function Joined(edges: seq<Row>, events: seq<Event>): seq<Row>
  {
    if edges == [] then [] else JoinEdge(edges[0], events) + Joined(edges[1..], events)
  }

  /** The rows that cursors are over; each is joined to one row or more with its key. */
  function Base(source: Source): seq<Row>
  {
    match source
    case Table(rows) => rows
    case EdgesWithEvents(edges, _) => edges
  }

  /** The rows that the one-shot query orders. */
  function RowsOf(source: Source): seq<Row>
  {
    match source
    case Table(rows) => rows
    case EdgesWithEvents(edges, events) => Joined(edges, events)
  }

  /** The page query: for edges, the page is cut first, then joined, ordered and cut again. */
  function PageOf(d: Direction, source: Source, cursor: Key, limit: nat): seq<Row>
  {
    match source
    case Table(rows) => Page(d, rows, cursor, limit)
    case EdgesWithEvents(edges, events) =>
      Limit(OrderBy(d, Joined(Page(d, edges, cursor, limit), events)), limit)
  }

  /** No edge matches more than one event. */
  predicate MatchesOnce(edges: seq<Row>, events: seq<Event>)
  {
    forall e :: e in edges ==> |JoinEdge(e, events)| == 1
  }

  predicate UniqueIds(events: seq<Event>)
  {
    forall i, j :: 0 <= i < j < |events| ==> events[i].id != events[j].id
  }

  lemma {:induction false} NoMatch(edge: Row, events: seq<Event>)
    requires forall i :: 0 <= i < |events| ==> edge.key == [] || events[i].id != edge.key[0]
    ensures Matches(edge, events) == []
  {
    if events != [] { NoMatch(edge, events[1..]); }
  }

  /** Unique event ids are enough for edges to match once. */
  lemma {:induction false} UniqueIdsMatchOnce(edge: Row, events: seq<Event>)
    requires UniqueIds(events)
    ensures |JoinEdge(edge, events)| == 1
  {
    if events != [] {
      if edge.key != [] && events[0].id == edge.key[0] {
        NoMatch(edge, events[1..]);
      } else {
        UniqueIdsMatchOnce(edge, events[1..]);
      }
    }
  }

  lemma {:induction false} MatchesHaveKey(edge: Row, events: seq<Event>)
    ensures forall r :: r in Matches(edge, events) ==> r.key == edge.key
  {
    if events != [] { MatchesHaveKey(edge, events[1..]); }
  }

  /** An edge is joined to at least one row, and to rows with its own key only. */
  lemma JoinKeepsKey(edge: Row, events: seq<Event>)
    ensures |JoinEdge(edge, events)| >= 1 && forall r :: r in JoinEdge(edge, events) ==> r.key == edge.key
  {
    MatchesHaveKey(edge, events);
  }

  lemma JoinedConcat(edge: Row, edges: seq<Row>, events: seq<Event>)
    ensures Joined([edge] + edges, events) == JoinEdge(edge, events) + Joined(edges, events)
  {
    assert ([edge] + edges)[1..] == edges;
  }

  lemma JoinedCons(edge: Row, edges: seq<Row>, events: seq<Event>) returns (row: Row)
    requires |JoinEdge(edge, events)| == 1
    ensures JoinEdge(edge, events) == [row] && row.key == edge.key
    ensures Joined([edge] + edges, events) == [row] + Joined(edges, events)
  {
    JoinKeepsKey(edge, events);
    JoinedConcat(edge, edges, events);
    row := JoinEdge(edge, events)[0];
    assert row in JoinEdge(edge, events);
  }

  // ----- What an edge is joined to -----

  /** The event is the one that the edge, by its first key column, is about. */
  predicate IsAbout(edge: Row, event: Event)
  {
    edge.key != [] && edge.key[0] == event.id
  }

  /** The edge as it was, but for its room, its first data column: if there is none, it is
      that of the event. */
  predicate IsJoinOf(edge: Row, event: Event, row: Row)
  {
    && row.key == edge.key && |row.data| == |edge.data|
    && forall c :: 0 <= c < |row.data| ==>
         row.data[c] == if c == 0 && edge.data[0] == Null then event.room else edge.data[c]
  }

  /** ms are the positions of the events that the edge is about, in order. */
  ghost predicate AllMatches(edge: Row, events: seq<Event>, ms: seq<nat>)
  {
    && (forall i, j :: 0 <= i < j < |ms| ==> ms[i] < ms[j])
    && (forall n: nat :: n in ms <==> n < |events| && IsAbout(edge, events[n]))
  }

  /** The matches among later events, and among all of them. */
  lemma MatchesShift(edge: Row, events: seq<Event>, rest: seq<nat>) returns (ms: seq<nat>)
    requires events != [] && AllMatches(edge, events[1..], rest)
    ensures AllMatches(edge, events, ms)
    ensures var skip := if IsAbout(edge, events[0]) then 1 else 0;
      && |ms| == |rest| + skip && (skip == 1 ==> ms[0] == 0)
      && forall j :: 0 <= j < |rest| ==> ms[j + skip] == rest[j] + 1
  {
    hide IsAbout;
    var later := seq(|rest|, j requires 0 <= j < |rest| => rest[j] + 1);
    forall n: nat ensures n in later <==> 0 < n < |events| && IsAbout(edge, events[n]) {
      if n in later { assert n - 1 in rest; }
      if 0 < n < |events| && IsAbout(edge, events[n]) {
        assert events[1..][n - 1] == events[n] && n - 1 in rest;
        var j :| 0 <= j < |rest| && rest[j] == n - 1;
        assert later[j] == n;
      }
    }
    ms := if IsAbout(edge, events[0]) then [0] + later else later;
  }

  /** The rows are the joins of the edge with these events. */
  ghost predicate JoinsWith(edge: Row, events: seq<Event>, ms: seq<nat>, rows: seq<Row>)
  {
    |rows| == |ms| && forall j :: 0 <= j < |ms| ==> ms[j] < |events| && IsJoinOf(edge, events[ms[j]], rows[j])
  }

  lemma JoinsShift(edge: Row, events: seq<Event>, rest: seq<nat>, ms: seq<nat>, rows: seq<Row>, skip: nat)
    requires events != [] && JoinsWith(edge, events[1..], rest, rows) && |ms| == |rest| + skip && skip <= 1
    requires skip == 1 ==> ms[0] == 0
    requires forall j :: 0 <= j < |rest| ==> ms[j + skip] == rest[j] + 1
    ensures
      JoinsWith(edge, events, ms, if skip == 1 then [WithRoom(edge, events[0].room)] + rows else rows)
  {
    hide IsJoinOf, WithRoom;
    var all := if skip == 1 then [WithRoom(edge, events[0].room)] + rows else rows;
    forall j | 0 <= j < |ms| ensures ms[j] < |events| && IsJoinOf(edge, events[ms[j]], all[j]) {
      if j < skip {
        WithRoomIsJoin(edge, events[0]);
      } else {
        var k := j - skip;
        assert ms[k + skip] == rest[k] + 1 && rest[k] < |events[1..]|;
        assert IsJoinOf(edge, events[1..][rest[k]], rows[k]);
      }
    }
  }

  lemma {:induction false} MatchesAre(edge: Row, events: seq<Event>) returns (ms: seq<nat>)
    ensures AllMatches(edge, events, ms) && JoinsWith(edge, events, ms, Matches(edge, events))
  {
    hide WithRoom, IsJoinOf;
    if events == [] {
      ms := [];
    } else {
      var rest := MatchesAre(edge, events[1..]);
      ms := MatchesShift(edge, events, rest);
      hide AllMatches, JoinsWith;
      JoinsShift(edge, events, rest, ms, Matches(edge, events[1..]), if IsAbout(edge, events[0]) then 1 else 0);
    }
  }

  lemma NotAbout(edge: Row, events: seq<Event>)
    requires forall e :: e in events ==> !IsAbout(edge, e)
    ensures Matches(edge, events) == []
  {
    forall i | 0 <= i < |events| ensures edge.key == [] || events[i].id != edge.key[0] {
      assert events[i] in events && !IsAbout(edge, events[i]);
    }
    NoMatch(edge, events);
  }

  lemma WithRoomIsJoin(edge: Row, event: Event)
    ensures IsJoinOf(edge, event, WithRoom(edge, event.room))
  {
  }

  /** An edge that no event matches stays as it is, alone; otherwise there is one row for
      each event that matches, in order, with the room of the edge or else of that event. */
  lemma OneEdgeJoined(edge: Row, events: seq<Event>) returns (ms: seq<nat>)
    ensures AllMatches(edge, events, ms)
    ensures
      var rows := RowsOf(EdgesWithEvents([edge], events));
      if ms == [] then rows == [edge]
      else JoinsWith(edge, events, ms, rows)
  {
    ms := MatchesAre(edge, events);
    assert [edge][1..] == [] && Joined([], events) == [];
    assert Joined([edge], events) == JoinEdge(edge, events);
  }

  /** Each edge is joined by itself. */
  lemma {:induction false} EdgesJoined(a: seq<Row>, b: seq<Row>, events: seq<Event>)
    ensures RowsOf(EdgesWithEvents(a + b, events))
         == RowsOf(EdgesWithEvents(a, events)) + RowsOf(EdgesWithEvents(b, events))
  {
    if a == [] {
      assert a + b == b;
    } else {
      assert (a + b)[1..] == a[1..] + b;
      EdgesJoined(a[1..], b, events);
    }
  }

  /** The row is the edge without a match, or its join with one that it is about. */
  predicate ComesFrom(edge: Row, events: seq<Event>, row: Row)
  {
    || (row == edge && forall e :: e in events ==> !IsAbout(edge, e))
    || (exists e :: e in events && IsAbout(edge, e) && IsJoinOf(edge, e, row))
  }

  /** The rows of the join. */
  lemma {:induction false} JoinedRow(edges: seq<Row>, events: seq<Event>, row: Row)
    ensures row in RowsOf(EdgesWithEvents(edges, events))
       <==> exists edge :: edge in edges && ComesFrom(edge, events, row)
  {
    if edges != [] {
      hide ComesFrom, JoinEdge;
      JoinedRow(edges[1..], events, row);
      OneEdgeRow(edges[0], events, row);
      assert edges == [edges[0]] + edges[1..];
    }
  }

  lemma OneEdgeRow(edge: Row, events: seq<Event>, row: Row)
    ensures row in JoinEdge(edge, events) <==> ComesFrom(edge, events, row)
  {
    hide IsJoinOf, IsAbout;
    var ms := MatchesAre(edge, events);
    if row in JoinEdge(edge, events) {
      if ms == [] {
        assert forall e :: e in events ==> exists n: nat :: n < |events| && events[n] == e;
      } else {
        var j :| 0 <= j < |ms| && Matches(edge, events)[j] == row;
        assert ms[j] in ms && events[ms[j]] in events;
      }
    }
    if ComesFrom(edge, events, row) {
      if e :| e in events && IsAbout(edge, e) && IsJoinOf(edge, e, row) {
        var n: nat :| n < |events| && events[n] == e;
        assert n in ms;
        var j :| 0 <= j < |ms| && ms[j] == n;
        JoinIsOne(edge, e, row, Matches(edge, events)[j]);
      } else {
        NotAbout(edge, events);
      }
    }
  }

  lemma JoinIsOne(edge: Row, event: Event, a: Row, b: Row)
    requires IsJoinOf(edge, event, a) && IsJoinOf(edge, event, b)
    ensures a == b
  {
  }

  lemma MatchesOnceRest(edges: seq<Row>, events: seq<Event>)
    requires edges != []
    ensures MatchesOnce(edges, events) <==> |JoinEdge(edges[0], events)| == 1 && MatchesOnce(edges[1..], events)
  {
    assert edges == [edges[0]] + edges[1..];
  }

  lemma {:induction false} JoinedShape(edges: seq<Row>, events: seq<Event>)
    requires MatchesOnce(edges, events)
    ensures |Joined(edges, events)| == |edges|
    ensures forall i :: 0 <= i < |edges| ==>
      Joined(edges, events)[i].key == edges[i].key && [Joined(edges, events)[i]] == JoinEdge(edges[i], events)
  {
    if edges != [] {
      assert edges == [edges[0]] + edges[1..];
      MatchesOnceRest(edges, events);
      var _ := JoinedCons(edges[0], edges[1..], events);
      JoinedShape(edges[1..], events);
    }
  }

  /** The join has a row for each edge, and no more if and only if they match once. */
  lemma {:induction false} JoinedLength(edges: seq<Row>, events: seq<Event>)
    ensures |Joined(edges, events)| >= |edges|
    ensures |Joined(edges, events)| == |edges| <==> MatchesOnce(edges, events)
  {
    if edges != [] {
      JoinKeepsKey(edges[0], events);
      MatchesOnceRest(edges, events);
      JoinedLength(edges[1..], events);
    }
  }

  lemma {:induction false} JoinedKeys(edges: seq<Row>, events: seq<Event>)
    ensures forall r :: r in Joined(edges, events) ==> exists i :: 0 <= i < |edges| && edges[i].key == r.key
  {
    if edges != [] {
      JoinKeepsKey(edges[0], events);
      JoinedKeys(edges[1..], events);
      forall r | r in Joined(edges[1..], events) ensures exists i :: 0 <= i < |edges| && edges[i].key == r.key {
        var i :| 0 <= i < |edges[1..]| && edges[1..][i].key == r.key;
        assert edges[i + 1].key == r.key;
      }
    }
  }

  lemma UniqueParts(a: seq<Row>, b: seq<Row>)
    requires UniqueKeys(a + b)
    ensures UniqueKeys(a) && UniqueKeys(b)
  {
    var all := a + b;
    forall i, j | 0 <= i < j < |a| ensures a[i].key != a[j].key { assert all[i].key != all[j].key; }
    forall i, j | 0 <= i < j < |b| ensures b[i].key != b[j].key {
      assert all[|a| + i].key != all[|a| + j].key;
    }
  }

  /** The keys of the join are unique if and only if those of the edges are and every edge
      matches once. */
  lemma {:induction false} JoinedUniqueIff(edges: seq<Row>, events: seq<Event>)
    ensures UniqueKeys(Joined(edges, events)) <==> UniqueKeys(edges) && MatchesOnce(edges, events)
  {
    hide JoinEdge;
    if UniqueKeys(Joined(edges, events)) && edges != [] {
      var first := JoinEdge(edges[0], events);
      UniqueParts(first, Joined(edges[1..], events));
      MatchesOnceRest(edges, events);
      JoinedUniqueIff(edges[1..], events);
      JoinKeepsKey(edges[0], events);
      OneOfOneKey(first, edges[0].key);
    }
    if MatchesOnce(edges, events) {
      JoinedShape(edges, events);
      SameKeysUnique(edges, Joined(edges, events));
    }
  }

  lemma SameKeysUnique(a: seq<Row>, b: seq<Row>)
    requires |a| == |b| && forall i :: 0 <= i < |a| ==> b[i].key == a[i].key
    ensures UniqueKeys(a) <==> UniqueKeys(b)
  {
    if UniqueKeys(b) {
      forall i, j | 0 <= i < j < |a| ensures a[i].key != a[j].key { assert b[i].key != b[j].key; }
    }
  }

  lemma OneOfOneKey(rows: seq<Row>, key: Key)
    requires forall r :: r in rows ==> r.key == key
    ensures UniqueKeys(rows) ==> |rows| <= 1
  {
    assert |rows| > 1 ==> rows[0] in rows && rows[1] in rows;
    assert |rows| > 1 ==> rows[0].key == rows[1].key;
  }

  lemma {:induction false} BeyondConcat(d: Direction, a: seq<Row>, b: seq<Row>, cursor: Key)
    ensures Beyond(d, a + b, cursor) == Beyond(d, a, cursor) + Beyond(d, b, cursor)
  {
    if a == [] {
      assert a + b == b;
    } else {
      assert (a + b)[1..] == a[1..] + b;
      BeyondConcat(d, a[1..], b, cursor);
    }
  }

  lemma {:induction false} BeyondNone(d: Direction, rows: seq<Row>, cursor: Key)
    requires forall i :: 0 <= i < |rows| ==> !Before(d, cursor, rows[i].key)
    ensures Beyond(d, rows, cursor) == []
  {
    if rows != [] { BeyondNone(d, rows[1..], cursor); }
  }

  /** WHERE and the join commute, whatever matches. */
  lemma {:induction false} JoinedBeyond(d: Direction, edges: seq<Row>, events: seq<Event>, cursor: Key)
    ensures Beyond(d, Joined(edges, events), cursor) == Joined(Beyond(d, edges, cursor), events)
  {
    if edges != [] {
      var first := JoinEdge(edges[0], events);
      JoinedBeyond(d, edges[1..], events, cursor);
      JoinKeepsKey(edges[0], events);
      BeyondConcat(d, first, Joined(edges[1..], events), cursor);
      forall i | 0 <= i < |first| ensures first[i].key == edges[0].key { assert first[i] in first; }
      if Before(d, cursor, edges[0].key) {
        BeyondAll(d, first, cursor);
        JoinedConcat(edges[0], Beyond(d, edges[1..], cursor), events);
      } else {
        BeyondNone(d, first, cursor);
      }
    }
  }

  lemma {:induction false} JoinedInsert(d: Direction, edge: Row, row: Row, edges: seq<Row>, events: seq<Event>)
    requires MatchesOnce(edges, events) && JoinEdge(edge, events) == [row] && row.key == edge.key
    ensures Joined(Insert(d, edge, edges), events) == Insert(d, row, Joined(edges, events))
  {
    if edges == [] || Before(d, edge.key, edges[0].key) {
      var _ := JoinedCons(edge, edges, events);
      if edges != [] { JoinedShape(edges, events); }
    } else {
      assert edges == [edges[0]] + edges[1..];
      MatchesOnceRest(edges, events);
      var first := JoinedCons(edges[0], edges[1..], events);
      JoinedInsert(d, edge, row, edges[1..], events);
      var _ := JoinedCons(edges[0], Insert(d, edge, edges[1..]), events);
      assert Joined(edges, events)[1..] == Joined(edges[1..], events);
    }
  }

  lemma {:induction false} JoinedOrderBy(d: Direction, edges: seq<Row>, events: seq<Event>)
    requires MatchesOnce(edges, events)
    ensures OrderBy(d, Joined(edges, events)) == Joined(OrderBy(d, edges), events)
    ensures MatchesOnce(OrderBy(d, edges), events)
  {
    OrderByMatches(d, edges, events);
    if edges != [] {
      assert edges == [edges[0]] + edges[1..];
      MatchesOnceRest(edges, events);
      var row := JoinedCons(edges[0], edges[1..], events);
      JoinedOrderBy(d, edges[1..], events);
      JoinedInsert(d, edges[0], row, OrderBy(d, edges[1..]), events);
      assert Joined(edges, events)[1..] == Joined(edges[1..], events);
    }
  }

  lemma OrderByMatches(d: Direction, edges: seq<Row>, events: seq<Event>)
    requires MatchesOnce(edges, events)
    ensures MatchesOnce(OrderBy(d, edges), events)
  {
    OrderBySame(d, edges);
    forall e | e in OrderBy(d, edges) ensures |JoinEdge(e, events)| == 1 {
      assert e in multiset(OrderBy(d, edges));
    }
  }

  lemma {:induction false} JoinedLimit(edges: seq<Row>, events: seq<Event>, limit: nat)
    requires MatchesOnce(edges, events)
    ensures Joined(Limit(edges, limit), events) == Limit(Joined(edges, events), limit)
  {
    JoinedShape(edges, events);
    JoinedShape(Limit(edges, limit), events);
    if edges != [] && |edges| > limit {
      forall i | 0 <= i < limit
        ensures Joined(edges[..limit], events)[i] == Joined(edges, events)[i]
      {
        assert [Joined(edges[..limit], events)[i]] == [Joined(edges, events)[i]];
      }
    }
  }

  lemma {:induction false} OrderByIdempotent(d: Direction, rows: seq<Row>)
    requires Ordered(d, rows)
    ensures OrderBy(d, rows) == rows
  {
    if rows != [] {
      OrderByIdempotent(d, rows[1..]);
      assert rows == [rows[0]] + rows[1..];
    }
  }

  /** Where the joined rows beyond the cursor have unique keys, joining the limited page of
      edges is paging the joined table. */
  lemma SourcePage(d: Direction, source: Source, cursor: Key, limit: nat)
    requires UniqueKeys(Beyond(d, RowsOf(source), cursor))
    ensures PageOf(d, source, cursor, limit) == Page(d, RowsOf(source), cursor, limit)
  {
    hide UniqueKeys, Ordered, OrderBy, Beyond, MatchesOnce, Joined;
    if source.EdgesWithEvents? {
      var edges, events := source.edges, source.events;
      var beyond := Beyond(d, edges, cursor);
      JoinedBeyond(d, edges, events, cursor);
      JoinedUniqueIff(beyond, events);
      JoinedOrderBy(d, beyond, events);
      JoinedLimit(OrderBy(d, beyond), events, limit);
      var page := Page(d, RowsOf(source), cursor, limit);
      OrderByOrdered(d, Beyond(d, RowsOf(source), cursor));
      LimitOrdered(d, OrderBy(d, Beyond(d, RowsOf(source), cursor)), limit);
      OrderByIdempotent(d, page);
    }
  }

  lemma LimitOrdered(d: Direction, rows: seq<Row>, limit: nat)
    requires Ordered(d, rows)
    ensures Ordered(d, Limit(rows, limit))
  {
  }

  lemma SameLength(d: Direction, rows: seq<Row>)
    ensures |OrderBy(d, rows)| == |rows|
  {
    OrderBySame(d, rows);
    assert |multiset(OrderBy(d, rows))| == |multiset(rows)|;
  }

  // ----- Batches -----

  function Concat(batches: seq<seq<Row>>): seq<Row>
  {
    if batches == [] then [] else batches[0] + Concat(batches[1..])
  }

  /** Batches of `limit` rows, a last one that may be shorter, and none empty. */
  predicate WellSized(batches: seq<seq<Row>>, limit: nat)
  {
    forall j :: 0 <= j < |batches| ==>
      0 < |batches[j]| <= limit && (j < |batches| - 1 ==> |batches[j]| == limit)
  }

  lemma {:induction false} BeyondShrinks(d: Direction, rows: seq<Row>, a: Key, b: Key)
    requires Before(d, a, b)
    ensures |Beyond(d, rows, b)| <= |Beyond(d, rows, a)|
    ensures (exists i :: 0 <= i < |rows| && rows[i].key == b) ==> |Beyond(d, rows, b)| < |Beyond(d, rows, a)|
  {
    if rows != [] {
      BeyondShrinks(d, rows[1..], a, b);
      BeforeOrder(d, a, b, rows[0].key);
      BeforeOrder(d, b, rows[0].key, b);
      if exists i :: 0 <= i < |rows| && rows[i].key == b {
        var i :| 0 <= i < |rows| && rows[i].key == b;
        if i > 0 { assert rows[1..][i - 1].key == b; }
      }
    }
  }

  /** The last row of a page has the key of a row beyond the cursor. */
  lemma PageProgress(d: Direction, source: Source, cursor: Key, limit: nat)
    ensures
      var page := PageOf(d, source, cursor, limit);
      page != [] ==>
        var next := page[|page| - 1].key;
        Before(d, cursor, next) && |Beyond(d, Base(source), next)| < |Beyond(d, Base(source), cursor)|
  {
    hide *;
    var page := PageOf(d, source, cursor, limit);
    if page != [] {
      var last := page[|page| - 1];
      var e := PageRow(d, source, cursor, limit, last);
      BeyondIsWithin(d, Base(source), cursor);
      HasKey(Base(source), e);
      BeyondShrinks(d, Base(source), cursor, last.key);
    }
  }

  lemma HasKey(rows: seq<Row>, e: Row)
    requires e in rows
    ensures exists i :: 0 <= i < |rows| && rows[i].key == e.key
  {
    var i :| 0 <= i < |rows| && rows[i] == e;
    assert rows[i].key == e.key;
  }

  lemma LimitIsWithin(rows: seq<Row>, limit: nat)
    ensures forall r :: r in Limit(rows, limit) ==> r in rows
  {
  }

  lemma OrderByIsWithin(d: Direction, rows: seq<Row>)
    ensures forall r :: r in OrderBy(d, rows) <==> r in rows
  {
    OrderBySame(d, rows);
    forall r ensures r in OrderBy(d, rows) <==> r in rows {
      assert r in multiset(OrderBy(d, rows)) <==> r in multiset(rows);
    }
  }

  lemma PageRow(d: Direction, source: Source, cursor: Key, limit: nat, r: Row) returns (e: Row)
    requires r in PageOf(d, source, cursor, limit)
    ensures e in Beyond(d, Base(source), cursor) && e.key == r.key
  {
    var beyond := Beyond(d, Base(source), cursor);
    var page := Page(d, Base(source), cursor, limit);
    LimitIsWithin(OrderBy(d, beyond), limit);
    OrderByIsWithin(d, beyond);
    if source.Table? {
      e := r;
    } else {
      var joined := Joined(page, source.events);
      LimitIsWithin(OrderBy(d, joined), limit);
      OrderByIsWithin(d, joined);
      JoinedKeys(page, source.events);
      var i :| 0 <= i < |page| && page[i].key == r.key;
      e := page[i];
      assert e in page;
    }
  }

  /** A page holds rows of the one-shot query only. */
  lemma PageRows(d: Direction, source: Source, cursor: Key, limit: nat)
    ensures forall r :: r in PageOf(d, source, cursor, limit) ==> r in RowsOf(source)
  {
    match source {
      case Table(rows) => PageIsWithin(d, rows, cursor, limit);
      case EdgesWithEvents(edges, events) =>
        hide Joined, ComesFrom, Page;
        var page := Page(d, edges, cursor, limit);
        PageIsWithin(d, edges, cursor, limit);
        forall r | r in PageOf(d, source, cursor, limit) ensures r in RowsOf(source) {
          LimitIsWithin(OrderBy(d, Joined(page, events)), limit);
          OrderByIsWithin(d, Joined(page, events));
          JoinedRow(page, events, r);
          JoinedRow(edges, events, r);
        }
    }
  }

  lemma PageIsWithin(d: Direction, rows: seq<Row>, cursor: Key, limit: nat)
    ensures forall r :: r in Page(d, rows, cursor, limit) ==> r in rows
  {
    var beyond := Beyond(d, rows, cursor);
    LimitIsWithin(OrderBy(d, beyond), limit);
    OrderByIsWithin(d, beyond);
    BeyondIsWithin(d, rows, cursor);
  }

  /** What the loop delivers: page after page, until one is empty. */
  function Batches(d: Direction, source: Source, cursor: Key, limit: nat): seq<seq<Row>>
    decreases |Beyond(d, Base(source), cursor)|
  {
    var page := PageOf(d, source, cursor, limit);
    if page == [] then []
    else
      PageProgress(d, source, cursor, limit);
      [page] + Batches(d, source, page[|page| - 1].key, limit)
  }

  lemma {:induction false} BeyondTwice(d: Direction, rows: seq<Row>, a: Key, b: Key)
    requires Before(d, a, b)
    ensures Beyond(d, Beyond(d, rows, a), b) == Beyond(d, rows, b)
  {
    if rows != [] {
      BeyondTwice(d, rows[1..], a, b);
      BeforeOrder(d, a, b, rows[0].key);
      BeyondCons(d, rows[0], Beyond(d, rows[1..], a), b);
    }
  }

  lemma BeyondCons(d: Direction, row: Row, rows: seq<Row>, cursor: Key)
    ensures Beyond(d, [row] + rows, cursor)
         == (if Before(d, cursor, row.key) then [row] else []) + Beyond(d, rows, cursor)
  {
    assert ([row] + rows)[1..] == rows;
  }

  lemma BeyondItself(d: Direction, rows: seq<Row>, cursor: Key)
    ensures Beyond(d, Beyond(d, rows, cursor), cursor) == Beyond(d, rows, cursor)
  {
    var beyond := Beyond(d, rows, cursor);
    BeyondIsWithin(d, rows, cursor);
    forall i | 0 <= i < |beyond| ensures Before(d, cursor, beyond[i].key) { assert beyond[i] in beyond; }
    BeyondAll(d, beyond, cursor);
  }

  /** One turn of the loop in terms of the one-shot result beyond the cursor. */
  lemma FirstBatch(d: Direction, source: Source, cursor: Key, limit: nat) returns (n: nat)
    requires UniqueKeys(Beyond(d, RowsOf(source), cursor)) && limit > 0
    ensures
      var all, page := OneShot(d, Beyond(d, RowsOf(source), cursor)), PageOf(d, source, cursor, limit);
      && n <= |all| && page == all[..n] && (n == 0 <==> all == [])
      && n <= limit && (n < |all| ==> n == limit)
      && (n > 0 ==> OneShot(d, Beyond(d, RowsOf(source), all[n - 1].key)) == all[n..])
  {
    hide UniqueKeys, OrderBy, Beyond, PageOf, RowsOf, Before;
    var rows := Beyond(d, RowsOf(source), cursor);
    SourcePage(d, source, cursor, limit);
    BeyondItself(d, RowsOf(source), cursor);
    BeyondIsWithin(d, RowsOf(source), cursor);
    var all := OrderBy(d, rows);
    BeyondOrderBy(d, rows, cursor);
    assert all[0..] == all;
    n := PageAt(d, rows, all, cursor, limit, 0);
    if n > 0 {
      var next := all[n - 1].key;
      OrderByIsWithin(d, rows);
      assert all[n - 1] in rows;
      BeyondTwice(d, RowsOf(source), cursor, next);
      BeyondOrderBy(d, rows, next);
    }
  }

  lemma UniqueLater(d: Direction, rows: seq<Row>, a: Key, b: Key)
    requires UniqueKeys(Beyond(d, rows, a)) && Before(d, a, b)
    ensures UniqueKeys(Beyond(d, rows, b))
  {
    BeyondTwice(d, rows, a, b);
    BeyondIsWithin(d, Beyond(d, rows, a), b);
  }

  /** Where the rows beyond the cursor have unique keys, the batches join up to the one-shot
      result beyond it, each row once and in order, in full batches. */
  lemma {:induction false} BatchesAreOneShot(d: Direction, source: Source, cursor: Key, limit: nat)
    requires UniqueKeys(Beyond(d, RowsOf(source), cursor)) && limit > 0
    ensures Concat(Batches(d, source, cursor, limit)) == OneShot(d, Beyond(d, RowsOf(source), cursor))
    ensures WellSized(Batches(d, source, cursor, limit), limit)
    decreases |Beyond(d, Base(source), cursor)|
  {
    hide UniqueKeys, OrderBy, OneShot, Beyond, PageOf, RowsOf, Base, Batches, Concat, WellSized, Before;
    var n := FirstBatch(d, source, cursor, limit);
    var all, page := OneShot(d, Beyond(d, RowsOf(source), cursor)), PageOf(d, source, cursor, limit);
    BatchesNil(d, source, cursor, limit);
    if page == [] {
      NoBatches(limit);
    } else {
      PageProgress(d, source, cursor, limit);
      var next := page[n - 1].key;
      UniqueLater(d, RowsOf(source), cursor, next);
      BatchesAreOneShot(d, source, next, limit);
      BatchesCons(d, source, cursor, limit);
      assert all[..n] + all[n..] == all;
      NothingMore(Batches(d, source, next, limit), limit);
      OneMoreBatch(page, Batches(d, source, next, limit), limit);
    }
  }

  lemma NoBatches(limit: nat)
    ensures Concat([]) == [] && WellSized([], limit)
  {
  }

  lemma OneMoreBatch(page: seq<Row>, rest: seq<seq<Row>>, limit: nat)
    requires 0 < |page| <= limit && WellSized(rest, limit) && (rest != [] ==> |page| == limit)
    ensures WellSized([page] + rest, limit)
  {
  }

  lemma BatchesCons(d: Direction, source: Source, cursor: Key, limit: nat)
    requires PageOf(d, source, cursor, limit) != []
    ensures
      var page := PageOf(d, source, cursor, limit);
      var rest := Batches(d, source, page[|page| - 1].key, limit);
      && Batches(d, source, cursor, limit) == [page] + rest
      && Concat([page] + rest) == page + Concat(rest)
  {
    var page := PageOf(d, source, cursor, limit);
    var rest := Batches(d, source, page[|page| - 1].key, limit);
    assert ([page] + rest)[1..] == rest;
    hide PageOf;
  }

  lemma BatchesNil(d: Direction, source: Source, cursor: Key, limit: nat)
    ensures PageOf(d, source, cursor, limit) == [] ==> Batches(d, source, cursor, limit) == []
  {
    hide PageOf;
  }

  lemma Reassociate(a: seq<seq<Row>>, page: seq<Row>, rest: seq<seq<Row>>)
    ensures a + ([page] + rest) == (a + [page]) + rest
  {
  }

  lemma NothingMore(batches: seq<seq<Row>>, limit: nat)
    requires WellSized(batches, limit)
    ensures Concat(batches) == [] ==> batches == []
  {
  }

  /** With pages of one row the loop delivers strictly ordered rows, all beyond the cursor. */
  lemma {:induction false} OnesAreOrdered(d: Direction, source: Source, cursor: Key)
    ensures
      var rows := Concat(Batches(d, source, cursor, 1));
      Ordered(d, rows) && forall r :: r in rows ==> Before(d, cursor, r.key)
    decreases |Beyond(d, Base(source), cursor)|
  {
    hide PageOf, Beyond, Base, Ordered, Batches;
    var page := PageOf(d, source, cursor, 1);
    BatchesNil(d, source, cursor, 1);
    if page == [] {
      NothingOrdered(d);
    } else {
      PageProgress(d, source, cursor, 1);
      PageOfAtMost(d, source, cursor, 1);
      var next := page[0].key;
      OnesAreOrdered(d, source, next);
      BatchesCons(d, source, cursor, 1);
      var rest := Concat(Batches(d, source, next, 1));
      OrderedCons(d, page[0], rest);
      assert page + rest == [page[0]] + rest;
      forall r | r in rest ensures Before(d, cursor, r.key) { BeforeOrder(d, cursor, next, r.key); }
    }
  }

  lemma NothingOrdered(d: Direction)
    ensures Ordered(d, [])
  {
  }

  lemma PageOfAtMost(d: Direction, source: Source, cursor: Key, limit: nat)
    ensures |PageOf(d, source, cursor, limit)| <= limit
  {
  }

  lemma OrderedCons(d: Direction, row: Row, rows: seq<Row>)
    requires Ordered(d, rows) && forall r :: r in rows ==> Before(d, row.key, r.key)
    ensures Ordered(d, [row] + rows)
  {
  }

  lemma OrderedIsUnique(d: Direction, rows: seq<Row>)
    requires Ordered(d, rows)
    ensures UniqueKeys(rows)
  {
    forall i, j | 0 <= i < j < |rows| ensures rows[i].key != rows[j].key {
      BeforeOrder(d, rows[i].key, rows[i].key, rows[i].key);
    }
  }

  lemma {:induction false} InsertUnique(d: Direction, row: Row, rows: seq<Row>)
    requires UniqueKeys(Insert(d, row, rows))
    ensures UniqueKeys(rows) && forall r :: r in rows ==> r.key != row.key
  {
    hide Before, UniqueKeys;
    NoKeys();
    if rows != [] {
      if Before(d, row.key, rows[0].key) {
        UniqueHead(row, rows);
      } else {
        var rest := Insert(d, row, rows[1..]);
        UniqueHead(rows[0], rest);
        InsertUnique(d, row, rows[1..]);
        InsertSame(d, row, rows[1..]);
        assert row in multiset(rest) && forall r :: r in rows[1..] ==> r in multiset(rest);
        assert rows == [rows[0]] + rows[1..];
        UniqueHead(rows[0], rows[1..]);
      }
    }
  }

  lemma UniqueHead(row: Row, rows: seq<Row>)
    ensures UniqueKeys([row] + rows) <==> UniqueKeys(rows) && forall r :: r in rows ==> r.key != row.key
  {
    var all := [row] + rows;
    if UniqueKeys(all) {
      UniqueParts([row], rows);
      forall i | 0 <= i < |rows| ensures rows[i].key != row.key { assert all[0].key != all[i + 1].key; }
    }
  }

  /** If ORDER BY yields unique keys, they were unique before. */
  lemma {:induction false} OrderByUnique(d: Direction, rows: seq<Row>)
    requires UniqueKeys(OrderBy(d, rows))
    ensures UniqueKeys(rows)
  {
    hide UniqueKeys;
    if rows == [] {
      NoKeys();
    } else {
      var rest := OrderBy(d, rows[1..]);
      InsertUnique(d, rows[0], rest);
      OrderByUnique(d, rows[1..]);
      OrderByIsWithin(d, rows[1..]);
      UniqueHead(rows[0], rows[1..]);
      assert rows == [rows[0]] + rows[1..];
    }
  }

  lemma NoKeys()
    ensures UniqueKeys([])
  {
  }

  /** The loop delivers the whole one-shot result beyond the cursor for every positive limit
      if and only if the rows beyond the cursor have unique keys. */
  lemma DeliversAllIffUnique(d: Direction, source: Source, cursor: Key)
    ensures (forall limit: nat :: limit > 0 ==> DeliversAll(d, source, cursor, limit))
       <==> UniqueKeys(Beyond(d, RowsOf(source), cursor))
  {
    hide UniqueKeys, Ordered, Beyond, OrderBy, RowsOf, Batches, Concat;
    if UniqueKeys(Beyond(d, RowsOf(source), cursor)) {
      forall limit: nat | limit > 0 ensures DeliversAll(d, source, cursor, limit) {
        BatchesAreOneShot(d, source, cursor, limit);
      }
    }
    OnesAreOrdered(d, source, cursor);
    if DeliversAll(d, source, cursor, 1) {
      OrderedIsUnique(d, OneShot(d, Beyond(d, RowsOf(source), cursor)));
      OrderByUnique(d, Beyond(d, RowsOf(source), cursor));
    }
  }

  /** The loop over joined edges delivers every joined row for every positive limit if and
      only if no edge beyond the cursor matches more than one event. */
  lemma DeliversAllIffOneMatch(d: Direction, edges: seq<Row>, events: seq<Event>, cursor: Key)
    requires UniqueKeys(edges)
    ensures (forall limit: nat :: limit > 0 ==> DeliversAll(d, EdgesWithEvents(edges, events), cursor, limit))
       <==> MatchesOnce(Beyond(d, edges, cursor), events)
  {
    hide DeliversAll, Joined, Beyond, MatchesOnce, UniqueKeys;
    DeliversAllIffUnique(d, EdgesWithEvents(edges, events), cursor);
    JoinedBeyond(d, edges, events, cursor);
    JoinedUniqueIff(Beyond(d, edges, cursor), events);
    BeyondIsWithin(d, edges, cursor);
  }

  predicate DeliversAll(d: Direction, source: Source, cursor: Key, limit: nat)
  {
    Concat(Batches(d, source, cursor, limit)) == OneShot(d, Beyond(d, RowsOf(source), cursor))
  }

  /** An edge that two events match is joined to two rows, of which a page of one keeps one,
      and the next page is beyond both. */
  lemma DuplicateEventsLoseRows()
    ensures
      var edge := Row([Text("e"), Text("p")], [Null]);
      var source := EdgesWithEvents([edge], [Event(Text("e"), Text("r")), Event(Text("e"), Text("s"))]);
      && |OneShot(Asc, RowsOf(source))| == 2
      && |PageOf(Asc, source, [Text(""), Text("")], 1)| == 1
      && PageOf(Asc, source, edge.key, 1) == []
  {
    var edge := Row([Text("e"), Text("p")], [Null]);
    var events := [Event(Text("e"), Text("r")), Event(Text("e"), Text("s"))];
    var joined := Joined([edge], events);
    assert |joined| == 2 by {
      assert events[1..] == [Event(Text("e"), Text("s"))];
      assert |Matches(edge, events[1..])| == 1;
      assert |Matches(edge, events)| == 2;
      assert [edge][1..] == [] && Joined([], events) == [];
    }
    SameLength(Asc, joined);
    var least := [Text(""), Text("")];
    LeastCursorSkipsItselfOnly(least, edge.key);
    KeyOrder(edge.key, edge.key, edge.key);
    PageOfOne(Asc, edge, least);
    PageOfOne(Asc, edge, edge.key);
  }

  lemma PageOfOne(d: Direction, row: Row, cursor: Key)
    ensures Page(d, [row], cursor, 1) == if Before(d, cursor, row.key) then [row] else []
  {
    assert [row][1..] == [] && Beyond(d, [], cursor) == [] && OrderBy(d, []) == [];
    assert OrderBy(d, [row]) == [row];
  }

  // ----- What a batch keeps of its page -----

  /** The metadata column, read first, holds `soft_failed: true`. */
  predicate IsSoftFailed(row: Row)
  {
    row.data != [] && row.data[0] == Bool(true)
  }

  function SoftFailed(rows: seq<Row>): seq<Row>
  {
    if rows == [] then rows
    else if IsSoftFailed(rows[0]) then [rows[0]] + SoftFailed(rows[1..])
    else SoftFailed(rows[1..])
  }

  lemma {:induction false} SoftFailedSplit(a: seq<Row>, b: seq<Row>)
    ensures SoftFailed(a + b) == SoftFailed(a) + SoftFailed(b)
  {
    if a == [] {
      assert a + b == b;
    } else {
      assert (a + b)[1..] == a[1..] + b;
      SoftFailedSplit(a[1..], b);
    }
  }

  lemma {:induction false} SoftFailedCount(a: seq<Row>, r: Row)
    ensures multiset(SoftFailed(a))[r] == if IsSoftFailed(r) then multiset(a)[r] else 0
  {
    if a != [] {
      assert a == [a[0]] + a[1..];
      SoftFailedCount(a[1..], r);
    }
  }

  /** Filtering keeps the rows whose metadata says true, and no others. */
  lemma {:induction false} SoftFailedRows(rows: seq<Row>, r: Row)
    ensures r in SoftFailed(rows) <==> r in rows && |r.data| > 0 && r.data[0] == Bool(true)
  {
    if rows != [] {
      assert rows == [rows[0]] + rows[1..];
      SoftFailedRows(rows[1..], r);
    }
  }

  /** The one-shot reader of soft-failed events filters the table in any order of its
      rows; up to that order it agrees with filtering the ordered table. */
  lemma SoftFailedUpToOrder(rows: seq<Row>)
    ensures multiset(SoftFailed(OneShot(Asc, rows))) == multiset(SoftFailed(rows))
  {
    OrderBySame(Asc, rows);
    forall r ensures multiset(SoftFailed(OneShot(Asc, rows)))[r] == multiset(SoftFailed(rows))[r] {
      SoftFailedCount(OneShot(Asc, rows), r);
      SoftFailedCount(rows, r);
    }
  }

  // ----- Initial cursors -----

  /** From its initial cursor the loop delivers the whole one-shot result for every positive
      limit if and only if keys are unique and all lie beyond that cursor. */
  lemma LoopIsOneShot(d: Direction, source: Source, init: Key)
    ensures (forall limit: nat :: limit > 0 ==> DeliversTable(d, source, init, limit))
       <==> UniqueKeys(RowsOf(source)) && forall r :: r in RowsOf(source) ==> Before(d, init, r.key)
  {
    hide UniqueKeys, Ordered, Beyond, OrderBy, RowsOf, Batches, Concat, Before;
    var rows := RowsOf(source);
    if UniqueKeys(rows) && forall r :: r in rows ==> Before(d, init, r.key) {
      forall i | 0 <= i < |rows| ensures Before(d, init, rows[i].key) { assert rows[i] in rows; }
      BeyondAll(d, rows, init);
      forall limit: nat | limit > 0 ensures DeliversTable(d, source, init, limit) {
        BatchesAreOneShot(d, source, init, limit);
      }
    }
    OnesAreOrdered(d, source, init);
    if DeliversTable(d, source, init, 1) {
      OrderedIsUnique(d, OneShot(d, rows));
      OrderByUnique(d, rows);
      OrderByIsWithin(d, rows);
    }
  }

  predicate DeliversTable(d: Direction, source: Source, init: Key, limit: nat)
  {
    Concat(Batches(d, source, init, limit)) == OneShot(d, RowsOf(source))
  }

  /** A cursor of least values: i64::MIN for numbers, the empty string for text. */
  predicate Least(init: Key)
  {
    forall j :: 0 <= j < |init| ==> init[j] == Int(I64_MIN) || init[j] == Text("")
  }

  /** A key with the columns of init. */
  predicate SameColumns(init: Key, key: Key)
  {
    |key| == |init| && forall j :: 0 <= j < |key| ==>
      if init[j].Int? then key[j].Int? && key[j].i >= I64_MIN else key[j].Text?
  }

  /** Behind a cursor of least values, in any number of columns, lies one key only: the
      key of least values itself. */
  lemma {:induction false} LeastCursorSkipsItselfOnly(init: Key, key: Key)
    requires Least(init) && SameColumns(init, key)
    ensures Before(Asc, init, key) <==> key != init
  {
    if init != [] {
      LeastCursorSkipsItselfOnly(init[1..], key[1..]);
      assert init[0] == Int(I64_MIN) || init[0] == Text("");
      CellOrder(init[0], key[0], init[0]);
      assert init == [init[0]] + init[1..] && key == [key[0]] + key[1..];
    }
  }

  // ----- The loops -----

  /** The number of the first batch that the callback refuses, if it refuses any. */
  datatype Callback = AcceptsAll | RefusesAt(n: nat)

  predicate Accepts(f: Callback, n: nat) { f.AcceptsAll? || f.n != n }

  /** The loop ends early, and fails, exactly with the batch that the callback refuses. */
  predicate Answered(n: nat, f: Callback, ok: bool)
  {
    if ok then f.AcceptsAll? || n <= f.n else f.RefusesAt? && n == f.n + 1
  }

  /** The batch loop, whatever the source. It delivers its batches in order, all of them
      unless the callback refuses one. */
  method ForEachBatch(d: Direction, source: Source, init: Key, limit: nat, f: Callback)
    returns (batches: seq<seq<Row>>, ok: bool)
    ensures batches <= Batches(d, source, init, limit)
    ensures ok ==> batches == Batches(d, source, init, limit)
    ensures Answered(|batches|, f, ok)
    ensures forall b, r :: b in batches && r in b ==> r in RowsOf(source)
    ensures (ok && limit > 0 && UniqueKeys(Beyond(d, RowsOf(source), init)) ==>
      Concat(batches) == OneShot(d, Beyond(d, RowsOf(source), init)) && WellSized(batches, limit))
  {
    hide Batches, PageOf, Beyond, UniqueKeys, RowsOf, OneShot, Concat, WellSized;
    if limit > 0 && UniqueKeys(Beyond(d, RowsOf(source), init)) {
      BatchesAreOneShot(d, source, init, limit);
    }
    batches, ok := [], true;
    var cursor := init;
    while true
      invariant batches + Batches(d, source, cursor, limit) == Batches(d, source, init, limit)
      invariant ok && Answered(|batches|, f, true)
      invariant forall b, r :: b in batches && r in b ==> r in RowsOf(source)
      decreases |Beyond(d, Base(source), cursor)|
    {
      var page := PageOf(d, source, cursor, limit);
      BatchesNil(d, source, cursor, limit);
      if page == [] { break; }
      BatchesCons(d, source, cursor, limit);
      PageProgress(d, source, cursor, limit);
      PageRows(d, source, cursor, limit);
      Reassociate(batches, page, Batches(d, source, page[|page| - 1].key, limit));
      batches := batches + [page];
      ok := Accepts(f, |batches| - 1);
      if !ok { break; }
      cursor := page[|page| - 1].key;
    }
  }

  /** Each page filtered for soft-failed events. */
  function FilterEach(batches: seq<seq<Row>>): (r: seq<seq<Row>>)
    ensures |r| == |batches| && forall j :: 0 <= j < |r| ==> r[j] == SoftFailed(batches[j])
  {
    seq(|batches|, j requires 0 <= j < |batches| => SoftFailed(batches[j]))
  }

  lemma FilterNext(pages: seq<seq<Row>>, page: seq<Row>, whole: seq<seq<Row>>)
    requires pages + [page] <= whole
    ensures FilterEach(pages + [page]) == FilterEach(pages) + [SoftFailed(page)]
    ensures FilterEach(pages + [page]) <= FilterEach(whole)
  {
    hide SoftFailed;
    var next := pages + [page];
    forall j | 0 <= j < |next| ensures FilterEach(next)[j] == FilterEach(whole)[j] { assert next[j] == whole[j]; }
  }

  lemma AllSoftFailed(rows: seq<Row>)
    ensures forall r :: r in SoftFailed(rows) ==> r in rows && |r.data| > 0 && r.data[0] == Bool(true)
  {
    forall r ensures r in SoftFailed(rows) <==> r in rows && |r.data| > 0 && r.data[0] == Bool(true) {
      SoftFailedRows(rows, r);
    }
  }

  /** Filtering the pages yields the filter of what they join up to. */
  lemma {:induction false} FilterCommutes(batches: seq<seq<Row>>)
    ensures Concat(FilterEach(batches)) == SoftFailed(Concat(batches))
  {
    if batches != [] {
      FilterCommutes(batches[1..]);
      SoftFailedSplit(batches[0], Concat(batches[1..]));
      assert FilterEach(batches)[1..] == FilterEach(batches[1..]);
    }
  }

  /** The loop over soft-failed events, which goes on after a page that filters to nothing.
      Its batches join up to the filter of the whole table. */
  method ForEachSoftFailedBatch(rows: seq<Row>, init: Key, limit: nat, f: Callback)
    returns (batches: seq<seq<Row>>, ok: bool)
    ensures batches <= FilterEach(Batches(Asc, Table(rows), init, limit))
    ensures ok ==> batches == FilterEach(Batches(Asc, Table(rows), init, limit))
    ensures Answered(|batches|, f, ok)
    ensures forall b, r :: b in batches && r in b ==> r in rows && |r.data| > 0 && r.data[0] == Bool(true)
    ensures (ok && limit > 0 && UniqueKeys(Beyond(Asc, rows, init)) ==>
      Concat(batches) == SoftFailed(OneShot(Asc, Beyond(Asc, rows, init))))
  {
    hide Batches, PageOf, Beyond, UniqueKeys, OneShot, SoftFailed, Concat, FilterEach;
    ghost var whole := Batches(Asc, Table(rows), init, limit);
    if limit > 0 && UniqueKeys(Beyond(Asc, rows, init)) { BatchesAreOneShot(Asc, Table(rows), init, limit); }
    FilterCommutes(whole);
    batches, ok := [], true;
    ghost var pages := [];
    var cursor := init;
    while true
      invariant pages + Batches(Asc, Table(rows), cursor, limit) == whole
      invariant batches == FilterEach(pages) && batches <= FilterEach(whole)
      invariant ok && Answered(|batches|, f, true)
      invariant forall b, r :: b in batches && r in b ==> r in rows && |r.data| > 0 && r.data[0] == Bool(true)
      decreases |Beyond(Asc, Base(Table(rows)), cursor)|
    {
      var page := PageOf(Asc, Table(rows), cursor, limit);
      BatchesNil(Asc, Table(rows), cursor, limit);
      if page == [] { break; }
      BatchesCons(Asc, Table(rows), cursor, limit);
      PageProgress(Asc, Table(rows), cursor, limit);
      Reassociate(pages, page, Batches(Asc, Table(rows), page[|page| - 1].key, limit));
      FilterNext(pages, page, whole);
      PageRows(Asc, Table(rows), cursor, limit);
      AllSoftFailed(page);
      pages := pages + [page];
      batches := batches + [SoftFailed(page)];
      ok := Accepts(f, |batches| - 1);
      if !ok { break; }
      cursor := page[|page| - 1].key;
    }
  }
}
