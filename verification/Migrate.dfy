/** The migration driver: stages guarded by a schema version and by completion markers.
    A run can be cut off anywhere; the next one starts over and skips what is settled. */
module Migrate {
  import opened Bytes
  import Sweeps
  import Receipts

  const DATABASE_VERSION: nat := 19

  datatype Marker =
    | Sha256Media
    | DoubleSeparator
    | RoomUserIdJoined
    | MissingSeparator
    | DuplicateReceipts
    | CorruptFields
    | LeftState
    | LocalInvite
    | SplitPassword
    | RoomSyncToken
    | SigningKeys
    | UnembedUnsigned

  /** When a stage runs: below a version, without its marker, or for either reason. */
  datatype Needs = Version(v: nat) | Mark(m: Marker) | MarkOr17(m: Marker)

  /** The bodies that are abstract. */
  datatype Job =
    | DbLt12
    | DbLt13
    | MigrateMedia
    | FixFields
    | FillLeftState
    | FixInviteState
    | SplitPasswords
    | ClearSyncTokens
    | DropSigningKeys

  /** What a stage rewrites; the tables of the abstract bodies are together Other. The repair
      of memberships rewrites the table of joined users and some of those. */
  datatype Part = Joined | Membership | Referenced | ReadReceipts | Other(job: Job) | Nothing

  datatype Stage = Stage(needs: Needs, part: Part)

  const STAGES: nat := 16

  /** The synchronous stages, in the order in which they run. */
  function PlanAt(i: nat): Stage
    requires i < STAGES
  {
    match i
    case 0 => Stage(Version(12), Other(DbLt12))
    case 1 => Stage(Version(13), Other(DbLt13))
    case 2 => Stage(Mark(Sha256Media), Other(MigrateMedia))
    case 3 => Stage(Mark(DoubleSeparator), Joined)
    case 4 => Stage(Mark(RoomUserIdJoined), Membership)
    case 5 => Stage(MarkOr17(MissingSeparator), Referenced)
    case 6 => Stage(MarkOr17(DuplicateReceipts), ReadReceipts)
    case 7 => Stage(Version(17), Nothing)
    case 8 => Stage(Mark(CorruptFields), Other(FixFields))
    case 9 => Stage(Version(18), Nothing)
    case 10 => Stage(Mark(LeftState), Other(FillLeftState))
    case 11 => Stage(Mark(LocalInvite), Other(FixInviteState))
    case 12 => Stage(Version(19), Nothing)
    case 13 => Stage(Mark(SplitPassword), Other(SplitPasswords))
    case 14 => Stage(Mark(RoomSyncToken), Other(ClearSyncTokens))
    case 15 => Stage(Mark(SigningKeys), Other(DropSigningKeys))
  }

  /** The stage that sets a marker; no synchronous one sets the last. */
  function Position(m: Marker): nat
  {
    match m
    case Sha256Media => 2
    case DoubleSeparator => 3
    case RoomUserIdJoined => 4
    case MissingSeparator => 5
    case DuplicateReceipts => 6
    case CorruptFields => 8
    case LeftState => 10
    case LocalInvite => 11
    case SplitPassword => 13
    case RoomSyncToken => 14
    case SigningKeys => 15
    case UnembedUnsigned => 16
  }

  predicate Sets(s: Stage, m: Marker)
  {
    !s.needs.Version? && s.needs.m == m
  }

  datatype Db<O> = Db(
    version: nat,
    markers: set<Marker>,
    joined: Sweeps.Rows,
    referenced: Sweeps.Rows,
    receipts: seq<Receipts.Receipt>,
    other: O)

  /** The tables that the repair of memberships rewrites. */
  datatype Members<O> = Members(joined: Sweeps.Rows, other: O)

  /** What the abstract bodies do to the tables they rewrite. */
  datatype Bodies<!O> = Bodies(other: (Job, O) -> O, members: Members<O> -> Members<O>)

  /** An abstract body run again changes nothing. */
  ghost predicate Restartable<O(!new)>(w: Bodies<O>)
  {
    && (forall job, o :: w.other(job, w.other(job, o)) == w.other(job, o))
    && (forall m :: w.members(w.members(m)) == w.members(m))
  }

  function MembersOf<O>(db: Db<O>): Members<O>
  {
    Members(db.joined, db.other)
  }

  predicate Guard<O>(s: Stage, db: Db<O>)
  {
    match s.needs
    case Version(v) => db.version < v
    case Mark(m) => m !in db.markers
    case MarkOr17(m) => m !in db.markers || db.version < 17
  }

  function Body<O>(w: Bodies<O>, s: Stage, db: Db<O>): Db<O>
  {
    match s.part
    case Joined => db.(joined := Sweeps.Repaired(Sweeps.DoubleSep, db.joined))
    case Referenced => db.(referenced := Sweeps.Repaired(Sweeps.MissingSep, db.referenced))
    case ReadReceipts => db.(receipts := Receipts.Survivors(db.receipts))
    case Membership =>
      var m := w.members(MembersOf(db));
      db.(joined := m.joined, other := m.other)
    case Other(job) => db.(other := w.other(job, db.other))
    case Nothing => db
  }

  /** The last write of a stage: its version or its marker. */
  function Close<O>(s: Stage, db: Db<O>): Db<O>
  {
    if s.needs.Version? then db.(version := s.needs.v) else db.(markers := db.markers + {s.needs.m})
  }

  function RunStage<O>(w: Bodies<O>, s: Stage, db: Db<O>): Db<O>
  {
    if Guard(s, db) then Close(s, Body(w, s, db)) else db
  }

  /** The first i stages of a run. */
  function RunTo<O>(w: Bodies<O>, i: nat, db: Db<O>): Db<O>
    requires i <= STAGES
  {
    if i == 0 then db else RunStage(w, PlanAt(i - 1), RunTo(w, i - 1, db))
  }

  /** What an uninterrupted run makes of a database; one that is too old is refused. */
  function Complete<O>(w: Bodies<O>, db: Db<O>): Db<O>
  {
    if db.version < 11 then db else RunTo(w, STAGES, db)
  }

  // ----- Cut-off runs -----

  /** The body of a stage, cut off anywhere, may have made this of the table. For doubled
      separators nothing is claimed of a table with keys that need two repairs. */
  ghost predicate TornRows(r: Sweeps.Repair, t0: Sweeps.Rows, t: Sweeps.Rows)
  {
    Sweeps.Stable(r, t0) ==> Sweeps.Left(r, t0, t)
  }

  ghost predicate Torn<O>(w: Bodies<O>, s: Stage, db: Db<O>, db': Db<O>)
  {
    match s.part
    case Joined => db' == db.(joined := db'.joined) && TornRows(Sweeps.DoubleSep, db.joined, db'.joined)
    case Referenced =>
      db' == db.(referenced := db'.referenced) && TornRows(Sweeps.MissingSep, db.referenced, db'.referenced)
    case ReadReceipts => db' == db.(receipts := db'.receipts) && Receipts.Left(db.receipts, db'.receipts)
    case Membership =>
      db' == db.(joined := db'.joined, other := db'.other) && w.members(MembersOf(db')) == w.members(MembersOf(db))
    case Other(job) => db' == db.(other := db'.other) && w.other(job, db'.other) == w.other(job, db.other)
    case Nothing => db' == db
  }

  /** A run from db was cut off in stage i, before the last write of that stage, and left
      db'; with i == STAGES it was not cut off. */
  ghost predicate CutAt<O>(w: Bodies<O>, i: nat, db: Db<O>, db': Db<O>)
  {
    i <= STAGES &&
    if db.version < 11 then db' == db
    else
      var d := RunTo(w, i, db);
      if i < STAGES && Guard(PlanAt(i), d) then Torn(w, PlanAt(i), d, db') else db' == d
  }

  // ----- The plan -----

  lemma PlanFacts(i: nat)
    requires i < STAGES
    ensures
      var s := PlanAt(i);
      && (forall m :: Sets(s, m) <==> Position(m) == i)
      && (s.part.Joined? <==> i == 3) && (s.part.Membership? <==> i == 4)
      && (s.part.Referenced? <==> i == 5) && (s.part.ReadReceipts? <==> i == 6)
      && (s.needs.MarkOr17? <==> i == 5 || i == 6)
      && (s.needs.Version? ==> s.needs.v <= DATABASE_VERSION && (i < 7 ==> s.needs.v <= 13))
      && (i == 12 ==> s.needs == Version(DATABASE_VERSION))
  {
    var s := PlanAt(i);
    forall m ensures Sets(s, m) <==> Position(m) == i {
      match m { case _ => }
    }
  }

  predicate Proper(s: Stage)
  {
    s.needs.MarkOr17? ==> s.part.Referenced? || s.part.ReadReceipts?
  }

  // ----- Settled stages -----

  /** Running the body changes nothing. */
  ghost predicate Clean<O>(w: Bodies<O>, s: Stage, db: Db<O>)
  {
    Body(w, s, db) == db
  }

  /** The stage is skipped, or runs without an effect. */
  ghost predicate Settled<O>(w: Bodies<O>, s: Stage, db: Db<O>)
  {
    !Guard(s, db) || (s.needs.MarkOr17? && s.needs.m in db.markers && Clean(w, s, db))
  }

  lemma SettledIsNoOp<O>(w: Bodies<O>, s: Stage, db: Db<O>)
    requires Settled(w, s, db)
    ensures RunStage(w, s, db) == db
  {
    hide Sweeps.Repaired, Receipts.Survivors;
    if Guard(s, db) { assert db.markers + {s.needs.m} == db.markers; }
  }

  predicate SamePart<O(==)>(p: Part, db: Db<O>, db': Db<O>)
  {
    match p
    case Joined => db'.joined == db.joined
    case Membership => db'.joined == db.joined && db'.other == db.other
    case Referenced => db'.referenced == db.referenced
    case ReadReceipts => db'.receipts == db.receipts
    case Other(_) => db'.other == db.other
    case Nothing => true
  }

  predicate Overlap(p: Part, q: Part)
  {
    || p == q || (p.Other? && q.Other?)
    || (p.Membership? && (q.Joined? || q.Other?)) || (q.Membership? && (p.Joined? || p.Other?))
  }

  /** Versions and markers only grow, and only one part is rewritten. */
  ghost predicate Grows<O>(p: Part, db: Db<O>, db': Db<O>)
  {
    && db.version <= db'.version && db.markers <= db'.markers
    && forall q: Part :: !Overlap(p, q) ==> SamePart(q, db, db')
  }

  lemma StageGrows<O>(w: Bodies<O>, s: Stage, db: Db<O>)
    ensures Grows(s.part, db, RunStage(w, s, db))
  {
    hide Sweeps.Repaired, Receipts.Survivors, Body;
    BodyGrows(w, s, db);
    forall q: Part | !Overlap(s.part, q) ensures SamePart(q, db, RunStage(w, s, db)) {
      assert SamePart(q, db, Body(w, s, db));
    }
  }

  lemma BodyGrows<O>(w: Bodies<O>, s: Stage, db: Db<O>)
    ensures Grows(s.part, db, Body(w, s, db))
    ensures Body(w, s, db).version == db.version && Body(w, s, db).markers == db.markers
  {
    hide Sweeps.Repaired, Receipts.Survivors;
  }

  lemma TornGrows<O>(w: Bodies<O>, s: Stage, db: Db<O>, db': Db<O>)
    requires Torn(w, s, db, db')
    ensures Grows(s.part, db, db') && db'.version == db.version && db'.markers == db.markers
  {
    hide TornRows, Receipts.Left;
  }

  lemma SettledStays<O>(w: Bodies<O>, s: Stage, p: Part, db: Db<O>, db': Db<O>)
    requires Settled(w, s, db) && Grows(p, db, db')
    requires Proper(s) && (s.needs.MarkOr17? ==> s.part != p)
    ensures Settled(w, s, db')
  {
    hide Sweeps.Repaired, Receipts.Survivors;
    if s.needs.MarkOr17? { assert SamePart(s.part, db, db'); }
  }

  lemma BodyTwice<O(!new)>(w: Bodies<O>, s: Stage, db: Db<O>)
    requires Restartable(w)
    requires s.part.Joined? ==> Sweeps.Stable(Sweeps.DoubleSep, db.joined)
    ensures Body(w, s, Body(w, s, db)) == Body(w, s, db)
  {
    hide Sweeps.Repaired, Receipts.Survivors, Sweeps.Stable;
    match s.part {
      case Joined => Sweeps.RepairIsIdempotent(Sweeps.DoubleSep, db.joined);
      case Referenced =>
        Sweeps.MissingSepSettles(db.referenced);
        Sweeps.RepairIsIdempotent(Sweeps.MissingSep, db.referenced);
      case ReadReceipts => Receipts.SweepIsIdempotent(db.receipts);
      case _ =>
    }
  }

  lemma StageSettles<O(!new)>(w: Bodies<O>, s: Stage, db: Db<O>)
    requires Restartable(w) && Proper(s)
    ensures Settled(w, s, RunStage(w, s, db))
  {
    hide Sweeps.Repaired, Receipts.Survivors, Sweeps.Stable;
    if s.needs.MarkOr17? { BodyTwice(w, s, db); }
  }

  /** A body that was cut off and then run again ends as if it had not been cut off. */
  lemma TornResumes<O(!new)>(w: Bodies<O>, s: Stage, db: Db<O>, db': Db<O>)
    requires Restartable(w) && Guard(s, db) && Torn(w, s, db, db')
    requires s.part.Joined? ==> Sweeps.Stable(Sweeps.DoubleSep, db.joined)
    ensures RunStage(w, s, db') == RunStage(w, s, db)
  {
    hide Sweeps.Repaired, Receipts.Survivors, Sweeps.Stable, Receipts.Left;
    match s.part {
      case Referenced => Sweeps.MissingSepSettles(db.referenced);
      case ReadReceipts => Receipts.LeftResumes(db.receipts, db'.receipts);
      case _ =>
    }
  }

  /** After i stages, all of them are settled. */
  lemma {:induction false} SettledBefore<O(!new)>(w: Bodies<O>, i: nat, db: Db<O>, j: nat)
    requires Restartable(w) && j < i <= STAGES
    ensures Settled(w, PlanAt(j), RunTo(w, i, db))
  {
    hide Guard, Body, Close, Settled, Clean, Grows, PlanAt, RunStage;
    PlanFacts(j);
    PlanFacts(i - 1);
    var d := RunTo(w, i - 1, db);
    if j == i - 1 {
      StageSettles(w, PlanAt(j), d);
    } else {
      SettledBefore(w, i - 1, db, j);
      StageGrows(w, PlanAt(i - 1), d);
      SettledStays(w, PlanAt(j), PlanAt(i - 1).part, d, RunTo(w, i, db));
    }
  }

  lemma {:induction false} SettledRunsToItself<O(!new)>(w: Bodies<O>, i: nat, db: Db<O>)
    requires i <= STAGES && forall j :: 0 <= j < i ==> Settled(w, PlanAt(j), db)
    ensures RunTo(w, i, db) == db
  {
    if i > 0 {
      hide Guard, Body, Close, Settled, Clean, PlanAt, RunStage;
      SettledRunsToItself(w, i - 1, db);
      SettledIsNoOp(w, PlanAt(i - 1), db);
    }
  }

  /** Running again after a complete run changes nothing. */
  lemma SecondRunIsNoOp<O(!new)>(w: Bodies<O>, db: Db<O>)
    requires Restartable(w)
    ensures Complete(w, Complete(w, db)) == Complete(w, db)
  {
    hide Guard, Body, Close, Settled, Clean, PlanAt, RunStage, RunTo;
    if db.version >= 11 {
      var d := RunTo(w, STAGES, db);
      forall j | 0 <= j < STAGES ensures Settled(w, PlanAt(j), d) { SettledBefore(w, STAGES, db, j); }
      SettledRunsToItself(w, STAGES, d);
    }
  }

  // ----- How far a run gets -----

  predicate RunsSweep<O>(m: Marker, db: Db<O>)
  {
    m !in db.markers || (m != DoubleSeparator && db.version < 17)
  }

  /** Version and markers after i stages. */
  ghost predicate ReachedMarks<O>(i: nat, db: Db<O>, d: Db<O>)
  {
    && (forall m :: m in d.markers <==> m in db.markers || Position(m) < i)
    && db.version <= d.version
    && (d.version == db.version || d.version <= if i <= 7 then 13 else DATABASE_VERSION)
    && (i > 12 ==> d.version >= DATABASE_VERSION)
  }

  /** Nothing is said of the joined users once the repair of memberships was due. */
  ghost predicate ReachedTables<O>(i: nat, db: Db<O>, d: Db<O>)
  {
    && (i <= 4 || RoomUserIdJoined in db.markers ==>
      d.joined ==
      if i > 3 && RunsSweep(DoubleSeparator, db) then Sweeps.Repaired(Sweeps.DoubleSep, db.joined) else db.joined)
    && (d.referenced ==
        if i > 5 && RunsSweep(MissingSeparator, db) then Sweeps.Repaired(Sweeps.MissingSep, db.referenced)
        else db.referenced)
    && (d.receipts ==
        if i > 6 && RunsSweep(DuplicateReceipts, db) then Receipts.Survivors(db.receipts) else db.receipts)
  }

  ghost predicate Reached<O>(i: nat, db: Db<O>, d: Db<O>)
  {
    ReachedMarks(i, db, d) && ReachedTables(i, db, d)
  }

  lemma ReachNextMarks<O>(w: Bodies<O>, i: nat, db: Db<O>, d: Db<O>)
    requires i < STAGES && ReachedMarks(i, db, d)
    ensures ReachedMarks(i + 1, db, RunStage(w, PlanAt(i), d))
  {
    hide Sweeps.Repaired, Receipts.Survivors, PlanAt;
    PlanFacts(i);
    var s := PlanAt(i);
    forall m ensures m in RunStage(w, s, d).markers <==> m in db.markers || Position(m) < i + 1 {
      assert Sets(s, m) <==> Position(m) == i;
    }
  }

  /** A sweep runs when its stage is reached if and only if it was due at the start. */
  lemma GuardOfSweep<O>(i: nat, db: Db<O>, d: Db<O>, m: Marker)
    requires i < STAGES && ReachedMarks(i, db, d) && Position(m) == i && 3 <= i <= 6 && i != 4
    ensures Guard(PlanAt(i), d) <==> RunsSweep(m, db)
  {
  }

  lemma GuardOfMembers<O>(db: Db<O>, d: Db<O>)
    requires ReachedMarks(4, db, d)
    ensures Guard(PlanAt(4), d) <==> RoomUserIdJoined !in db.markers
  {
  }

  lemma ReachNextTables<O>(w: Bodies<O>, i: nat, db: Db<O>, d: Db<O>)
    requires i < STAGES && ReachedMarks(i, db, d) && ReachedTables(i, db, d)
    ensures ReachedTables(i + 1, db, RunStage(w, PlanAt(i), d))
  {
    hide Sweeps.Repaired, Receipts.Survivors, PlanAt, ReachedMarks, RunsSweep, Guard;
    PlanFacts(i);
    match i {
      case 3 => GuardOfSweep(i, db, d, DoubleSeparator);
      case 4 => GuardOfMembers(db, d);
      case 5 => GuardOfSweep(i, db, d, MissingSeparator);
      case 6 => GuardOfSweep(i, db, d, DuplicateReceipts);
      case _ =>
    }
  }

  lemma {:induction false} RunReaches<O>(w: Bodies<O>, i: nat, db: Db<O>)
    requires i <= STAGES
    ensures Reached(i, db, RunTo(w, i, db))
  {
    hide ReachedMarks, ReachedTables, RunStage, PlanAt;
    if i == 0 {
      NothingReached(db);
    } else {
      RunReaches(w, i - 1, db);
      ReachNextMarks(w, i - 1, db, RunTo(w, i - 1, db));
      ReachNextTables(w, i - 1, db, RunTo(w, i - 1, db));
    }
  }

  lemma NothingReached<O>(db: Db<O>)
    ensures Reached(0, db, db)
  {
  }

  /** The joined users after a whole run: what the double-separator sweep left, or what the
      repair of memberships made of that. */
  function JoinedAtEnd<O>(w: Bodies<O>, db: Db<O>): Sweeps.Rows
  {
    var d := RunTo(w, 4, db);
    if RoomUserIdJoined in db.markers then d.joined else w.members(MembersOf(d)).joined
  }

  lemma {:induction false} JoinedStays<O>(w: Bodies<O>, i: nat, db: Db<O>)
    requires 5 <= i <= STAGES
    ensures RunTo(w, i, db).joined == JoinedAtEnd(w, db)
  {
    hide RunTo, PlanAt, RunStage, ReachedTables, Sweeps.Repaired;
    RunToNext(w, i - 1, db);
    if i == 5 {
      RunReaches(w, 4, db);
      GuardOfMembers(db, RunTo(w, 4, db));
      MembersStage(w, RunTo(w, 4, db));
    } else {
      JoinedStays(w, i - 1, db);
      PlanFacts(i - 1);
      StageGrows(w, PlanAt(i - 1), RunTo(w, i - 1, db));
      assert SamePart(Joined, RunTo(w, i - 1, db), RunTo(w, i, db));
    }
  }

  lemma RunToNext<O>(w: Bodies<O>, i: nat, db: Db<O>)
    requires i < STAGES
    ensures RunTo(w, i + 1, db) == RunStage(w, PlanAt(i), RunTo(w, i, db))
  {
    hide RunStage, PlanAt;
  }

  lemma MembersStage<O>(w: Bodies<O>, d: Db<O>)
    ensures RunStage(w, PlanAt(4), d).joined == if Guard(PlanAt(4), d) then w.members(MembersOf(d)).joined else d.joined
  {
  }

  /** An uninterrupted run of a database of a supported version reaches the current one,
      sets every synchronous marker, and repairs the tables whose sweeps were due. */
  lemma CompleteIsCurrent<O>(w: Bodies<O>, db: Db<O>)
    requires 11 <= db.version <= DATABASE_VERSION
    ensures
      var d := Complete(w, db);
      && d.version == DATABASE_VERSION
      && (forall m :: m in d.markers <==> m in db.markers || m != UnembedUnsigned)
      && d.referenced == (if MissingSeparator in db.markers && db.version >= 17 then db.referenced
                          else Sweeps.Repaired(Sweeps.MissingSep, db.referenced))
      && d.receipts == (if DuplicateReceipts in db.markers && db.version >= 17 then db.receipts
                        else Receipts.Survivors(db.receipts))
    ensures RunTo(w, 4, db).joined ==
      if DoubleSeparator in db.markers then db.joined else Sweeps.Repaired(Sweeps.DoubleSep, db.joined)
    ensures Complete(w, db).joined == JoinedAtEnd(w, db)
  {
    hide Sweeps.Repaired, Receipts.Survivors, RunTo;
    RunReaches(w, STAGES, db);
    RunReaches(w, 4, db);
    JoinedStays(w, STAGES, db);
  }

  // ----- The run as a whole -----

  /** An abstract body, run if it is due. */
  function Due<O>(w: Bodies<O>, due: bool, job: Job, other: O): O
  {
    if due then w.other(job, other) else other
  }

  /** What the abstract bodies before the repair of memberships make of their tables. */
  function EarlyJobs<O>(w: Bodies<O>, db: Db<O>): O
  {
    var rules := Due(w, db.version < 12, DbLt12, db.other);
    var defaults := Due(w, db.version < 13, DbLt13, rules);
    Due(w, Sha256Media !in db.markers, MigrateMedia, defaults)
  }

  /** What those after it make of them. */
  function LateJobs<O>(w: Bodies<O>, markers: set<Marker>, other: O): O
  {
    var fields := Due(w, CorruptFields !in markers, FixFields, other);
    var left := Due(w, LeftState !in markers, FillLeftState, fields);
    var invites := Due(w, LocalInvite !in markers, FixInviteState, left);
    var passwords := Due(w, SplitPassword !in markers, SplitPasswords, invites);
    var tokens := Due(w, RoomSyncToken !in markers, ClearSyncTokens, passwords);
    Due(w, SigningKeys !in markers, DropSigningKeys, tokens)
  }

  /** What a run of all stages makes of a database, said without the plan: each body that
      is due at the start, in the order of the source, and nothing else. */
  function WholeRun<O>(w: Bodies<O>, db: Db<O>): Db<O>
  {
    var joined :=
      if DoubleSeparator in db.markers then db.joined else Sweeps.Repaired(Sweeps.DoubleSep, db.joined);
    var early := Members(joined, EarlyJobs(w, db));
    var members := if RoomUserIdJoined in db.markers then early else w.members(early);
    var referenced :=
      if MissingSeparator in db.markers && db.version >= 17 then db.referenced
      else Sweeps.Repaired(Sweeps.MissingSep, db.referenced);
    var receipts :=
      if DuplicateReceipts in db.markers && db.version >= 17 then db.receipts else Receipts.Survivors(db.receipts);
    Db(if db.version < 19 then 19 else db.version,
       db.markers + {Sha256Media, DoubleSeparator, RoomUserIdJoined, MissingSeparator, DuplicateReceipts,
                     CorruptFields, LeftState, LocalInvite, SplitPassword, RoomSyncToken, SigningKeys},
       members.joined, referenced, receipts, LateJobs(w, db.markers, members.other))
  }

  predicate IsJob(i: nat, m: Marker, job: Job)
    requires i < STAGES
  {
    PlanAt(i) == Stage(Mark(m), Other(job)) && Position(m) == i
  }

  /** The abstract bodies, each where the source has it, and no other. */
  lemma PlanJobs(i: nat)
    requires i < STAGES
    ensures i == 2 ==> IsJob(i, Sha256Media, MigrateMedia)
    ensures i == 8 ==> IsJob(i, CorruptFields, FixFields)
    ensures i == 10 ==> IsJob(i, LeftState, FillLeftState)
    ensures i == 11 ==> IsJob(i, LocalInvite, FixInviteState)
    ensures i == 13 ==> IsJob(i, SplitPassword, SplitPasswords)
    ensures i == 14 ==> IsJob(i, RoomSyncToken, ClearSyncTokens)
    ensures i == 15 ==> IsJob(i, SigningKeys, DropSigningKeys)
    ensures PlanAt(i).part.Other? ==> i in {0, 1, 2, 8, 10, 11, 13, 14, 15}
    ensures PlanAt(i).part.Membership? <==> i == 4
  {
  }

  /** A stage of an abstract body with a marker runs it if and only if it was due. */
  lemma JobStage<O>(w: Bodies<O>, i: nat, m: Marker, job: Job, db: Db<O>)
    requires i < STAGES && IsJob(i, m, job)
    ensures RunTo(w, i + 1, db).other == Due(w, m !in db.markers, job, RunTo(w, i, db).other)
  {
    hide RunTo, PlanAt;
    RunToNext(w, i, db);
    RunReaches(w, i, db);
  }

  lemma QuietStage<O>(w: Bodies<O>, i: nat, db: Db<O>)
    requires i < STAGES && i in {3, 5, 6, 7, 9, 12}
    ensures RunTo(w, i + 1, db).other == RunTo(w, i, db).other
  {
    hide RunTo, PlanAt, RunStage;
    PlanJobs(i);
    RunToNext(w, i, db);
    StageGrows(w, PlanAt(i), RunTo(w, i, db));
    assert SamePart(Other(DbLt12), RunTo(w, i, db), RunTo(w, i + 1, db));
  }

  lemma FirstJobs<O>(w: Bodies<O>, db: Db<O>)
    ensures RunTo(w, 3, db).other == EarlyJobs(w, db)
  {
    RunToNext(w, 0, db);
    RunToNext(w, 1, db);
    assert RunTo(w, 0, db) == db;
    JobStage(w, 2, Sha256Media, MigrateMedia, db);
  }

  lemma MembershipStage<O>(w: Bodies<O>, db: Db<O>)
    ensures
      var d, d' := RunTo(w, 4, db), RunTo(w, 5, db);
      MembersOf(d') == if RoomUserIdJoined in db.markers then MembersOf(d) else w.members(MembersOf(d))
  {
    hide RunTo;
    RunToNext(w, 4, db);
    RunReaches(w, 4, db);
    GuardOfMembers(db, RunTo(w, 4, db));
  }

  lemma FieldsToInvites<O>(w: Bodies<O>, db: Db<O>)
    ensures
      var fields := Due(w, CorruptFields !in db.markers, FixFields, RunTo(w, 5, db).other);
      var left := Due(w, LeftState !in db.markers, FillLeftState, fields);
      RunTo(w, 12, db).other == Due(w, LocalInvite !in db.markers, FixInviteState, left)
  {
    hide RunTo, PlanAt, Due, Position, IsJob;
    QuietStage(w, 5, db);
    QuietStage(w, 6, db);
    QuietStage(w, 7, db);
    PlanJobs(8);
    JobStage(w, 8, CorruptFields, FixFields, db);
    QuietStage(w, 9, db);
    PlanJobs(10);
    JobStage(w, 10, LeftState, FillLeftState, db);
    PlanJobs(11);
    JobStage(w, 11, LocalInvite, FixInviteState, db);
  }

  /** The abstract bodies after the membership stage. */
  lemma LaterJobs<O>(w: Bodies<O>, db: Db<O>)
    ensures RunTo(w, STAGES, db).other == LateJobs(w, db.markers, RunTo(w, 5, db).other)
  {
    hide RunTo, PlanAt, Due, Position, IsJob;
    FieldsToInvites(w, db);
    QuietStage(w, 12, db);
    PlanJobs(13);
    JobStage(w, 13, SplitPassword, SplitPasswords, db);
    PlanJobs(14);
    JobStage(w, 14, RoomSyncToken, ClearSyncTokens, db);
    PlanJobs(15);
    JobStage(w, 15, SigningKeys, DropSigningKeys, db);
  }

  lemma MembersReached<O>(w: Bodies<O>, db: Db<O>)
    ensures
      var d := RunTo(w, STAGES, db);
      d.joined == WholeRun(w, db).joined && d.other == WholeRun(w, db).other
  {
    hide RunTo, EarlyJobs, LateJobs, Sweeps.Repaired;
    FirstJobs(w, db);
    QuietStage(w, 3, db);
    RunReaches(w, 4, db);
    assert Position(DoubleSeparator) == 3;
    MembershipStage(w, db);
    JoinedStays(w, 5, db);
    JoinedStays(w, STAGES, db);
    LaterJobs(w, db);
  }

  lemma MarksReached<O>(w: Bodies<O>, db: Db<O>)
    ensures
      var d := RunTo(w, STAGES, db);
      && d.markers == WholeRun(w, db).markers && d.version == WholeRun(w, db).version
      && d.referenced == WholeRun(w, db).referenced && d.receipts == WholeRun(w, db).receipts
  {
    hide RunTo, EarlyJobs, LateJobs, Sweeps.Repaired, Receipts.Survivors;
    RunReaches(w, STAGES, db);
    forall m ensures m in RunTo(w, STAGES, db).markers <==> m in WholeRun(w, db).markers { }
  }

  /** A complete run is exactly the bodies that were due at its start. */
  lemma CompleteIsWholeRun<O>(w: Bodies<O>, db: Db<O>)
    requires db.version >= 11
    ensures Complete(w, db) == WholeRun(w, db)
  {
    hide RunTo, WholeRun;
    MembersReached(w, db);
    MarksReached(w, db);
  }

  // ----- Convergence -----

  /** The sweep of doubled separators is done, or one repair is enough for every key. */
  ghost predicate Sound<O>(db: Db<O>)
  {
    DoubleSeparator in db.markers || Sweeps.Stable(Sweeps.DoubleSep, db.joined)
  }

  /** So it is for every table that holds room and user pairs, in either form. */
  lemma SoundWhen<O>(db: Db<O>)
    ensures DoubleSeparator in db.markers || Sweeps.HoldsPairs(Sweeps.DoubleSep, db.joined) ==> Sound(db)
    ensures
      var once := Sweeps.Repaired(Sweeps.DoubleSep, db.joined);
      Sound(db) <==> (DoubleSeparator in db.markers || Sweeps.Repaired(Sweeps.DoubleSep, once) == once)
  {
    hide Sweeps.Stable, Sweeps.Repaired, Sweeps.HoldsPairs;
    Sweeps.RepairIsIdempotent(Sweeps.DoubleSep, db.joined);
    if Sweeps.HoldsPairs(Sweeps.DoubleSep, db.joined) { Sweeps.PairsAreStable(Sweeps.DoubleSep, db.joined); }
  }

  /** The next run gets from what a cut-off run left to where that run would have got. */
  lemma ResumesWhereCut<O(!new)>(w: Bodies<O>, i: nat, db: Db<O>, db': Db<O>)
    requires Restartable(w) && Sound(db) && db.version >= 11 && CutAt(w, i, db, db')
    ensures RunTo(w, i, db') == db'
    ensures i < STAGES ==> RunTo(w, i + 1, db') == RunTo(w, i + 1, db)
  {
    hide Guard, Settled, Clean, Grows, PlanAt, RunStage, Torn, Reached, Body, Close;
    var d := RunTo(w, i, db);
    forall j | 0 <= j < i ensures Settled(w, PlanAt(j), db') {
      SettledBefore(w, i, db, j);
      if i < STAGES && Guard(PlanAt(i), d) {
        PlanFacts(i);
        PlanFacts(j);
        TornGrows(w, PlanAt(i), d, db');
        SettledStays(w, PlanAt(j), PlanAt(i).part, d, db');
      }
    }
    SettledRunsToItself(w, i, db');
    if i < STAGES && Guard(PlanAt(i), d) {
      PlanFacts(i);
      SweepIsSound(w, i, db);
      TornResumes(w, PlanAt(i), d, db');
    }
  }

  lemma SweepIsSound<O>(w: Bodies<O>, i: nat, db: Db<O>)
    requires i < STAGES && Sound(db) && Guard(PlanAt(i), RunTo(w, i, db))
    ensures PlanAt(i).part.Joined? ==> Sweeps.Stable(Sweeps.DoubleSep, RunTo(w, i, db).joined)
  {
    hide Sweeps.Repaired, Receipts.Survivors, Sweeps.Stable, RunTo, PlanAt;
    PlanFacts(i);
    if i == 3 {
      RunReaches(w, i, db);
      assert Sets(PlanAt(3), DoubleSeparator) <==> Position(DoubleSeparator) == 3;
      SweepStage();
    }
  }

  lemma SweepStage()
    ensures PlanAt(3) == Stage(Mark(DoubleSeparator), Joined)
  {
  }

  lemma {:induction false} SameFromThen<O>(w: Bodies<O>, i: nat, j: nat, db: Db<O>, db': Db<O>)
    requires i <= j <= STAGES && RunTo(w, i, db') == RunTo(w, i, db)
    ensures RunTo(w, j, db') == RunTo(w, j, db)
  {
    hide RunStage, PlanAt;
    if j > i { SameFromThen(w, i, j - 1, db, db'); }
  }

  /** One cut-off run changes nothing about what a complete one makes of the database. */
  lemma CutConverges<O(!new)>(w: Bodies<O>, i: nat, db: Db<O>, db': Db<O>)
    requires Restartable(w) && Sound(db) && CutAt(w, i, db, db')
    ensures Complete(w, db') == Complete(w, db)
    ensures db.version <= db'.version && db.markers <= db'.markers
    ensures Sound(db')
  {
    hide CutAt, RunTo, Sound, Position;
    CutBasics(w, i, db, db');
    if db.version >= 11 {
      ResumesWhereCut(w, i, db, db');
      CutGrows(w, i, db, db');
      CutIsSound(w, i, db, db');
      if i < STAGES {
        SameFromThen(w, i + 1, STAGES, db, db');
      } else {
        UncutRun(w, db, db');
      }
    }
  }

  lemma CutBasics<O>(w: Bodies<O>, i: nat, db: Db<O>, db': Db<O>)
    requires CutAt(w, i, db, db')
    ensures i <= STAGES && (db.version < 11 ==> db' == db)
  {
    hide RunTo, Torn, PlanAt, Guard;
  }

  lemma UncutRun<O>(w: Bodies<O>, db: Db<O>, db': Db<O>)
    requires db.version >= 11 && CutAt(w, STAGES, db, db')
    ensures db' == RunTo(w, STAGES, db)
  {
  }

  lemma CutGrows<O>(w: Bodies<O>, i: nat, db: Db<O>, db': Db<O>)
    requires db.version >= 11 && CutAt(w, i, db, db')
    ensures db.version <= db'.version
    ensures forall m :: m in db'.markers <==> m in db.markers || Position(m) < i
  {
    hide RunTo, RunStage, Torn, PlanAt, Sweeps.Repaired, Receipts.Survivors;
    RunReaches(w, i, db);
    var d := RunTo(w, i, db);
    if i < STAGES && Guard(PlanAt(i), d) { TornGrows(w, PlanAt(i), d, db'); }
  }

  lemma CutIsSound<O>(w: Bodies<O>, i: nat, db: Db<O>, db': Db<O>)
    requires Sound(db) && db.version >= 11 && CutAt(w, i, db, db')
    ensures Sound(db')
  {
    CutGrows(w, i, db, db');
    if DoubleSeparator !in db'.markers {
      assert Position(DoubleSeparator) == 3;
      RunReaches(w, i, db);
      var d := RunTo(w, i, db);
      hide RunTo, RunStage, PlanAt, Sweeps.Repaired, Receipts.Survivors, Sweeps.Stable, Receipts.Left;
      if i < STAGES && Guard(PlanAt(i), d) { PlanFacts(i); }
    }
  }

  /** Any number of runs, each cut off anywhere or not at all. */
  ghost predicate History<O>(w: Bodies<O>, dbs: seq<Db<O>>, cuts: seq<nat>)
  {
    |dbs| == |cuts| + 1 && forall k :: 0 <= k < |cuts| ==> CutAt(w, cuts[k], dbs[k], dbs[k + 1])
  }

  /** Whatever runs were cut off before, a complete run ends where an uninterrupted one
      from the start would have; the version never goes down and no marker is lost. */
  lemma {:induction false} CutRunsConverge<O(!new)>(w: Bodies<O>, dbs: seq<Db<O>>, cuts: seq<nat>)
    requires Restartable(w) && History(w, dbs, cuts) && Sound(dbs[0])
    ensures
      var first, last := dbs[0], dbs[|dbs| - 1];
      && Complete(w, last) == Complete(w, first)
      && first.version <= last.version && first.markers <= last.markers && Sound(last)
    decreases |cuts|
  {
    hide Complete, CutAt, Sound;
    if cuts != [] {
      CutConverges(w, cuts[0], dbs[0], dbs[1]);
      CutRunsConverge(w, dbs[1..], cuts[1..]);
    }
  }

  /** The joined users when the double-separator sweep is over, and at the end if the repair
      of memberships is not due. */
  lemma SweptJoined<O>(w: Bodies<O>, db: Db<O>)
    requires db.version >= 11
    ensures RunTo(w, 4, db).joined ==
      if DoubleSeparator in db.markers then db.joined else Sweeps.Repaired(Sweeps.DoubleSep, db.joined)
    ensures RoomUserIdJoined in db.markers ==> Complete(w, db).joined == RunTo(w, 4, db).joined
  {
    hide Sweeps.Repaired, RunTo, ReachedMarks;
    RunReaches(w, 4, db);
    JoinedStays(w, STAGES, db);
  }

  lemma AtSweep<O>(w: Bodies<O>, db: Db<O>)
    requires db.version >= 11
    ensures
      var d := RunTo(w, 3, db);
      && d.version >= db.version && db.markers <= d.markers && d.joined == db.joined
      && (DoubleSeparator in d.markers <==> DoubleSeparator in db.markers)
      && (RoomUserIdJoined in d.markers <==> RoomUserIdJoined in db.markers)
  {
    hide Sweeps.Repaired, RunTo;
    RunReaches(w, 3, db);
    assert Position(DoubleSeparator) == 3 && Position(RoomUserIdJoined) == 4;
  }

  /** A cut between the last write of the double-separator sweep and its marker: the next
      run repeats the sweep, and gets to where the first would have got if and only if no
      key needs two repairs. Then it ends where the first would have; and only then, unless
      the repair of memberships rewrites the table that differs. */
  lemma ConvergesIffStable<O(!new)>(w: Bodies<O>, db: Db<O>)
    requires Restartable(w) && db.version >= 11 && DoubleSeparator !in db.markers
    ensures
      var swept := RunTo(w, 3, db).(joined := Sweeps.Repaired(Sweeps.DoubleSep, db.joined));
      var stable := Sweeps.Stable(Sweeps.DoubleSep, db.joined);
      && (RunTo(w, 4, swept) == RunTo(w, 4, db) <==> stable)
      && (stable ==> Complete(w, swept) == Complete(w, db))
      && (RoomUserIdJoined in db.markers ==> (Complete(w, swept) == Complete(w, db) <==> stable))
  {
    hide RunTo, Complete, Sweeps.Repaired, Sweeps.Stable;
    var swept := RunTo(w, 3, db).(joined := Sweeps.Repaired(Sweeps.DoubleSep, db.joined));
    AtSweep(w, db);
    SweptJoined(w, db);
    SweptJoined(w, swept);
    Sweeps.RepairIsIdempotent(Sweeps.DoubleSep, db.joined);
    if Sweeps.Stable(Sweeps.DoubleSep, db.joined) { SameSweepSameEnd(w, db, swept); }
  }

  /** If a sweep that is started again repairs to the same table, the run ends the same. */
  lemma SameSweepSameEnd<O(!new)>(w: Bodies<O>, db: Db<O>, db': Db<O>)
    requires Restartable(w) && db.version >= 11 && DoubleSeparator !in RunTo(w, 3, db).markers
    requires
      var d := RunTo(w, 3, db);
      && d.version >= 11 && db' == d.(joined := db'.joined)
      && Sweeps.Repaired(Sweeps.DoubleSep, db'.joined) == Sweeps.Repaired(Sweeps.DoubleSep, d.joined)
    ensures RunTo(w, 4, db') == RunTo(w, 4, db) && Complete(w, db') == Complete(w, db)
  {
    hide Settled, Clean, PlanAt, RunStage, Sweeps.Repaired, Receipts.Survivors, RunTo;
    var d := RunTo(w, 3, db);
    forall j | 0 <= j < 3 ensures Settled(w, PlanAt(j), db') {
      SettledBefore(w, 3, db, j);
      PlanFacts(j);
      SettledStays(w, PlanAt(j), Joined, d, db');
    }
    SettledRunsToItself(w, 3, db');
    SweepStage();
    PlanFacts(3);
    NextStage(w, 3, db);
    NextStage(w, 3, db');
    SameFromThen(w, 4, STAGES, db, db');
  }

  // ----- Runs torn between two writes -----

  /** How a run ends: cut off in a stage, or between the two writes that move one key in
      the double-separator sweep. */
  datatype Stop = At(stage: nat) | Amid(key: Key)

  /** The double-separator sweep was cut off between the two writes of key b. */
  ghost predicate TornRow<O>(db: Db<O>, db': Db<O>, b: Key)
  {
    db' == db.(joined := db'.joined) && Sweeps.BetweenWrites(db.joined, db'.joined, b)
  }

  /** A run from db that stopped so left db'. */
  ghost predicate Leaves<O>(w: Bodies<O>, stop: Stop, db: Db<O>, db': Db<O>)
  {
    match stop
    case At(stage) => CutAt(w, stage, db, db')
    case Amid(b) => db.version >= 11 && DoubleSeparator !in db.markers && TornRow(RunTo(w, 3, db), db', b)
  }

  /** The row that a torn run removed and did not write is there all the same. */
  predicate Lossless<O>(stop: Stop, db: Db<O>, db': Db<O>)
  {
    stop.Amid? ==>
      var f := Sweeps.Fix(Sweeps.DoubleSep, stop.key);
      stop.key in db.joined && f in db'.joined && db'.joined[f] == db.joined[stop.key]
  }

  ghost predicate TornHistory<O>(w: Bodies<O>, dbs: seq<Db<O>>, stops: seq<Stop>)
  {
    |dbs| == |stops| + 1 && forall k :: 0 <= k < |stops| ==> Leaves(w, stops[k], dbs[k], dbs[k + 1])
  }

  predicate AllLossless<O>(dbs: seq<Db<O>>, stops: seq<Stop>)
    requires |dbs| == |stops| + 1
  {
    forall k :: 0 <= k < |stops| ==> Lossless(stops[k], dbs[k], dbs[k + 1])
  }

  lemma AmidIsSound<O>(w: Bodies<O>, db: Db<O>, db': Db<O>, b: Key)
    requires Leaves(w, Amid(b), db, db')
    ensures db.version <= db'.version && db.markers <= db'.markers && Sound(db')
    ensures DoubleSeparator !in db'.markers
    ensures RoomUserIdJoined in db'.markers <==> RoomUserIdJoined in db.markers
    ensures Sweeps.BetweenWrites(db.joined, db'.joined, b)
  {
    hide RunTo, Sweeps.BetweenWrites, Sweeps.Stable;
    AtSweep(w, db);
    Sweeps.TornIsStable(db.joined, db'.joined, b);
  }

  /** What one run does, torn or not: versions and markers grow, and if it lost no row, a
      complete run still ends where it would have. */
  lemma StopConverges<O(!new)>(w: Bodies<O>, stop: Stop, db: Db<O>, db': Db<O>)
    requires Restartable(w) && Sound(db) && Leaves(w, stop, db, db')
    ensures db.version <= db'.version && db.markers <= db'.markers && Sound(db')
    ensures Lossless(stop, db, db') ==> Complete(w, db') == Complete(w, db)
  {
    hide Complete, CutAt, Sound, RunTo, Sweeps.Repaired, Sweeps.Fix, Sweeps.BetweenWrites;
    match stop {
      case At(stage) => CutConverges(w, stage, db, db');
      case Amid(b) =>
        AmidIsSound(w, db, db', b);
        AtSweep(w, db);
        Sweeps.LostBetweenWrites(db.joined, db'.joined, b);
        if Lossless(stop, db, db') { SameSweepSameEnd(w, db, db'); }
    }
  }

  /** The row of b is gone for good: its repaired key does not have the value it had in r0,
      and b is not there to be moved again. */
  ghost predicate Spoiled<O>(w: Bodies<O>, r0: Sweeps.Rows, b: Key, db: Db<O>)
  {
    && db.version >= 11 && Sound(db)
    && Sweeps.Moves(Sweeps.DoubleSep, b)
    && (DoubleSeparator in db.markers || b !in db.joined)
    && !Sweeps.SameAt(RunTo(w, 4, db).joined, r0, Sweeps.Fix(Sweeps.DoubleSep, b))
  }

  /** The repair of memberships does not get in the way: it is not due, or not reached. */
  predicate Undisturbed<O>(first: Db<O>, last: Db<O>)
  {
    RoomUserIdJoined in first.markers || DoubleSeparator !in last.markers
  }

  /** A run cut off between keys leaves what the sweep makes of the table as it was. */
  lemma CutKeepsSwept<O(!new)>(w: Bodies<O>, i: nat, db: Db<O>, db': Db<O>)
    requires Restartable(w) && Sound(db) && db.version >= 11 && Undisturbed(db, db') && CutAt(w, i, db, db')
    ensures RunTo(w, 4, db').joined == RunTo(w, 4, db).joined
  {
    hide Complete, CutAt, Sound, RunTo, Sweeps.Repaired;
    CutConverges(w, i, db, db');
    if RoomUserIdJoined in db.markers {
      SweptJoined(w, db);
      SweptJoined(w, db');
    } else {
      CutBasics(w, i, db, db');
      CutGrows(w, i, db, db');
      assert Position(DoubleSeparator) == 3;
      ResumesWhereCut(w, i, db, db');
      SameFromThen(w, i + 1, 4, db, db');
    }
  }

  lemma CutAddsNoBroken<O>(w: Bodies<O>, i: nat, db: Db<O>, db': Db<O>, b: Key)
    requires Sound(db) && db.version >= 11 && CutAt(w, i, db, db') && Sweeps.Moves(Sweeps.DoubleSep, b)
    requires DoubleSeparator in db.markers || b !in db.joined
    ensures DoubleSeparator in db'.markers || b !in db'.joined
  {
    hide RunTo, PlanAt, Torn, Sweeps.Stable, Sweeps.Moves, Sweeps.Repaired, Receipts.Survivors;
    CutGrows(w, i, db, db');
    if DoubleSeparator !in db'.markers {
      assert Position(DoubleSeparator) == 3;
      RunReaches(w, i, db);
      var d := RunTo(w, i, db);
      if i < STAGES && Guard(PlanAt(i), d) {
        PlanFacts(i);
        TornAddsNoBroken(w, PlanAt(i), d, db', b);
      }
    }
  }

  lemma TornAddsNoBroken<O>(w: Bodies<O>, s: Stage, d: Db<O>, db': Db<O>, b: Key)
    requires Torn(w, s, d, db') && !s.part.Membership? && Sweeps.Moves(Sweeps.DoubleSep, b) && b !in d.joined
    requires Sweeps.Stable(Sweeps.DoubleSep, d.joined)
    ensures b !in db'.joined
  {
    hide Sweeps.Moves, Sweeps.Stable, Sweeps.Repaired, Receipts.Left;
  }

  lemma {:induction false} TornHistoryGrows<O(!new)>(w: Bodies<O>, dbs: seq<Db<O>>, stops: seq<Stop>)
    requires Restartable(w) && TornHistory(w, dbs, stops) && Sound(dbs[0])
    ensures dbs[0].markers <= dbs[|dbs| - 1].markers && dbs[0].version <= dbs[|dbs| - 1].version
    decreases |stops|
  {
    hide Leaves, Sound;
    if stops != [] {
      StopConverges(w, stops[0], dbs[0], dbs[1]);
      TornHistoryGrows(w, dbs[1..], stops[1..]);
    }
  }

  lemma {:induction false} SpoiledStays<O(!new)>(
      w: Bodies<O>, r0: Sweeps.Rows, b: Key, dbs: seq<Db<O>>, stops: seq<Stop>)
    requires Restartable(w) && TornHistory(w, dbs, stops) && Spoiled(w, r0, b, dbs[0])
    requires Undisturbed(dbs[0], dbs[|dbs| - 1])
    ensures Spoiled(w, r0, b, dbs[|dbs| - 1])
    decreases |stops|
  {
    hide Spoiled, Leaves, Sound;
    if stops != [] {
      SpoiledIsSound(w, r0, b, dbs[0]);
      StopConverges(w, stops[0], dbs[0], dbs[1]);
      TornHistoryGrows(w, dbs[1..], stops[1..]);
      SpoiledStep(w, r0, b, stops[0], dbs[0], dbs[1]);
      SpoiledStays(w, r0, b, dbs[1..], stops[1..]);
    }
  }

  lemma SpoiledIsSound<O>(w: Bodies<O>, r0: Sweeps.Rows, b: Key, db: Db<O>)
    requires Spoiled(w, r0, b, db)
    ensures Sound(db)
  {
    hide Sound;
  }

  lemma SpoiledStep<O(!new)>(w: Bodies<O>, r0: Sweeps.Rows, b: Key, stop: Stop, db: Db<O>, db': Db<O>)
    requires Restartable(w) && Spoiled(w, r0, b, db) && Undisturbed(db, db') && Leaves(w, stop, db, db')
    ensures Spoiled(w, r0, b, db')
  {
    hide Complete, CutAt, Sound, RunTo, Sweeps.Repaired, Sweeps.Fix, Sweeps.Moves, Sweeps.BetweenWrites;
    StopConverges(w, stop, db, db');
    match stop {
      case At(stage) =>
        CutKeepsSwept(w, stage, db, db');
        CutAddsNoBroken(w, stage, db, db', b);
      case Amid(b2) =>
        AmidIsSound(w, db, db', b2);
        Sweeps.TornElsewhere(db.joined, db'.joined, b2, b);
        SweptJoined(w, db);
        SweptJoined(w, db');
    }
  }

  lemma LossSpoils<O(!new)>(w: Bodies<O>, stop: Stop, db: Db<O>, db': Db<O>) returns (b: Key)
    requires Restartable(w) && Sound(db) && Leaves(w, stop, db, db') && !Lossless(stop, db, db')
    ensures db.version >= 11 && Spoiled(w, RunTo(w, 4, db).joined, b, db')
  {
    b := stop.key;
    hide Complete, CutAt, Sound, RunTo, Sweeps.Repaired, Sweeps.Fix, Sweeps.Moves, Sweeps.BetweenWrites;
    StopConverges(w, stop, db, db');
    AmidIsSound(w, db, db', b);
    Sweeps.TornLoses(db.joined, db'.joined, b);
    SweptJoined(w, db);
    SweptJoined(w, db');
  }

  lemma LosslessKeepsSwept<O(!new)>(w: Bodies<O>, stop: Stop, db: Db<O>, db': Db<O>)
    requires Restartable(w) && Sound(db) && db.version >= 11 && Undisturbed(db, db')
    requires Leaves(w, stop, db, db') && Lossless(stop, db, db')
    ensures RunTo(w, 4, db').joined == RunTo(w, 4, db).joined
  {
    hide Complete, CutAt, Sound, RunTo, Sweeps.Repaired, Sweeps.Fix, Sweeps.BetweenWrites;
    match stop {
      case At(stage) => CutKeepsSwept(w, stage, db, db');
      case Amid(b) =>
        AmidIsSound(w, db, db', b);
        Sweeps.LostBetweenWrites(db.joined, db'.joined, b);
        SweptJoined(w, db);
        SweptJoined(w, db');
    }
  }

  /** Runs that are cut off anywhere, also between the two writes of a key: if no row was
      lost, a complete run ends where an uninterrupted one from the start would have. As long
      as the repair of memberships does not rewrite the table, the next run makes of it what
      the first would have if and only if no row was lost; and if that repair is not due, a
      complete run ends where the first would have only then, too. */
  lemma {:induction false} TornRunsConvergeIff<O(!new)>(w: Bodies<O>, dbs: seq<Db<O>>, stops: seq<Stop>)
    requires Restartable(w) && TornHistory(w, dbs, stops) && Sound(dbs[0]) && dbs[0].version >= 11
    ensures
      var first, last := dbs[0], dbs[|dbs| - 1];
      && (AllLossless(dbs, stops) ==> Complete(w, last) == Complete(w, first))
      && (Undisturbed(first, last) ==>
        (RunTo(w, 4, last).joined == RunTo(w, 4, first).joined <==> AllLossless(dbs, stops)))
      && (RoomUserIdJoined in first.markers ==>
        (Complete(w, last) == Complete(w, first) <==> AllLossless(dbs, stops)))
    decreases |stops|
  {
    hide Complete, Leaves, Sound, Spoiled, Lossless, RunTo;
    TornHistoryGrows(w, dbs, stops);
    if stops != [] {
      var first, rest, tail := dbs[0], dbs[1..], stops[1..];
      var last := dbs[|dbs| - 1];
      StopConverges(w, stops[0], first, dbs[1]);
      TornHistoryGrows(w, rest, tail);
      TornRunsConvergeIff(w, rest, tail);
      FirstOfAll(dbs, stops);
      if Undisturbed(first, last) {
        if Lossless(stops[0], first, dbs[1]) {
          LosslessKeepsSwept(w, stops[0], first, dbs[1]);
        } else {
          var b := LossSpoils(w, stops[0], first, dbs[1]);
          SpoiledStays(w, RunTo(w, 4, first).joined, b, rest, tail);
          SpoiledDiffers(w, RunTo(w, 4, first).joined, b, last);
        }
      }
    }
    if RoomUserIdJoined in dbs[0].markers {
      SweptJoined(w, dbs[0]);
      SweptJoined(w, dbs[|dbs| - 1]);
    }
  }

  lemma SpoiledDiffers<O>(w: Bodies<O>, r0: Sweeps.Rows, b: Key, db: Db<O>)
    requires Spoiled(w, r0, b, db)
    ensures RunTo(w, 4, db).joined != r0
  {
    hide Sound, RunTo, Sweeps.Fix, Sweeps.Moves;
  }

  lemma FirstOfAll<O>(dbs: seq<Db<O>>, stops: seq<Stop>)
    requires |dbs| == |stops| + 1 && stops != []
    ensures AllLossless(dbs, stops) <==> Lossless(stops[0], dbs[0], dbs[1]) && AllLossless(dbs[1..], stops[1..])
  {
    hide Lossless;
    if Lossless(stops[0], dbs[0], dbs[1]) && AllLossless(dbs[1..], stops[1..]) {
      forall k | 0 <= k < |stops| ensures Lossless(stops[k], dbs[k], dbs[k + 1]) {
        if k > 0 { assert Lossless(stops[1..][k - 1], dbs[1..][k - 1], dbs[1..][k]); }
      }
    }
    if AllLossless(dbs, stops) {
      forall k | 0 <= k < |stops| - 1 ensures Lossless(stops[1..][k], dbs[1..][k], dbs[1..][k + 1]) {
        assert Lossless(stops[k + 1], dbs[k + 1], dbs[k + 1 + 1]);
      }
    }
  }

  // ----- Markers tell the truth -----

  /** If these runs set the marker of a repeatable stage, its table is clean. */
  ghost predicate CleanIfNew<O>(w: Bodies<O>, s: Stage, first: set<Marker>, db: Db<O>)
    requires s.needs.MarkOr17?
  {
    s.needs.m in db.markers && s.needs.m !in first ==> Clean(w, s, db)
  }

  lemma CleanPart<O>(w: Bodies<O>, s: Stage, db: Db<O>, db': Db<O>)
    requires SamePart(s.part, db, db') && Clean(w, s, db)
    ensures Clean(w, s, db')
  {
    hide Sweeps.Repaired, Receipts.Survivors;
  }

  lemma TornClean<O>(w: Bodies<O>, s: Stage, db: Db<O>, db': Db<O>)
    requires s.part.Referenced? || s.part.ReadReceipts?
    requires Torn(w, s, db, db') && Clean(w, s, db)
    ensures db' == db
  {
    hide Sweeps.Repaired, Receipts.Survivors, Sweeps.Stable, Sweeps.Left, Receipts.Left;
    if s.part.Referenced? {
      Sweeps.MissingSepSettles(db.referenced);
      Sweeps.RepairedIsClean(Sweeps.MissingSep, db.referenced);
      Sweeps.LeftClean(Sweeps.MissingSep, db.referenced, db'.referenced);
    } else {
      Receipts.LeftClean(db.receipts, db'.receipts);
    }
  }

  lemma {:induction false} RunKeepsClean<O(!new)>(w: Bodies<O>, i: nat, j: nat, first: set<Marker>, db: Db<O>)
    requires Restartable(w) && i <= STAGES && (j == 5 || j == 6) && CleanIfNew(w, PlanAt(j), first, db)
    ensures CleanIfNew(w, PlanAt(j), first, RunTo(w, i, db))
  {
    hide *;
    IsRepeatable(j);
    if i == 0 {
      NoStages(w, db);
    } else {
      RunToNext(w, i - 1, db);
      RunKeepsClean(w, i - 1, j, first, db);
      StageKeepsClean(w, i - 1, j, first, RunTo(w, i - 1, db));
    }
  }

  lemma StageKeepsClean<O(!new)>(w: Bodies<O>, i: nat, j: nat, first: set<Marker>, d: Db<O>)
    requires Restartable(w) && i < STAGES && (j == 5 || j == 6) && CleanIfNew(w, PlanAt(j), first, d)
    ensures CleanIfNew(w, PlanAt(j), first, RunStage(w, PlanAt(i), d))
  {
    hide Sweeps.Repaired, Receipts.Survivors, PlanAt, Body, Clean, Close, Guard, Grows;
    PlanFacts(j);
    PlanFacts(i);
    if i == j {
      SameStageIsClean(w, PlanAt(j), d);
    } else {
      OtherStageIsClean(w, PlanAt(j), PlanAt(i), d);
    }
  }

  lemma SameStageIsClean<O(!new)>(w: Bodies<O>, s: Stage, d: Db<O>)
    requires Restartable(w) && s.needs.MarkOr17? && !s.part.Joined?
    ensures RunStage(w, s, d) == d || Clean(w, s, RunStage(w, s, d))
  {
    hide Sweeps.Repaired, Receipts.Survivors, Body, Clean, Close;
    if Guard(s, d) {
      BodyTwice(w, s, d);
      ClosedIsClean(w, s, Body(w, s, d));
    }
  }

  lemma OtherStageIsClean<O>(w: Bodies<O>, s: Stage, b: Stage, d: Db<O>)
    requires s.needs.MarkOr17? && !Overlap(b.part, s.part) && !Sets(b, s.needs.m)
    ensures Clean(w, s, d) ==> Clean(w, s, RunStage(w, b, d))
    ensures s.needs.m in RunStage(w, b, d).markers <==> s.needs.m in d.markers
  {
    hide Sweeps.Repaired, Receipts.Survivors, Clean;
    StageGrows(w, b, d);
    assert SamePart(s.part, d, RunStage(w, b, d));
    if Clean(w, s, d) { CleanPart(w, s, d, RunStage(w, b, d)); }
  }

  lemma ClosedIsClean<O>(w: Bodies<O>, s: Stage, db: Db<O>)
    requires Body(w, s, db) == db
    ensures Clean(w, s, Close(s, db))
  {
    hide Sweeps.Repaired, Receipts.Survivors;
  }

  lemma CutKeepsClean<O(!new)>(w: Bodies<O>, i: nat, j: nat, first: set<Marker>, db: Db<O>, db': Db<O>)
    requires Restartable(w) && CutAt(w, i, db, db') && (j == 5 || j == 6)
    requires CleanIfNew(w, PlanAt(j), first, db)
    ensures CleanIfNew(w, PlanAt(j), first, db')
  {
    if db.version >= 11 {
      RunKeepsClean(w, i, j, first, db);
      var d, s := RunTo(w, i, db), PlanAt(j);
      hide RunTo, PlanAt, Clean, Torn, Guard;
      if i < STAGES && Guard(PlanAt(i), d) {
        PlanFacts(i);
        PlanFacts(j);
        TornGrows(w, PlanAt(i), d, db');
        if Clean(w, s, d) {
          if i == j {
            TornClean(w, s, d, db');
          } else {
            assert SamePart(s.part, d, db');
            CleanPart(w, s, d, db');
          }
        }
      }
    }
  }

  lemma {:induction false} HistoryKeepsClean<O(!new)>(
      w: Bodies<O>, j: nat, first: set<Marker>, dbs: seq<Db<O>>, cuts: seq<nat>)
    requires Restartable(w) && History(w, dbs, cuts) && (j == 5 || j == 6) && CleanIfNew(w, PlanAt(j), first, dbs[0])
    ensures CleanIfNew(w, PlanAt(j), first, dbs[|dbs| - 1])
    decreases |cuts|
  {
    hide CutAt, CleanIfNew, PlanAt;
    if cuts != [] {
      IsRepeatable(j);
      CutKeepsClean(w, cuts[0], j, first, dbs[0], dbs[1]);
      HistoryKeepsClean(w, j, first, dbs[1..], cuts[1..]);
    }
  }

  lemma IsRepeatable(j: nat)
    requires j == 5 || j == 6
    ensures PlanAt(j).needs.MarkOr17?
  {
  }

  /** The body that the source has under each marker. */
  function MarkedBody<O>(w: Bodies<O>, m: Marker, db: Db<O>): Db<O>
  {
    match m
    case Sha256Media => db.(other := w.other(MigrateMedia, db.other))
    case DoubleSeparator => db.(joined := Sweeps.Repaired(Sweeps.DoubleSep, db.joined))
    case RoomUserIdJoined =>
      var members := w.members(Members(db.joined, db.other));
      db.(joined := members.joined, other := members.other)
    case MissingSeparator => db.(referenced := Sweeps.Repaired(Sweeps.MissingSep, db.referenced))
    case DuplicateReceipts => db.(receipts := Receipts.Survivors(db.receipts))
    case CorruptFields => db.(other := w.other(FixFields, db.other))
    case LeftState => db.(other := w.other(FillLeftState, db.other))
    case LocalInvite => db.(other := w.other(FixInviteState, db.other))
    case SplitPassword => db.(other := w.other(SplitPasswords, db.other))
    case RoomSyncToken => db.(other := w.other(ClearSyncTokens, db.other))
    case SigningKeys => db.(other := w.other(DropSigningKeys, db.other))
    case UnembedUnsigned => db
  }

  /** The stage that sets a marker runs the body under that marker. */
  lemma MarkedStage<O>(w: Bodies<O>, m: Marker, db: Db<O>)
    requires Position(m) < STAGES
    ensures
      var s := PlanAt(Position(m));
      Sets(s, m) && Close(s, Body(w, s, db)) == MarkedBody(w, m, db).(markers := db.markers + {m})
  {
    hide Sweeps.Repaired, Receipts.Survivors;
  }

  /** A run sets a marker only after the whole body under that marker, abstract or not. */
  lemma MarkerNeedsBody<O>(w: Bodies<O>, i: nat, db: Db<O>, db': Db<O>, m: Marker)
    requires CutAt(w, i, db, db') && m in db'.markers && m !in db.markers
    ensures
      var p := Position(m);
      && p < i && p < STAGES
      && var d := RunTo(w, p, db);
         RunTo(w, p + 1, db) == MarkedBody(w, m, d).(markers := d.markers + {m})
  {
    CutGrows(w, i, db, db');
    var p := Position(m);
    hide RunTo, PlanAt, Body, Close, MarkedBody, Sweeps.Repaired, Receipts.Survivors;
    PlanFacts(p);
    RunReaches(w, p, db);
    assert m !in RunTo(w, p, db).markers;
    NextStage(w, p, db);
    MarkedStage(w, m, RunTo(w, p, db));
  }

  /** When a sequence of runs has set the marker of a sweep, however they were cut off,
      the table is the repaired table of the start. The joined users are that, or what the
      repair of memberships made of that, or on the way there. */
  lemma MarkerMeansDone<O(!new)>(w: Bodies<O>, dbs: seq<Db<O>>, cuts: seq<nat>)
    requires Restartable(w) && History(w, dbs, cuts) && Sound(dbs[0])
    ensures
      var first, last := dbs[0], dbs[|dbs| - 1];
      var news := last.markers - first.markers;
      && (DoubleSeparator in news ==>
        && RunTo(w, 4, first).joined == Sweeps.Repaired(Sweeps.DoubleSep, first.joined)
        && (if RoomUserIdJoined in last.markers then last.joined
            else w.members(MembersOf(RunTo(w, 4, last))).joined) == JoinedAtEnd(w, first))
      && (MissingSeparator in news ==> last.referenced == Sweeps.Repaired(Sweeps.MissingSep, first.referenced))
      && (DuplicateReceipts in news ==> last.receipts == Receipts.Survivors(first.receipts))
  {
    var first, last := dbs[0], dbs[|dbs| - 1];
    CutRunsConverge(w, dbs, cuts);
    RepeatableMarkers(w, dbs, cuts);
    if first.version < 11 {
      OldStaysOld(w, dbs, cuts);
    } else {
      hide History, Sound, Sweeps.Repaired, Receipts.Survivors, RunTo, ReachedMarks;
      RunReaches(w, STAGES, first);
      RunReaches(w, STAGES, last);
      SweptJoined(w, first);
      SweptJoined(w, last);
      JoinedStays(w, STAGES, first);
      JoinedStays(w, STAGES, last);
    }
  }

  lemma RepeatableMarkers<O(!new)>(w: Bodies<O>, dbs: seq<Db<O>>, cuts: seq<nat>)
    requires Restartable(w) && History(w, dbs, cuts)
    ensures
      var first, last := dbs[0], dbs[|dbs| - 1];
      && (MissingSeparator in last.markers - first.markers ==>
        Sweeps.Repaired(Sweeps.MissingSep, last.referenced) == last.referenced)
      && (DuplicateReceipts in last.markers - first.markers ==> Receipts.Survivors(last.receipts) == last.receipts)
  {
    var first, last := dbs[0], dbs[|dbs| - 1];
    var s, t := Stage(MarkOr17(MissingSeparator), Referenced), Stage(MarkOr17(DuplicateReceipts), ReadReceipts);
    assert PlanAt(5) == s && PlanAt(6) == t;
    hide History, Sweeps.Repaired, Receipts.Survivors, PlanAt, Clean;
    HistoryKeepsClean(w, 5, first.markers, dbs, cuts);
    HistoryKeepsClean(w, 6, first.markers, dbs, cuts);
    CleanTable(w, s, last);
    CleanTable(w, t, last);
  }

  lemma CleanTable<O>(w: Bodies<O>, s: Stage, db: Db<O>)
    ensures Clean(w, s, db) && s.part.Referenced? ==>
      Sweeps.Repaired(Sweeps.MissingSep, db.referenced) == db.referenced
    ensures Clean(w, s, db) && s.part.ReadReceipts? ==> Receipts.Survivors(db.receipts) == db.receipts
  {
    hide Sweeps.Repaired, Receipts.Survivors;
  }

  lemma {:induction false} OldStaysOld<O>(w: Bodies<O>, dbs: seq<Db<O>>, cuts: seq<nat>)
    requires History(w, dbs, cuts) && dbs[0].version < 11
    ensures dbs[|dbs| - 1] == dbs[0]
    decreases |cuts|
  {
    if cuts != [] { OldStaysOld(w, dbs[1..], cuts[1..]); }
  }

  // ----- A fresh database -----

  const ALL_MARKERS: set<Marker> :=
    {Sha256Media, DoubleSeparator, RoomUserIdJoined, MissingSeparator, DuplicateReceipts, CorruptFields, LeftState,
     LocalInvite, SplitPassword, RoomSyncToken, UnembedUnsigned, SigningKeys}

  /** A fresh database starts with the current version and all markers. */
  function Fresh<O>(db: Db<O>): Db<O>
  {
    db.(version := DATABASE_VERSION, markers := db.markers + ALL_MARKERS)
  }

  /** The markers of a fresh database are the ones that the stages look for. */
  lemma FreshNeedsNothing<O(!new)>(w: Bodies<O>, db: Db<O>)
    ensures Complete(w, Fresh(db)) == Fresh(db)
  {
    var d := Fresh(db);
    forall j | 0 <= j < STAGES ensures Settled(w, PlanAt(j), d) {
      hide PlanAt;
      PlanFacts(j);
      AllMarkersAreAll();
    }
    SettledRunsToItself(w, STAGES, d);
  }

  lemma AllMarkersAreAll()
    ensures forall m: Marker :: m in ALL_MARKERS
  {
    forall m: Marker ensures m in ALL_MARKERS {
      match m {
        case Sha256Media => case DoubleSeparator => case RoomUserIdJoined => case MissingSeparator =>
        case DuplicateReceipts => case CorruptFields => case LeftState => case LocalInvite =>
        case SplitPassword => case RoomSyncToken => case SigningKeys => case UnembedUnsigned =>
      }
    }
  }

  // ----- The driver as written -----

  /** How a run ends: an error, a panic or a crash cuts it short. */
  datatype Ending = Completed | Unsupported | CutShort | WrongVersion

  /** Where a run is cut off: in a stage after `writes` of the writes of its body, or after
      the last write of the stage, as when sorting the database fails then. */
  datatype Cut = Never | InStage(stage: nat, writes: nat) | AfterStage(stage: nat)

  /** Wherever an abstract body is cut off, running it again makes up for it. */
  ghost predicate Resumable<O(!new)>(w: Bodies<O>, partial: Bodies<O>)
  {
    && Restartable(w)
    && (forall job, o :: w.other(job, partial.other(job, o)) == w.other(job, o))
    && (forall m :: w.members(partial.members(m)) == w.members(m))
  }

  /** A table sweep is given the keys of its table, in order. */
  ghost predicate HasKeys<O>(s: Stage, keys: seq<Key>, db: Db<O>)
  {
    && (s.part.Joined? ==> Sweeps.SnapshotOf(keys, db.joined) && Sweeps.InOrder(keys))
    && (s.part.Referenced? ==> Sweeps.SnapshotOf(keys, db.referenced))
    && (s.part.ReadReceipts? ==> Receipts.Distinct(db.receipts))
  }

  predicate NoPanic<O>(debug: bool, s: Stage, db: Db<O>)
  {
    && (s.part.Joined? ==> Sweeps.NoPanic(false, Sweeps.DoubleSep, db.joined))
    && (s.part.Referenced? ==> Sweeps.NoPanic(debug, Sweeps.MissingSep, db.referenced))
  }

  class Database<O(!new)> {
    const debug: bool
    var version: nat
    var markers: set<Marker>
    var joined: Sweeps.Rows
    var referenced: Sweeps.Rows
    var receipts: seq<Receipts.Receipt>
    var other: O

    constructor (debug: bool, db: Db<O>)
      ensures View() == db && this.debug == debug
    {
      this.debug := debug;
      version, markers, joined, referenced := db.version, db.markers, db.joined, db.referenced;
      receipts, other := db.receipts, db.other;
    }

    function View(): Db<O>
      reads this
    {
      Db(version, markers, joined, referenced, receipts, other)
    }

    /** The sweep of read receipts, cut off before the key number `cut` if there is one. */
    method SweepReceipts(cut: nat) returns (done: bool)
      requires Receipts.Distinct(receipts)
      modifies this`receipts
      ensures Receipts.Left(old(receipts), receipts)
      ensures done ==> receipts == Receipts.Survivors(old(receipts))
      ensures cut >= |old(receipts)| ==> done
    {
      hide Receipts.Survivors, Receipts.Distinct, Receipts.CutAt, Receipts.Left;
      var keys := receipts;
      var table := new Receipts.Table(set k | k in keys);
      var total, fixed := table.FixDuplicates(keys, cut);
      Receipts.ListedIsCut(keys, table.rows, total);
      CutReceipts(keys, total);
      receipts := Receipts.Listed(keys, table.rows);
      done := total == |keys|;
    }

    /** The body of a stage, whole or cut off after `cut` of its writes. */
    method RunBody(w: Bodies<O>, partial: Bodies<O>, s: Stage, keys: seq<Key>, whole: bool, cut: nat)
      returns (done: bool)
      requires Resumable(w, partial) && HasKeys(s, keys, View())
      modifies this
      ensures Torn(w, s, old(View()), View()) || (s.part.Joined? && exists b :: TornRow(old(View()), View(), b))
      ensures done ==> Torn(w, s, old(View()), View()) && View() == Body(w, s, old(View()))
      ensures whole ==> (done <==> NoPanic(debug, s, old(View())))
    {
      hide Sweeps.Repaired, Receipts.Survivors, Sweeps.Stable, Sweeps.Left, Sweeps.SnapshotOf, Sweeps.InOrder;
      hide Sweeps.NoPanic, Receipts.Distinct, Receipts.Left, Sweeps.BetweenWrites, Sweeps.PartlySwept;
      done := true;
      match s.part {
        case Joined =>
          var table := new Sweeps.Table(joined);
          var torn;
          ghost var was := View();
          done, torn := table.FixDoubleSep(keys, if whole then 2 * |keys| else cut);
          joined := table.data;
          if torn && Sweeps.Stable(Sweeps.DoubleSep, was.joined) {
            ghost var b :| Sweeps.BetweenWrites(was.joined, joined, b);
            assert TornRow(was, View(), b);
          }
        case Referenced =>
          var table := new Sweeps.Table(referenced);
          done := table.FixMissingSep(debug, keys, if whole then 2 * |keys| else cut);
          referenced := table.data;
        case ReadReceipts =>
          done := SweepReceipts(if whole then |receipts| else cut);
        case Membership =>
          done := whole;
          var m := if whole then w.members(MembersOf(View())) else partial.members(MembersOf(View()));
          joined, other := m.joined, m.other;
        case Other(job) =>
          done := whole;
          other := if whole then w.other(job, other) else partial.other(job, other);
        case Nothing =>
      }
    }

    /** The last write of a stage. */
    method Finish(s: Stage)
      modifies this`version, this`markers
      ensures View() == Close(s, old(View()))
    {
      if s.needs.Version? {
        version := s.needs.v;
      } else {
        markers := markers + {s.needs.m};
      }
    }

    /** migrate, cut off where `cut` says, if it gets there. */
    method Migrate(w: Bodies<O>, partial: Bodies<O>, joinedKeys: seq<Key>, referencedKeys: seq<Key>, cut: Cut)
      returns (e: Ending)
      requires Resumable(w, partial)
      requires Sweeps.SnapshotOf(joinedKeys, joined) && Sweeps.InOrder(joinedKeys)
      requires Sweeps.SnapshotOf(referencedKeys, referenced) && Receipts.Distinct(receipts)
      modifies this
      ensures exists stop :: Leaves(w, stop, old(View()), View())
      ensures e ==
        if old(version) < 11 then Unsupported
        else if Hits(w, cut, old(View())) || Panics(debug, old(View())) then CutShort
        else if old(version) <= 19 then Completed
        else WrongVersion
      ensures e.Unsupported? ==> View() == old(View())
      ensures e.Completed? || e.WrongVersion? ==> View() == WholeRun(w, old(View()))
      ensures e.CutShort? && !Panics(debug, old(View())) ==> StoppedAt(w, cut, old(View()), View())
    {
      hide RunTo, RunStage, Torn, Guard, Body, Close, NoPanic, Resumable, Sweeps.SnapshotOf, Sweeps.InOrder, HasKeys;
      hide Receipts.Distinct, PlanAt, TornRow, PanicsAt, WholeRun;
      ghost var db := View();
      if version < 11 {
        assert Leaves(w, At(0), db, View());
        return Unsupported;
      }
      NoStages(w, db);
      for i := 0 to STAGES
        invariant View() == RunTo(w, i, db)
        invariant Hits(w, cut, db) ==> cut.stage >= i
        invariant (i > 3 ==> !PanicsAt(debug, 3, db)) && (i > 5 ==> !PanicsAt(debug, 5, db))
      {
        var s := PlanAt(i);
        NextStage(w, i, db);
        PanicsWhenDue(w, i, debug, db);
        if Guard(s, View()) {
          var keys := if i == 3 then joinedKeys else referencedKeys;
          TablesStay(w, i, db, joinedKeys, referencedKeys);
          var here := cut.InStage? && cut.stage == i;
          var done := RunBody(w, partial, s, keys, !here, if here then cut.writes else 0);
          if !done || here {
            StoppedInStage(w, i, db, View());
            return CutShort;
          }
          Finish(s);
          if cut == AfterStage(i) {
            CutBefore(w, i + 1, db);
            assert Leaves(w, At(i + 1), db, View());
            return CutShort;
          }
        }
      }
      assert Leaves(w, At(STAGES), db, View());
      VersionAfter(w, db);
      CompleteIsWholeRun(w, db);
      e := if version == DATABASE_VERSION then Completed else WrongVersion;
    }
  }

  /** The sweep in stage 3, or in stage 5, is due and meets a row at which it panics. */
  predicate PanicsAt<O>(debug: bool, i: nat, db: Db<O>)
  {
    || (i == 3 && DoubleSeparator !in db.markers && !Sweeps.NoPanic(false, Sweeps.DoubleSep, db.joined))
    || (i == 5 && (MissingSeparator !in db.markers || db.version < 17)
        && !Sweeps.NoPanic(debug, Sweeps.MissingSep, db.referenced))
  }

  predicate Panics<O>(debug: bool, db: Db<O>)
  {
    PanicsAt(debug, 3, db) || PanicsAt(debug, 5, db)
  }

  /** The run gets to the stage in or after which it is cut off, and does not skip it. */
  predicate Hits<O>(w: Bodies<O>, cut: Cut, db: Db<O>)
  {
    !cut.Never? && cut.stage < STAGES && Guard(PlanAt(cut.stage), RunTo(w, cut.stage, db))
  }

  /** The run was cut off in or after that stage, and not elsewhere. */
  ghost predicate StoppedAt<O>(w: Bodies<O>, cut: Cut, db: Db<O>, db': Db<O>)
  {
    match cut
    case Never => false
    case InStage(i, _) => CutAt(w, i, db, db') || (i == 3 && exists b :: Leaves(w, Amid(b), db, db'))
    case AfterStage(i) => i < STAGES && db' == RunTo(w, i + 1, db)
  }

  lemma StoppedInStage<O>(w: Bodies<O>, i: nat, db: Db<O>, db': Db<O>)
    requires db.version >= 11 && i < STAGES && Guard(PlanAt(i), RunTo(w, i, db))
    requires
      var d, s := RunTo(w, i, db), PlanAt(i);
      Torn(w, s, d, db') || (s.part.Joined? && exists b :: TornRow(d, db', b))
    ensures CutAt(w, i, db, db') || (i == 3 && exists b :: Leaves(w, Amid(b), db, db'))
    ensures exists stop :: Leaves(w, stop, db, db')
  {
    var d, s := RunTo(w, i, db), PlanAt(i);
    if Torn(w, s, d, db') {
      assert Leaves(w, At(i), db, db');
    } else {
      var b :| TornRow(d, db', b);
      PlanFacts(i);
      SweepStage();
      AtSweep(w, db);
      hide RunTo, PlanAt, TornRow, Torn;
      assert Leaves(w, Amid(b), db, db');
    }
  }

  lemma CutReceipts(t: seq<Receipts.Receipt>, n: nat)
    requires n <= |t|
    ensures Receipts.Left(t, Receipts.CutAt(t, n))
    ensures n == |t| ==> Receipts.CutAt(t, n) == Receipts.Survivors(t)
  {
    hide Receipts.Survivors;
    assert t[..|t|] == t;
  }

  lemma NoStages<O>(w: Bodies<O>, db: Db<O>)
    ensures RunTo(w, 0, db) == db
  {
  }

  lemma NextStage<O>(w: Bodies<O>, i: nat, db: Db<O>)
    requires i < STAGES
    ensures
      var s, d := PlanAt(i), RunTo(w, i, db);
      RunTo(w, i + 1, db) == if Guard(s, d) then Close(s, Body(w, s, d)) else d
  {
    hide Sweeps.Repaired, Receipts.Survivors;
  }

  /** A table is what it was at first when its sweep begins. */
  lemma TablesStay<O>(w: Bodies<O>, i: nat, db: Db<O>,
                      joinedKeys: seq<Key>, referencedKeys: seq<Key>)
    requires i < STAGES && Receipts.Distinct(db.receipts)
    requires Sweeps.SnapshotOf(joinedKeys, db.joined) && Sweeps.InOrder(joinedKeys)
    requires Sweeps.SnapshotOf(referencedKeys, db.referenced)
    ensures HasKeys(PlanAt(i), if i == 3 then joinedKeys else referencedKeys, RunTo(w, i, db))
  {
    RunReaches(w, i, db);
    hide RunTo, PlanAt, Sweeps.Repaired, Receipts.Survivors, Sweeps.SnapshotOf, Sweeps.InOrder, ReachedMarks;
    hide Sweeps.NoPanic, Receipts.Distinct;
    PlanFacts(i);
  }

  /** The body of a stage panics if and only if its sweep was to panic from the start. */
  lemma PanicsWhenDue<O>(w: Bodies<O>, i: nat, debug: bool, db: Db<O>)
    requires i < STAGES
    ensures
      var d := RunTo(w, i, db);
      (Guard(PlanAt(i), d) && !NoPanic(debug, PlanAt(i), d)) <==> PanicsAt(debug, i, db)
    ensures PanicsAt(debug, i, db) ==> Panics(debug, db)
  {
    RunReaches(w, i, db);
    if i == 3 { GuardOfSweep(i, db, RunTo(w, i, db), DoubleSeparator); }
    if i == 5 { GuardOfSweep(i, db, RunTo(w, i, db), MissingSeparator); }
    hide RunTo, PlanAt, Sweeps.Repaired, Receipts.Survivors, ReachedMarks, Guard, Sweeps.NoPanic;
    PlanFacts(i);
  }

  /** A run that is cut off between two stages is cut off in the second one, before its
      first write. */
  lemma CutBefore<O>(w: Bodies<O>, i: nat, db: Db<O>)
    requires i <= STAGES && db.version >= 11
    ensures CutAt(w, i, db, RunTo(w, i, db))
  {
    var d := RunTo(w, i, db);
    hide RunTo, PlanAt, Guard, Sweeps.Repaired, Sweeps.Stable, Receipts.Survivors;
    CutReceipts(d.receipts, 0);
    CutNowhere(d.receipts);
  }

  lemma CutNowhere(t: seq<Receipts.Receipt>)
    ensures Receipts.CutAt(t, 0) == t
  {
    assert t[..0] == [] && t[0..] == t;
  }

  lemma VersionAfter<O>(w: Bodies<O>, db: Db<O>)
    ensures db.version <= RunTo(w, STAGES, db).version
    ensures db.version <= DATABASE_VERSION ==> RunTo(w, STAGES, db).version == DATABASE_VERSION
  {
    RunReaches(w, STAGES, db);
    hide RunTo;
  }
}
