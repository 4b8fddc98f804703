/** Prefix watchers: futures that wait for a key with their prefix to be written.
    `watch` and the two phases of `wake` each run under the lock of the map, so they
    are the atomic steps; anything can run between the two phases of a wake. */
module Watchers {
  import opened Bytes
  import opened Wrappers

  /** Who holds a receiving end of a channel: the map, or the i-th future. */
  datatype Holder = Stored | Future(i: nat)

  /** A channel for one prefix; `sentBy` names the wake that sent to it. The sending end
      lives in the map only. */
  datatype Channel = Channel(prefix: Key, receivers: set<Holder>, senderAlive: bool, sentBy: Option<nat>)

  /** The locked map and the channels ever made; `panicked` once an `expect` on a send or
      an `unwrap` on a wait failed. */
  datatype Table = Table(watchers: map<Key, nat>, channels: seq<Channel>, panicked: bool)

  predicate Unsent(t: Table, c: nat)
  {
    c < |t.channels| && t.channels[c].sentBy.None?
  }

  /** The channel that a new future for this prefix waits on. */
  function ChannelFor(t: Table, prefix: Key): nat
  {
    if prefix in t.watchers then t.watchers[prefix] else |t.channels|
  }

  /** The critical section of watch, for future i. */
  function AddWatch(t: Table, prefix: Key, i: nat): Table
  {
    if prefix in t.watchers && t.watchers[prefix] < |t.channels| then
      var c := t.watchers[prefix];
      var channel := t.channels[c];
      t.(channels := t.channels[c := channel.(receivers := channel.receivers + {Future(i)})])
    else
      Table(t.watchers[prefix := |t.channels|],
            t.channels + [Channel(prefix, {Stored, Future(i)}, true, None)],
            t.panicked)
  }

  /** The prefixes of key, up to a length, that are watched: the read phase of wake. */
  function TriggeredUpTo(watchers: map<Key, nat>, key: Key, length: nat): (r: seq<Key>)
    requires length <= |key| + 1
    ensures forall p :: p in r <==> p <= key && |p| < length && p in watchers
  {
    if length == 0 then []
    else
      var shorter := TriggeredUpTo(watchers, key, length - 1);
      assert forall p :: p <= key && |p| == length - 1 ==> p == key[..length - 1];
      if key[..length - 1] in watchers then shorter + [key[..length - 1]] else shorter
  }

  /** Removing one prefix and sending to its channel, in the write phase of wake w. */
  function Fire(t: Table, w: nat, prefix: Key): Table
  {
    if prefix in t.watchers && t.watchers[prefix] < |t.channels| then
      var c := t.watchers[prefix];
      var channel := t.channels[c];
      Table(t.watchers - {prefix},
            t.channels[c := Channel(channel.prefix, channel.receivers - {Stored}, false, Some(w))],
            t.panicked || channel.receivers == {})
    else t
  }

  /** The write phase of wake w. */
  function FireAll(t: Table, w: nat, prefixes: seq<Key>): Table
  {
    if prefixes == [] then t
    else Fire(FireAll(t, w, prefixes[..|prefixes| - 1]), w, prefixes[|prefixes| - 1])
  }

  /** The life cycle of channels: a channel is in the map, under its own prefix, with both
      ends alive, exactly as long as nothing was sent to it. */
  ghost predicate LifeCycle(t: Table)
  {
    && !t.panicked
    && (forall p :: p in t.watchers ==> Unsent(t, t.watchers[p]) && t.channels[t.watchers[p]].prefix == p)
    && (forall c: nat :: Unsent(t, c) ==>
          t.channels[c].prefix in t.watchers && t.watchers[t.channels[c].prefix] == c)
    && (forall c: nat :: c < |t.channels| ==>
          && t.channels[c].senderAlive == Unsent(t, c)
          && (Stored in t.channels[c].receivers <==> Unsent(t, c)))
  }

  /** What the write phase does to a channel. */
  function Sent(channel: Channel, w: nat): Channel {
    Channel(channel.prefix, channel.receivers - {Stored}, false, Some(w))
  }

  ghost predicate FiredExactly(t: Table, w: nat, prefixes: seq<Key>, t': Table)
  {
    && |t'.channels| == |t.channels|
    && forall c: nat :: c < |t.channels| ==>
         t'.channels[c] == if Unsent(t, c) && t.channels[c].prefix in prefixes
                           then Sent(t.channels[c], w) else t.channels[c]
  }

  /** The write phase sends to the channels of its prefixes that are still in the map, to
      nothing else, and no send fails. */
  lemma {:induction false} FireAllEffect(t: Table, w: nat, prefixes: seq<Key>)
    requires LifeCycle(t)
    ensures LifeCycle(FireAll(t, w, prefixes))
    ensures FiredExactly(t, w, prefixes, FireAll(t, w, prefixes))
  {
    if prefixes != [] {
      var front, last := prefixes[..|prefixes| - 1], prefixes[|prefixes| - 1];
      FireAllEffect(t, w, front);
      FireEffect(FireAll(t, w, front), w, last);
      assert prefixes == front + [last];
    }
  }

  lemma FireEffect(t: Table, w: nat, prefix: Key)
    requires LifeCycle(t)
    ensures LifeCycle(Fire(t, w, prefix))
    ensures FiredExactly(t, w, [prefix], Fire(t, w, prefix))
  {
    var t' := Fire(t, w, prefix);
    assert forall c: nat :: c < |t.channels| ==> (Unsent(t', c) <==> Unsent(t, c) && t.channels[c].prefix != prefix);
  }

  lemma WatchEffect(t: Table, prefix: Key, i: nat)
    requires LifeCycle(t)
    ensures LifeCycle(AddWatch(t, prefix, i))
  {
    var t' := AddWatch(t, prefix, i);
    assert forall c: nat :: c < |t.channels| ==> (Unsent(t', c) <==> Unsent(t, c));
  }

  // ----- Calls and their interleavings -----

  /** Completed once a poll found something sent, dropped if its owner gave it up before. */
  datatype Status = Pending | Completed | Dropped

  /** A future returned by watch, at step `at`. */
  datatype Waiting = Waiting(prefix: Key, channel: nat, at: nat, status: Status)

  /** A call of wake: its read phase was step readAt, its write phase, or its return if
      nothing was triggered, step doneAt. */
  datatype Wake = Wake(key: Key, readAt: nat, triggered: seq<Key>, returned: bool, doneAt: nat)

  datatype State = State(table: Table, futures: seq<Waiting>, wakes: seq<Wake>, clock: nat)

  /** The atomic steps. Poll(i) and Drop(i) are steps of the owner of future i. */
  datatype Step = Register(prefix: Key) | Read(key: Key) | Write(w: nat) | Poll(i: nat) | Drop(i: nat)

  const Initial := State(Table(map[], [], false), [], [], 0)

  function Release(t: Table, c: nat, i: nat): Table
    requires c < |t.channels|
  {
    t.(channels := t.channels[c := t.channels[c].(receivers := t.channels[c].receivers - {Future(i)})])
  }

  /** What a step does; one that is not possible does nothing. */
  function Act(s: State, step: Step): State
  {
    match step
    case Register(prefix) =>
      s.(table := AddWatch(s.table, prefix, |s.futures|),
         futures := s.futures + [Waiting(prefix, ChannelFor(s.table, prefix), s.clock, Pending)])
    case Read(key) =>
      var triggered := TriggeredUpTo(s.table.watchers, key, |key| + 1);
      s.(wakes := s.wakes + [Wake(key, s.clock, triggered, triggered == [], s.clock)])
    case Write(w) =>
      if w < |s.wakes| && !s.wakes[w].returned then
        s.(table := FireAll(s.table, w, s.wakes[w].triggered),
           wakes := s.wakes[w := s.wakes[w].(returned := true, doneAt := s.clock)])
      else s
    case Poll(i) =>
      if i < |s.futures| && s.futures[i].status.Pending? && s.futures[i].channel < |s.table.channels| then
        var c := s.futures[i].channel;
        if !Unsent(s.table, c) then Leave(s, i, Completed)
        else if s.table.channels[c].senderAlive then s
        else s.(table := s.table.(panicked := true))
      else s
    case Drop(i) =>
      if i < |s.futures| && s.futures[i].status.Pending? && s.futures[i].channel < |s.table.channels| then
        Leave(s, i, Dropped)
      else s
  }

  function Apply(s: State, step: Step): State
  {
    Act(s, step).(clock := s.clock + 1)
  }

  function Leave(s: State, i: nat, status: Status): State
    requires i < |s.futures| && s.futures[i].channel < |s.table.channels|
  {
    s.(table := Release(s.table, s.futures[i].channel, i),
       futures := s.futures[i := s.futures[i].(status := status)])
  }

  /** The state after any run of steps. */
  function Run(steps: seq<Step>): State
  {
    if steps == [] then Initial else Apply(Run(steps[..|steps| - 1]), steps[|steps| - 1])
  }

  /** Something was sent to the channel of future i. */
  predicate Fired(s: State, i: nat)
    requires i < |s.futures|
  {
    s.futures[i].channel < |s.table.channels| && !Unsent(s.table, s.futures[i].channel)
  }

  ghost predicate FuturesOk(s: State)
  {
    forall i :: 0 <= i < |s.futures| ==>
      && s.futures[i].channel < |s.table.channels|
      && s.table.channels[s.futures[i].channel].prefix == s.futures[i].prefix
      && s.futures[i].at < s.clock
  }

  ghost predicate WakesOk(s: State)
  {
    forall w :: 0 <= w < |s.wakes| ==>
      && s.wakes[w].readAt <= s.wakes[w].doneAt < s.clock
      && forall p :: p in s.wakes[w].triggered ==> p <= s.wakes[w].key
  }

  /** Nothing is sent but by a returned wake that found the prefix watched. */
  ghost predicate SentByWakes(s: State)
  {
    forall c: nat :: c < |s.table.channels| && !Unsent(s.table, c) ==>
      var w := s.table.channels[c].sentBy.value;
      w < |s.wakes| && s.wakes[w].returned && s.table.channels[c].prefix in s.wakes[w].triggered
  }

  /** A future that fired was registered before the write phase that fired it. */
  ghost predicate FiredAfterRegistration(s: State)
  {
    forall i :: 0 <= i < |s.futures| && Fired(s, i) ==>
      var w := s.table.channels[s.futures[i].channel].sentBy.value;
      w < |s.wakes| && s.futures[i].at < s.wakes[w].doneAt
  }

  /** A future registered before the read phase of a wake of its key has fired, or that
      wake is still going to fire it. */
  ghost predicate NothingLost(s: State)
  {
    forall i, w :: (0 <= i < |s.futures| && 0 <= w < |s.wakes|
                    && s.futures[i].at < s.wakes[w].readAt && s.futures[i].prefix <= s.wakes[w].key) ==>
      Fired(s, i) || (!s.wakes[w].returned && s.futures[i].prefix in s.wakes[w].triggered)
  }

  ghost predicate Inv(s: State)
  {
    && LifeCycle(s.table) && FuturesOk(s) && WakesOk(s)
    && SentByWakes(s) && FiredAfterRegistration(s) && NothingLost(s)
  }

  lemma RegisterEffect(s: State, prefix: Key)
    requires Inv(s)
    ensures var s' := Apply(s, Register(prefix));
      && LifeCycle(s'.table)
      && (forall c: nat :: c < |s.table.channels| ==>
            && s'.table.channels[c].sentBy == s.table.channels[c].sentBy
            && s'.table.channels[c].prefix == s.table.channels[c].prefix)
      && (forall i :: 0 <= i < |s.futures| ==> Fired(s', i) == Fired(s, i))
      && !Fired(s', |s.futures|)
  {
    WatchEffect(s.table, prefix, |s.futures|);
  }

  lemma RegisterKeepsBooks(s: State, prefix: Key)
    requires Inv(s)
    ensures var s' := Apply(s, Register(prefix)); FuturesOk(s') && WakesOk(s') && SentByWakes(s')
  {
    RegisterEffect(s, prefix);
  }

  lemma RegisterKeepsPromises(s: State, prefix: Key)
    requires Inv(s)
    ensures var s' := Apply(s, Register(prefix)); FiredAfterRegistration(s') && NothingLost(s')
  {
    RegisterEffect(s, prefix);
  }

  /** The read phase changes no channel, and finds every watched prefix of its key. */
  lemma ReadEffect(s: State, key: Key)
    requires LifeCycle(s.table) && FuturesOk(s)
    ensures var s' := Apply(s, Read(key));
      && s'.table == s.table && s'.futures == s.futures && s'.clock == s.clock + 1
      && |s'.wakes| == |s.wakes| + 1 && s'.wakes[..|s.wakes|] == s.wakes
      && (forall i :: 0 <= i < |s.futures| ==> Fired(s', i) == Fired(s, i))
      && var w := s'.wakes[|s.wakes|];
         && w.key == key && w.readAt == w.doneAt == s.clock && (w.returned ==> w.triggered == [])
         && (forall p :: p in w.triggered ==> p <= key)
         && forall i :: 0 <= i < |s.futures| && s.futures[i].prefix <= key && !Fired(s, i) ==>
              s.futures[i].prefix in w.triggered && !w.returned
  {
    var s' := Apply(s, Read(key));
    forall i | 0 <= i < |s.futures| && s.futures[i].prefix <= key && !Fired(s, i)
      ensures s.futures[i].prefix in s'.wakes[|s.wakes|].triggered
    {
      assert Unsent(s.table, s.futures[i].channel);
    }
  }

  lemma ReadKeepsBooks(s: State, key: Key)
    requires Inv(s)
    ensures var s' := Apply(s, Read(key)); LifeCycle(s'.table) && FuturesOk(s') && WakesOk(s') && SentByWakes(s')
  {
    hide Apply, LifeCycle;
    ReadEffect(s, key);
    var s' := Apply(s, Read(key));
    assert forall w :: 0 <= w < |s.wakes| ==> s'.wakes[w] == s'.wakes[..|s.wakes|][w];
  }

  lemma ReadKeepsPromises(s: State, key: Key)
    requires Inv(s)
    ensures var s' := Apply(s, Read(key)); FiredAfterRegistration(s') && NothingLost(s')
  {
    hide Apply, LifeCycle, SentByWakes;
    ReadEffect(s, key);
    var s' := Apply(s, Read(key));
    assert forall w :: 0 <= w < |s.wakes| ==> s'.wakes[w] == s'.wakes[..|s.wakes|][w];
  }

  lemma WriteEffect(s: State, w: nat)
    requires Inv(s) && w < |s.wakes| && !s.wakes[w].returned
    ensures var s' := Apply(s, Write(w));
      && LifeCycle(s'.table)
      && FiredExactly(s.table, w, s.wakes[w].triggered, s'.table)
      && forall i :: 0 <= i < |s.futures| ==>
           Fired(s', i) == (Fired(s, i) || s.futures[i].prefix in s.wakes[w].triggered)
  {
    FireAllEffect(s.table, w, s.wakes[w].triggered);
  }

  lemma WriteKeepsBooks(s: State, w: nat)
    requires Inv(s) && w < |s.wakes| && !s.wakes[w].returned
    ensures var s' := Apply(s, Write(w)); FuturesOk(s') && WakesOk(s') && SentByWakes(s')
  {
    WriteEffect(s, w);
  }

  lemma WriteKeepsPromises(s: State, w: nat)
    requires Inv(s) && w < |s.wakes| && !s.wakes[w].returned
    ensures var s' := Apply(s, Write(w)); FiredAfterRegistration(s') && NothingLost(s')
  {
    WriteEffect(s, w);
  }

  /** When a future leaves, only its own receiving end goes. */
  lemma LeaveEffect(s: State, i: nat, status: Status)
    requires i < |s.futures| && s.futures[i].channel < |s.table.channels|
    ensures var s' := Leave(s, i, status);
      && s'.wakes == s.wakes && s'.clock == s.clock && s'.table.watchers == s.table.watchers
      && s'.table.panicked == s.table.panicked
      && |s'.table.channels| == |s.table.channels| && |s'.futures| == |s.futures|
      && (forall c: nat :: c < |s.table.channels| ==>
            s'.table.channels[c] ==
              s.table.channels[c].(receivers := s'.table.channels[c].receivers)
            && (Stored in s'.table.channels[c].receivers <==> Stored in s.table.channels[c].receivers))
      && (forall j :: 0 <= j < |s.futures| ==> s'.futures[j] == s.futures[j].(status := s'.futures[j].status))
  {
  }

  lemma LeaveKeepsLifeCycle(s: State, i: nat, status: Status)
    requires LifeCycle(s.table) && i < |s.futures| && s.futures[i].channel < |s.table.channels|
    ensures LifeCycle(Leave(s, i, status).table)
    ensures forall c: nat :: Unsent(Leave(s, i, status).table, c) == Unsent(s.table, c)
  {
    hide Leave;
    LeaveEffect(s, i, status);
  }

  lemma LeaveKeepsBooks(s: State, i: nat, status: Status)
    requires Inv(s) && i < |s.futures|
    ensures var s' := Leave(s, i, status); FuturesOk(s') && WakesOk(s') && SentByWakes(s')
  {
    hide Leave, LifeCycle;
    LeaveEffect(s, i, status);
    LeaveKeepsLifeCycle(s, i, status);
  }

  lemma LeaveKeepsPromises(s: State, i: nat, status: Status)
    requires Inv(s) && i < |s.futures|
    ensures var s' := Leave(s, i, status); FiredAfterRegistration(s') && NothingLost(s')
  {
    hide Leave, LifeCycle, SentByWakes, WakesOk;
    LeaveEffect(s, i, status);
    LeaveKeepsLifeCycle(s, i, status);
    var s' := Leave(s, i, status);
    assert forall j :: 0 <= j < |s.futures| ==> Fired(s', j) == Fired(s, j);
  }

  lemma LeaveKeepsInv(s: State, i: nat, status: Status)
    requires Inv(s) && i < |s.futures|
    ensures s.futures[i].channel < |s.table.channels|
    ensures Inv(Leave(s, i, status)) && Leave(s, i, status).clock == s.clock
  {
    hide Leave, LifeCycle, WakesOk, SentByWakes, FiredAfterRegistration, NothingLost;
    assert s.futures[i].channel < |s.table.channels|;
    LeaveEffect(s, i, status);
    LeaveKeepsLifeCycle(s, i, status);
    LeaveKeepsBooks(s, i, status);
    LeaveKeepsPromises(s, i, status);
  }

  lemma TickKeepsInv(s: State)
    requires Inv(s)
    ensures Inv(s.(clock := s.clock + 1))
  {
    hide LifeCycle;
    assert forall i :: 0 <= i < |s.futures| ==> Fired(s.(clock := s.clock + 1), i) == Fired(s, i);
  }

  lemma StepKeepsInv(s: State, step: Step)
    requires Inv(s)
    ensures Inv(Apply(s, step))
  {
    hide LifeCycle, FuturesOk, WakesOk, SentByWakes, FiredAfterRegistration, NothingLost, Leave, FireAll, AddWatch;
    hide TriggeredUpTo;
    match step {
      case Register(prefix) =>
        RegisterEffect(s, prefix);
        RegisterKeepsBooks(s, prefix);
        RegisterKeepsPromises(s, prefix);
      case Read(key) =>
        ReadKeepsBooks(s, key);
        ReadKeepsPromises(s, key);
      case Write(w) =>
        if w < |s.wakes| && !s.wakes[w].returned {
          WriteEffect(s, w);
          WriteKeepsBooks(s, w);
          WriteKeepsPromises(s, w);
        } else {
          TickKeepsInv(s);
        }
      case Poll(i) => PollKeepsInv(s, i);
      case Drop(i) => DropKeepsInv(s, i);
    }
  }

  lemma PollKeepsInv(s: State, i: nat)
    requires Inv(s)
    ensures Inv(Apply(s, Poll(i)))
  {
    hide FuturesOk, WakesOk, SentByWakes, FiredAfterRegistration, NothingLost, Leave;
    TickKeepsInv(s);
    if i < |s.futures| {
      LeaveKeepsInv(s, i, Completed);
      TickKeepsInv(Leave(s, i, Completed));
    }
  }

  lemma DropKeepsInv(s: State, i: nat)
    requires Inv(s)
    ensures Inv(Apply(s, Drop(i)))
  {
    hide FuturesOk, WakesOk, SentByWakes, FiredAfterRegistration, NothingLost, Leave;
    TickKeepsInv(s);
    if i < |s.futures| {
      LeaveKeepsInv(s, i, Dropped);
      TickKeepsInv(Leave(s, i, Dropped));
    }
  }

  lemma {:induction false} RunKeepsInv(steps: seq<Step>)
    ensures Inv(Run(steps))
  {
    hide Apply, Inv;
    if steps == [] {
      InitialInv();
    } else {
      RunKeepsInv(steps[..|steps| - 1]);
      StepKeepsInv(Run(steps[..|steps| - 1]), steps[|steps| - 1]);
    }
  }

  lemma InitialInv()
    ensures Inv(Initial)
  {
  }

  // ----- Which step did what -----

  /** The future that step r registers, and the wake whose read phase is step q. */
  function FutureOf(steps: seq<Step>, r: nat): nat
    requires r <= |steps|
  {
    |Run(steps[..r]).futures|
  }

  function WakeOf(steps: seq<Step>, q: nat): nat
    requires q <= |steps|
  {
    |Run(steps[..q]).wakes|
  }

  predicate Registers(steps: seq<Step>, r: nat, i: nat, prefix: Key)
  {
    r < |steps| && steps[r] == Register(prefix) && FutureOf(steps, r) == i
  }

  predicate Reads(steps: seq<Step>, q: nat, w: nat, key: Key)
  {
    q < |steps| && steps[q] == Read(key) && WakeOf(steps, q) == w
  }

  predicate Writes(steps: seq<Step>, m: nat, w: nat)
  {
    m < |steps| && steps[m] == Write(w)
  }

  /** The books of the state are right: the steps they name are the ones that happened. */
  ghost predicate Traced(steps: seq<Step>, s: State)
  {
    && s.clock == |steps|
    && (forall i :: 0 <= i < |s.futures| ==> Registers(steps, s.futures[i].at, i, s.futures[i].prefix))
    && (forall w :: 0 <= w < |s.wakes| ==>
          && Reads(steps, s.wakes[w].readAt, w, s.wakes[w].key)
          && (s.wakes[w].returned && s.wakes[w].triggered != [] ==> Writes(steps, s.wakes[w].doneAt, w)))
  }

  /** The same future, whatever became of it. */
  predicate SameFuture(f: Waiting, g: Waiting)
  {
    g == f.(status := g.status)
  }

  /** The same wake, which may have returned since. */
  predicate SameWake(w: Wake, v: Wake)
  {
    v == w.(returned := v.returned, doneAt := v.doneAt) && (w.returned ==> v == w)
  }

  /** Futures and wakes are added at the end and stay what they are. */
  ghost predicate Extends(s: State, s': State)
  {
    && |s.futures| <= |s'.futures| && |s.wakes| <= |s'.wakes|
    && (forall i :: 0 <= i < |s.futures| ==> SameFuture(s.futures[i], s'.futures[i]))
    && (forall w :: 0 <= w < |s.wakes| ==> SameWake(s.wakes[w], s'.wakes[w]))
  }

  lemma StepExtends(s: State, step: Step)
    ensures Extends(s, Apply(s, step)) && Apply(s, step).clock == s.clock + 1
  {
    hide FireAll, AddWatch, TriggeredUpTo, Release;
  }

  /** What one step adds to the books. */
  lemma StepBooks(s: State, step: Step)
    ensures
      var s' := Apply(s, step);
      && (forall i :: |s.futures| <= i < |s'.futures| ==>
            i == |s.futures| && step == Register(s'.futures[i].prefix) && s'.futures[i].at == s.clock
            && s'.futures[i].status.Pending?)
      && (forall w :: |s.wakes| <= w < |s'.wakes| ==>
            w == |s.wakes| && step == Read(s'.wakes[w].key) && s'.wakes[w].readAt == s.clock
            && (s'.wakes[w].returned ==> s'.wakes[w].triggered == []))
      && (forall w :: 0 <= w < |s.wakes| && s'.wakes[w].returned && !s.wakes[w].returned ==>
            step == Write(w) && s'.wakes[w].doneAt == s.clock)
      && (step.Register? ==> |s'.futures| == |s.futures| + 1)
      && (step.Read? ==> |s'.wakes| == |s.wakes| + 1)
      && (step.Write? && step.w < |s.wakes| ==> s'.wakes[step.w].returned)
  {
    hide FireAll, AddWatch, TriggeredUpTo, Release;
  }

  lemma RunSnoc(steps: seq<Step>, step: Step)
    ensures Run(steps + [step]) == Apply(Run(steps), step)
  {
    assert (steps + [step])[..|steps|] == steps;
  }

  /** What was true of a step stays true when more steps follow. */
  lemma FactsStay(front: seq<Step>, last: Step)
    ensures
      var steps := front + [last];
      && (forall r, i, p :: Registers(front, r, i, p) ==> Registers(steps, r, i, p))
      && (forall q, w, k :: Reads(front, q, w, k) ==> Reads(steps, q, w, k))
      && (forall m, w :: Writes(front, m, w) ==> Writes(steps, m, w))
  {
    hide Run;
    var steps := front + [last];
    assert forall r :: 0 <= r < |front| ==> steps[r] == front[r];
    forall r | 0 <= r < |front| ensures steps[..r] == front[..r] { }
  }

  lemma TracedNext(front: seq<Step>, last: Step, s: State, s': State)
    requires s == Run(front) && s' == Apply(s, last) && Traced(front, s)
    ensures Traced(front + [last], s')
  {
    hide Run, Apply;
    var steps := front + [last];
    assert steps[..|front|] == front;
    FactsStay(front, last);
    StepExtends(s, last);
    StepBooks(s, last);
    forall i | 0 <= i < |s'.futures| ensures Registers(steps, s'.futures[i].at, i, s'.futures[i].prefix) {
      if i < |s.futures| { assert SameFuture(s.futures[i], s'.futures[i]); }
    }
    forall w | 0 <= w < |s'.wakes| ensures Reads(steps, s'.wakes[w].readAt, w, s'.wakes[w].key) {
      if w < |s.wakes| { assert SameWake(s.wakes[w], s'.wakes[w]); }
    }
    forall w | 0 <= w < |s'.wakes| && s'.wakes[w].returned && s'.wakes[w].triggered != []
      ensures Writes(steps, s'.wakes[w].doneAt, w)
    {
      if w < |s.wakes| { assert SameWake(s.wakes[w], s'.wakes[w]); }
    }
  }

  lemma {:induction false} RunIsTraced(steps: seq<Step>)
    ensures Traced(steps, Run(steps))
  {
    if steps != [] {
      hide Run, Apply;
      var front, last := steps[..|steps| - 1], steps[|steps| - 1];
      var s := Run(front);
      assert steps == front + [last] && steps[..|front|] == front;
      RunIsTraced(front);
      RunSnoc(front, last);
      TracedNext(front, last, s, Run(steps));
    } else {
      assert Run(steps) == Initial;
    }
  }

  lemma {:induction false} RunExtends(steps: seq<Step>, more: seq<Step>)
    ensures Extends(Run(steps), Run(steps + more))
    decreases |more|
  {
    hide Run, Apply;
    if more == [] {
      assert steps + more == steps;
    } else {
      var front, last := more[..|more| - 1], more[|more| - 1];
      assert steps + more == (steps + front) + [last];
      RunExtends(steps, front);
      RunSnoc(steps + front, last);
      StepExtends(Run(steps + front), last);
    }
  }

  /** The states on the way to a state. */
  lemma RunPasses(steps: seq<Step>, k: nat)
    requires k < |steps|
    ensures Run(steps[..k + 1]) == Apply(Run(steps[..k]), steps[k])
    ensures Extends(Run(steps[..k + 1]), Run(steps))
  {
    hide Run, Apply, Extends;
    assert steps[..k + 1] == steps[..k] + [steps[k]];
    RunSnoc(steps[..k], steps[k]);
    assert steps == steps[..k + 1] + steps[k + 1..];
    RunExtends(steps[..k + 1], steps[k + 1..]);
  }

  /** The future that a step registered is there ever after. */
  lemma RegisteredStays(steps: seq<Step>, r: nat, prefix: Key)
    requires r < |steps| && steps[r] == Register(prefix)
    ensures
      var s, i := Run(steps), FutureOf(steps, r);
      i < |s.futures| && s.futures[i].prefix == prefix && s.futures[i].at == r
  {
    hide Run, Apply;
    RunPasses(steps, r);
    RunIsTraced(steps[..r]);
    StepBooks(Run(steps[..r]), steps[r]);
    StepExtends(Run(steps[..r]), steps[r]);
  }

  lemma ReadStays(steps: seq<Step>, q: nat, key: Key)
    requires q < |steps| && steps[q] == Read(key)
    ensures
      var s, w := Run(steps), WakeOf(steps, q);
      w < |s.wakes| && s.wakes[w].key == key && s.wakes[w].readAt == q
  {
    hide Run, Apply;
    RunPasses(steps, q);
    RunIsTraced(steps[..q]);
    StepBooks(Run(steps[..q]), steps[q]);
    StepExtends(Run(steps[..q]), steps[q]);
  }

  /** The wake that reads at step q has returned: its write phase is over, or it found
      nothing to send to. */
  ghost predicate HasReturned(steps: seq<Step>, q: nat)
    requires q <= |steps|
  {
    var s, w := Run(steps), WakeOf(steps, q);
    (w < |s.wakes| && s.wakes[w].returned) || exists m :: q < m && Writes(steps, m, w)
  }

  lemma WrittenStays(steps: seq<Step>, q: nat, m: nat, key: Key)
    requires q < m && q < |steps| && steps[q] == Read(key) && Writes(steps, m, WakeOf(steps, q))
    ensures
      var s, w := Run(steps), WakeOf(steps, q);
      w < |s.wakes| && s.wakes[w].returned
  {
    hide Run, Apply;
    assert steps[..m][..q] == steps[..q];
    ReadStays(steps[..m], q, key);
    StepBooks(Run(steps[..m]), steps[m]);
    StepExtends(Run(steps[..m]), steps[m]);
    RunPasses(steps, m);
  }

  // ----- Main results -----

  /** What becomes of a future, step by step: its owner polls it to completion exactly when
      something was sent to its channel, or drops it before; nothing else touches it. */
  lemma StatusAfter(steps: seq<Step>, step: Step, i: nat)
    requires i < |Run(steps).futures|
    ensures
      var s, s' := Run(steps), Run(steps + [step]);
      && i < |s'.futures|
      && s'.futures[i].status ==
         if !s.futures[i].status.Pending? then s.futures[i].status
         else if step == Poll(i) && Fired(s, i) then Completed
         else if step == Drop(i) then Dropped
         else Pending
  {
    RunKeepsInv(steps);
    RunSnoc(steps, step);
    StatusStep(Run(steps), step, i);
  }

  lemma StatusStep(s: State, step: Step, i: nat)
    requires FuturesOk(s) && i < |s.futures|
    ensures
      var s' := Apply(s, step);
      && i < |s'.futures|
      && s'.futures[i].status ==
         if !s.futures[i].status.Pending? then s.futures[i].status
         else if step == Poll(i) && Fired(s, i) then Completed
         else if step == Drop(i) then Dropped
         else Pending
  {
    hide FireAll, AddWatch, TriggeredUpTo, Release;
  }

  /** No lost wakeups, in every interleaving: a future for a prefix of key that was
      registered before the read phase of wake(key) is completed by its next poll once
      that wake has returned, unless it is over already. Whichever wake sent to it. */
  lemma NoLostWakeups(steps: seq<Step>, r: nat, q: nat, prefix: Key, key: Key)
    requires r < q < |steps| && prefix <= key && HasReturned(steps, q)
    requires steps[r] == Register(prefix) && steps[q] == Read(key)
    ensures
      var i := FutureOf(steps, r);
      && i < |Run(steps).futures| && Run(steps).futures[i].prefix == prefix
      && var s' := Run(steps + [Poll(i)]);
         i < |s'.futures| && (s'.futures[i].status.Completed? || Run(steps).futures[i].status.Dropped?)
  {
    hide Run, Apply;
    var i := FutureOf(steps, r);
    RunKeepsInv(steps);
    RegisteredStays(steps, r, prefix);
    ReadStays(steps, q, key);
    if m :| q < m && Writes(steps, m, WakeOf(steps, q)) { WrittenStays(steps, q, m, key); }
    assert Fired(Run(steps), i);
    StatusAfter(steps, Poll(i), i);
  }

  /** The poll that completed a future, and that something had been sent by then. */
  lemma {:induction false} CompletedBy(steps: seq<Step>, i: nat) returns (p: nat)
    requires i < |Run(steps).futures| && Run(steps).futures[i].status.Completed?
    ensures p < |steps| && steps[p] == Poll(i)
    ensures i < |Run(steps[..p]).futures| && Fired(Run(steps[..p]), i)
    ensures SameFuture(Run(steps[..p]).futures[i], Run(steps).futures[i])
    decreases |steps|
  {
    hide Apply, Fired;
    var front, last := steps[..|steps| - 1], steps[|steps| - 1];
    assert steps == front + [last] && steps[..|front|] == front;
    var s := Run(front);
    RunKeepsInv(front);
    RunSnoc(front, last);
    StepBooks(s, last);
    StepExtends(s, last);
    StatusStep(s, last, i);
    if s.futures[i].status.Completed? {
      p := CompletedBy(front, i);
      assert front[..p] == steps[..p];
    } else {
      p := |front|;
    }
  }

  /** No spurious wakeups: a future that completed was registered at a step r, completed by
      a poll at a step p, and between the two, at step m, was the write phase of a wake of
      a key with its prefix, which had read at step q. */
  lemma NoSpuriousWakeups(steps: seq<Step>, i: nat) returns (r: nat, q: nat, m: nat, p: nat, key: Key)
    requires i < |Run(steps).futures| && Run(steps).futures[i].status.Completed?
    ensures r < m < p < |steps| && q < m && Run(steps).futures[i].prefix <= key
    ensures Registers(steps, r, i, Run(steps).futures[i].prefix) && steps[p] == Poll(i)
    ensures steps[q] == Read(key) && steps[m] == Write(WakeOf(steps, q))
  {
    hide Run, Apply;
    p := CompletedBy(steps, i);
    var before := steps[..p];
    var s := Run(before);
    RunKeepsInv(before);
    RunIsTraced(before);
    var c := s.futures[i].channel;
    var w := s.table.channels[c].sentBy.value;
    assert s.wakes[w].returned && s.table.channels[c].prefix in s.wakes[w].triggered;
    r, q, m, key := s.futures[i].at, s.wakes[w].readAt, s.wakes[w].doneAt, s.wakes[w].key;
    assert Registers(before, r, i, s.futures[i].prefix) && Reads(before, q, w, key) && Writes(before, m, w);
    assert before[..r] == steps[..r] && before[..q] == steps[..q];
    assert before[q] != before[m];
  }

  /** In every reachable state a channel is in the map, under its own prefix, if and only
      if nothing was sent to it; its sending end is dropped only after the send. */
  lemma ChannelLifeCycle(steps: seq<Step>, c: nat)
    requires c < |Run(steps).table.channels|
    ensures
      var t := Run(steps).table;
      var p := t.channels[c].prefix;
      && (Unsent(t, c) <==> p in t.watchers && t.watchers[p] == c)
      && (Unsent(t, c) <==> t.channels[c].senderAlive)
      && (Unsent(t, c) <==> Stored in t.channels[c].receivers)
  {
    RunKeepsInv(steps);
  }

  /** What fails, in any state: a send to a channel without a receiver, and a wait on one
      without a sender that nothing was sent to. */
  lemma FailuresAre(t: Table, w: nat, prefix: Key, s: State, i: nat)
    ensures !t.panicked ==>
      (Fire(t, w, prefix).panicked <==>
        && prefix in t.watchers && t.watchers[prefix] < |t.channels|
        && t.channels[t.watchers[prefix]].receivers == {})
    ensures !s.table.panicked && i < |s.futures| ==>
      var c := s.futures[i].channel;
      (Apply(s, Poll(i)).table.panicked <==>
        && s.futures[i].status.Pending? && c < |s.table.channels|
        && s.table.channels[c].sentBy.None? && !s.table.channels[c].senderAlive)
  {
  }

  /** Neither the `expect` on a send nor the `unwrap` on a wait ever fails: every channel in
      the map has a receiver, and a future that waits has been sent to or has a sender. */
  lemma NothingPanics(steps: seq<Step>)
    ensures !Run(steps).table.panicked
    ensures
      var s := Run(steps);
      && (forall p :: p in s.table.watchers ==>
            s.table.watchers[p] < |s.table.channels| && s.table.channels[s.table.watchers[p]].receivers != {})
      && (forall i :: 0 <= i < |s.futures| && s.futures[i].status.Pending? ==>
            && s.futures[i].channel < |s.table.channels|
            && (Fired(s, i) || s.table.channels[s.futures[i].channel].senderAlive))
  {
    RunKeepsInv(steps);
  }

  // ----- The critical sections -----

  class Watchers {
    var watchers: map<Key, nat>
    var channels: seq<Channel>
    var panicked: bool

    ghost function View(): Table
      reads this
    {
      Table(watchers, channels, panicked)
    }

    constructor ()
      ensures View() == Initial.table
    {
      watchers, channels, panicked := map[], [], false;
    }

    /** watch, under the write lock: future i waits on the channel c. */
    method Watch(prefix: Key, i: nat) returns (c: nat)
      requires LifeCycle(View())
      modifies this
      ensures c == ChannelFor(old(View()), prefix)
      ensures View() == AddWatch(old(View()), prefix, i) && LifeCycle(View())
    {
      WatchEffect(View(), prefix, i);
      if prefix in watchers {
        c := watchers[prefix];
        channels := channels[c := channels[c].(receivers := channels[c].receivers + {Future(i)})];
      } else {
        c := |channels|;
        channels := channels + [Channel(prefix, {Stored, Future(i)}, true, None)];
        watchers := watchers[prefix := c];
      }
    }

    /** wake's first phase, under the read lock. */
    method WakeRead(key: Key) returns (triggered: seq<Key>)
      ensures triggered == TriggeredUpTo(watchers, key, |key| + 1)
    {
      triggered := [];
      for length := 0 to |key| + 1
        invariant triggered == TriggeredUpTo(watchers, key, length)
      {
        if key[..length] in watchers { triggered := triggered + [key[..length]]; }
      }
    }

    /** wake's second phase, under the write lock. */
    method WakeWrite(w: nat, triggered: seq<Key>)
      requires LifeCycle(View())
      modifies this
      ensures View() == FireAll(old(View()), w, triggered) && LifeCycle(View())
    {
      for k := 0 to |triggered|
        invariant LifeCycle(View())
        invariant View() == FireAll(old(View()), w, triggered[..k])
      {
        assert triggered[..k + 1][..k] == triggered[..k];
        var prefix := triggered[k];
        FireEffect(View(), w, prefix);
        if prefix in watchers {
          var c := watchers[prefix];
          watchers := watchers - {prefix};
          panicked := panicked || channels[c].receivers == {};
          channels := channels[c := Sent(channels[c], w)];
        }
      }
      assert triggered[..|triggered|] == triggered;
    }
  }
}
