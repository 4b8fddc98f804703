/** The shutdown flags of the server: shutdown, restart and reload as sequences of atomic
    steps that interleave with those of any other calls. */
module Server {

  datatype Kind = Shutdown | Restart | Reload

  /** Where a call stands: before the swap of `restarting`, before the swap of `stopping`,
      before the signal, before either rollback, or returned. */
  datatype Place = SwapRestarting | SwapStopping | SendSignal | UndoStopping | UndoRestarting | Returned(ok: bool)

  datatype Call = Call(kind: Kind, place: Place)

  datatype State = State(stopping: bool, reloading: bool, restarting: bool, calls: seq<Call>)

  const Initial := State(false, false, false, [])

  /** A step: a new call begins, or call i does its next atomic operation; `sent` says
      whether a signal finds a receiver. */
  datatype Step = Begin(kind: Kind) | Advance(i: nat, sent: bool)

  /** Without dynamic modules, reload is an error and touches nothing. */
  function FirstPlace(kind: Kind): Place
  {
    match kind
    case Shutdown => SwapStopping
    case Restart => SwapRestarting
    case Reload => Returned(false)
  }

  /** Where a call goes once it has let go of `stopping`. */
  function AfterStopping(kind: Kind): Place
  {
    if kind == Restart then UndoRestarting else Returned(false)
  }

  function Apply(s: State, step: Step): State
  {
    match step
    case Begin(kind) => s.(calls := s.calls + [Call(kind, FirstPlace(kind))])
    case Advance(i, sent) =>
      if i >= |s.calls| then s
      else
        var call := s.calls[i];
        match call.place
        case SwapRestarting =>
          if s.restarting then Move(s, i, Returned(false))
          else Move(s, i, SwapStopping).(restarting := true)
        case SwapStopping =>
          if s.stopping then Move(s, i, AfterStopping(call.kind))
          else Move(s, i, SendSignal).(stopping := true)
        case SendSignal => Move(s, i, if sent then Returned(true) else UndoStopping)
        case UndoStopping => Move(s, i, AfterStopping(call.kind)).(stopping := false)
        case UndoRestarting => Move(s, i, Returned(false)).(restarting := false)
        case Returned(_) => s
  }

  function Move(s: State, i: nat, place: Place): State
    requires i < |s.calls|
  {
    s.(calls := s.calls[i := s.calls[i].(place := place)])
  }

  function Run(steps: seq<Step>): State
  {
    if steps == [] then Initial else Apply(Run(steps[..|steps| - 1]), steps[|steps| - 1])
  }

  // ----- Who owns the flags -----

  /** The call set `stopping` and has neither rolled it back nor given up the right to. */
  predicate OwnsStopping(c: Call)
  {
    c.place == SendSignal || c.place == UndoStopping || c.place == Returned(true)
  }

  predicate OwnsRestarting(c: Call)
  {
    c.kind == Restart && c.place != SwapRestarting && c.place != Returned(false)
  }

  predicate WellPlaced(c: Call)
  {
    match c.kind
    case Shutdown => c.place != SwapRestarting && c.place != UndoRestarting
    case Restart => true
    case Reload => c.place == Returned(false)
  }

  ghost predicate Inv(s: State)
  {
    && !s.reloading
    && (forall i :: 0 <= i < |s.calls| ==> WellPlaced(s.calls[i]))
    && (s.stopping <==> exists i :: 0 <= i < |s.calls| && OwnsStopping(s.calls[i]))
    && (s.restarting <==> exists i :: 0 <= i < |s.calls| && OwnsRestarting(s.calls[i]))
    && (forall i, j :: 0 <= i < j < |s.calls| ==> !(OwnsStopping(s.calls[i]) && OwnsStopping(s.calls[j])))
    && (forall i, j :: 0 <= i < j < |s.calls| ==> !(OwnsRestarting(s.calls[i]) && OwnsRestarting(s.calls[j])))
  }

  lemma BeginsWithoutFlags(kind: Kind)
    ensures var c := Call(kind, FirstPlace(kind)); WellPlaced(c) && !OwnsStopping(c) && !OwnsRestarting(c)
  {
  }

  lemma BeginKeepsInv(s: State, kind: Kind)
    requires Inv(s)
    ensures Inv(Apply(s, Begin(kind)))
  {
    var s' := s.(calls := s.calls + [Call(kind, FirstPlace(kind))]);
    assert Apply(s, Begin(kind)) == s';
    hide Apply, OwnsStopping, OwnsRestarting, WellPlaced, FirstPlace;
    var n := |s.calls|;
    BeginsWithoutFlags(kind);
    assert forall j :: 0 <= j < n ==> s'.calls[j] == s.calls[j];
    if s.stopping {
      var j :| 0 <= j < n && OwnsStopping(s.calls[j]);
      assert OwnsStopping(s'.calls[j]);
    }
    if s.restarting {
      var j :| 0 <= j < n && OwnsRestarting(s.calls[j]);
      assert OwnsRestarting(s'.calls[j]);
    }
  }

  /** What one move does to the flags, judged by the moving call alone. */
  predicate FlagFollows(flag: bool, flag': bool, owns: bool, owns': bool)
  {
    if owns == owns' then flag' == flag else flag == owns && flag' == owns'
  }

  lemma OneMove(s: State, i: nat, sent: bool)
    requires i < |s.calls| && WellPlaced(s.calls[i])
    requires OwnsStopping(s.calls[i]) ==> s.stopping
    requires OwnsRestarting(s.calls[i]) ==> s.restarting
    ensures
      var s', c := Apply(s, Advance(i, sent)), s.calls[i];
      && s'.reloading == s.reloading
      && |s'.calls| == |s.calls|
      && (forall j :: 0 <= j < |s.calls| && j != i ==> s'.calls[j] == s.calls[j])
      && WellPlaced(s'.calls[i])
      && FlagFollows(s.stopping, s'.stopping, OwnsStopping(c), OwnsStopping(s'.calls[i]))
      && FlagFollows(s.restarting, s'.restarting, OwnsRestarting(c), OwnsRestarting(s'.calls[i]))
  {
  }

  lemma StepKeepsInv(s: State, step: Step)
    requires Inv(s)
    ensures Inv(Apply(s, step))
  {
    match step {
      case Begin(kind) => BeginKeepsInv(s, kind);
      case Advance(i, sent) =>
        if i < |s.calls| {
          hide Apply, OwnsStopping, OwnsRestarting, WellPlaced;
          OneMove(s, i, sent);
          OwnersAfter(s, Apply(s, step), i);
        } else {
          assert Apply(s, step) == s;
        }
    }
  }

  /** When one call moves, a flag that follows its ownership keeps its meaning. */
  lemma OwnersAfter(s: State, s': State, i: nat)
    requires Inv(s) && i < |s.calls| && |s'.calls| == |s.calls|
    requires forall j :: 0 <= j < |s.calls| && j != i ==> s'.calls[j] == s.calls[j]
    requires FlagFollows(s.stopping, s'.stopping, OwnsStopping(s.calls[i]), OwnsStopping(s'.calls[i]))
    requires FlagFollows(s.restarting, s'.restarting, OwnsRestarting(s.calls[i]), OwnsRestarting(s'.calls[i]))
    ensures s'.stopping <==> exists j :: 0 <= j < |s'.calls| && OwnsStopping(s'.calls[j])
    ensures s'.restarting <==> exists j :: 0 <= j < |s'.calls| && OwnsRestarting(s'.calls[j])
    ensures forall j, l :: 0 <= j < l < |s'.calls| ==> !(OwnsStopping(s'.calls[j]) && OwnsStopping(s'.calls[l]))
    ensures forall j, l :: 0 <= j < l < |s'.calls| ==> !(OwnsRestarting(s'.calls[j]) && OwnsRestarting(s'.calls[l]))
  {
    if s.stopping {
      var j :| 0 <= j < |s.calls| && OwnsStopping(s.calls[j]);
      assert j != i ==> OwnsStopping(s'.calls[j]);
    }
    if s.restarting {
      var j :| 0 <= j < |s.calls| && OwnsRestarting(s.calls[j]);
      assert j != i ==> OwnsRestarting(s'.calls[j]);
    }
  }

  lemma {:induction false} RunKeepsInv(steps: seq<Step>)
    ensures Inv(Run(steps))
  {
    if steps != [] {
      RunKeepsInv(steps[..|steps| - 1]);
      StepKeepsInv(Run(steps[..|steps| - 1]), steps[|steps| - 1]);
    }
  }

  // ----- Main results, for every interleaving -----

  /** At most one call owns `stopping`, which is set exactly while one does; so at most
      one call ever succeeds, and `reload` never leaves a trace. */
  lemma StoppingHasOneOwner(steps: seq<Step>)
    ensures
      var s := Run(steps);
      && (s.stopping <==> exists i :: 0 <= i < |s.calls| && OwnsStopping(s.calls[i]))
      && (forall i, j :: 0 <= i < j < |s.calls| ==> !(OwnsStopping(s.calls[i]) && OwnsStopping(s.calls[j])))
      && (forall i, j :: 0 <= i < j < |s.calls| ==>
        !(s.calls[i].place == Returned(true) && s.calls[j].place == Returned(true)))
      && !s.reloading
  {
    RunKeepsInv(steps);
  }

  predicate AllReturned(s: State)
  {
    forall i :: 0 <= i < |s.calls| ==> s.calls[i].place.Returned?
  }

  predicate Succeeded(c: Call, kind: Kind)
  {
    c.kind == kind && c.place == Returned(true)
  }

  /** Once all calls have returned: `restarting` is set if and only if some restart
      succeeded, and then `stopping` is set; `stopping` is set if and only if some call
      succeeded. Failed calls leave no trace. */
  lemma FlagsWhenAllReturned(steps: seq<Step>)
    requires AllReturned(Run(steps))
    ensures
      var s := Run(steps);
      && (s.restarting <==> exists i :: 0 <= i < |s.calls| && Succeeded(s.calls[i], Restart))
      && (s.stopping <==> exists i :: 0 <= i < |s.calls| && s.calls[i].place == Returned(true))
      && (s.restarting ==> s.stopping)
  {
    RunKeepsInv(steps);
    var s := Run(steps);
    assert forall i :: 0 <= i < |s.calls| ==>
      && (OwnsRestarting(s.calls[i]) <==> Succeeded(s.calls[i], Restart))
      && (OwnsStopping(s.calls[i]) <==> s.calls[i].place == Returned(true));
  }

  /** A success is never undone: whatever happens later, the call stays successful and
      the flags it set stay set. */
  lemma {:induction false} SuccessIsFinal(steps: seq<Step>, later: seq<Step>, i: nat)
    requires i < |Run(steps).calls| && Run(steps).calls[i].place == Returned(true)
    ensures
      var s := Run(steps + later);
      && i < |s.calls| && s.calls[i] == Run(steps).calls[i]
      && s.stopping && (s.calls[i].kind == Restart ==> s.restarting)
    decreases |later|
  {
    hide Run;
    RunKeepsInv(steps + later);
    if later == [] {
      assert steps + later == steps;
    } else {
      var front, last := later[..|later| - 1], later[|later| - 1];
      SuccessIsFinal(steps, front, i);
      assert steps + later == (steps + front) + [last];
      RunSnoc(steps + front, last);
      SuccessStays(Run(steps + front), last, i);
    }
    var c := Run(steps + later).calls[i];
    assert OwnsStopping(c);
    assert c.kind == Restart ==> OwnsRestarting(c);
  }

  lemma RunSnoc(steps: seq<Step>, step: Step)
    ensures Run(steps + [step]) == Apply(Run(steps), step)
  {
    assert (steps + [step])[..|steps|] == steps;
  }

  lemma SuccessStays(s: State, step: Step, i: nat)
    requires i < |s.calls| && s.calls[i].place == Returned(true)
    ensures i < |Apply(s, step).calls| && Apply(s, step).calls[i] == s.calls[i]
  {
  }

  // ----- The calls as written -----

  class Flags {
    var stopping: bool
    var reloading: bool
    var restarting: bool

    constructor ()
      ensures !stopping && !reloading && !restarting
    {
      stopping, reloading, restarting := false, false, false;
    }

    /** shutdown, when nothing runs in between. */
    method Shutdown(sent: bool) returns (ok: bool)
      modifies this`stopping
      ensures ok == (!old(stopping) && sent)
      ensures stopping == (old(stopping) || ok)
    {
      var was := stopping;
      stopping := true;
      if was { return false; }
      ok := sent;
      if !ok { stopping := false; }
    }

    /** restart, when nothing runs in between. */
    method Restart(sent: bool) returns (ok: bool)
      modifies this`stopping, this`restarting
      ensures ok == (!old(restarting) && !old(stopping) && sent)
      ensures stopping == (old(stopping) || ok)
      ensures restarting == (old(restarting) || ok)
    {
      var was := restarting;
      restarting := true;
      if was { return false; }
      ok := Shutdown(sent);
      if !ok { restarting := false; }
    }

    /** reload, in a static build. */
    method Reload() returns (ok: bool)
      ensures !ok
    {
      ok := false;
    }

    predicate Running()
      reads this
    {
      !stopping
    }
  }

  /** The steps of one call that runs alone. */
  function Alone(s: State, kind: Kind, sent: bool): State
  {
    var i := |s.calls|;
    var go := Advance(i, sent);
    Apply(Apply(Apply(Apply(Apply(Apply(s, Begin(kind)), go), go), go), go), go)
  }

  /** Run alone, the steps of a call do what the method does. */
  lemma AloneIsTheMethod(s: State, sent: bool)
    ensures
      var shut, again := Alone(s, Shutdown, sent), Alone(s, Restart, sent);
      var ok, okAgain := !s.stopping && sent, !s.restarting && !s.stopping && sent;
      && shut == s.(calls := s.calls + [Call(Shutdown, Returned(ok))], stopping := s.stopping || ok)
      && again == s.(calls := s.calls + [Call(Restart, Returned(okAgain))],
                     stopping := s.stopping || okAgain, restarting := s.restarting || okAgain)
  {
    var i, go := |s.calls|, Advance(|s.calls|, sent);
    forall kind: Kind, place: Place, place': Place
      ensures (s.calls + [Call(kind, place)])[i := Call(kind, place')] == s.calls + [Call(kind, place')]
    {
    }
  }
}
