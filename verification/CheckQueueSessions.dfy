/** Controllers over a queue with workers: one session after the other, interleaved with what the
    workers do. */
module CheckQueueSessions {
  import opened CheckQueueModel
  import opened CheckQueueThreads
  import opened CheckQueueSafety
  import opened CheckQueueProgress
  import opened CheckQueueCapacity

  /** What a client does: construct a controller, call its `Add` or `Wait`, let it go. */
  datatype Op = Construct | Submit(cs: seq<Check>) | Await | Destroy

  /** Where the controller that holds ControlMutex is. */
  datatype Phase = Closed | Open(fDone: bool) | Waiting | Destroying

  datatype Session = Session(s: State, phase: Phase)

  /** A client's operation (with the worker an `Add` wakes), or any step of a thread. */
  datatype Move = Client(op: Op, woken: nat) | Thread(e: Event)

  predicate Can(x: Session, m: Move) {
    match m
    case Client(Construct, _) => x.phase.Closed?
    case Client(Submit(cs), woken) => x.phase.Open? && Enabled(x.s, Event.Add(cs, woken))
    case Client(_, _) => x.phase.Open? && Enabled(x.s, Call)
    case Thread(e) => !e.Call? && !e.Add? && Enabled(x.s, e)
  }

  function Do(x: Session, m: Move): Session
    requires Can(x, m)
  {
    match m
    case Client(Construct, _) => x.(phase := Open(false))
    case Client(Submit(cs), woken) => x.(s := Apply(x.s, Event.Add(cs, woken)))
    case Client(Await, _) => Session(Apply(x.s, Call), Waiting)
    case Client(Destroy, _) =>
      if x.phase.fDone then x.(phase := Closed) else Session(Apply(x.s, Call), Destroying)
    case Thread(e) => Session(Apply(x.s, e), if MasterReturns(x.s, e) then AfterReturn(x.phase) else x.phase)
  }

  function AfterReturn(phase: Phase): Phase {
    match phase
    case Waiting => Open(true)
    case Destroying => Closed
    case _ => phase
  }

  // ---- What a client's program says

  /** Whether a controller exists after `ops`. */
  predicate Inside(ops: seq<Op>) {
    ops != [] && !ops[|ops| - 1].Destroy?
  }

  /** Whether that controller has waited. */
  predicate Done(ops: seq<Op>) {
    ops != [] && (ops[|ops| - 1].Await? || (ops[|ops| - 1].Submit? && Done(ops[..|ops| - 1])))
  }

  /** Controllers exist one at a time. */
  predicate WellFormed(ops: seq<Op>) {
    ops == [] || (WellFormed(ops[..|ops| - 1]) && (ops[|ops| - 1].Construct? <==> !Inside(ops[..|ops| - 1])))
  }

  /** Whether the operation after `ops` waits. */
  predicate Waits(ops: seq<Op>, op: Op) {
    op.Await? || (op.Destroy? && !Done(ops))
  }

  /** The checks submitted that no wait has collected, by whichever session. */
  function Uncollected(ops: seq<Op>): multiset<Check> {
    if ops == [] then multiset{}
    else
      var before, op := ops[..|ops| - 1], ops[|ops| - 1];
      if Waits(before, op) then multiset{}
      else Uncollected(before) + if op.Submit? then multiset(op.cs) else multiset{}
  }

  /** Those of them that the present session submitted. */
  function Own(ops: seq<Op>): multiset<Check> {
    if ops == [] then multiset{}
    else
      var before, op := ops[..|ops| - 1], ops[|ops| - 1];
      if op.Submit? then Own(before) + multiset(op.cs) else multiset{}
  }

  /** And those that earlier sessions left. */
  function Leftover(ops: seq<Op>): multiset<Check> {
    if ops == [] then multiset{}
    else
      var before, op := ops[..|ops| - 1], ops[|ops| - 1];
      if op.Submit? then Leftover(before)
      else if op.Construct? then Uncollected(before)
      else multiset{}
  }

  lemma {:induction false} UncollectedSplits(ops: seq<Op>)
    requires Inside(ops) && WellFormed(ops)
    ensures Uncollected(ops) == Leftover(ops) + Own(ops)
  {
    var before := ops[..|ops| - 1];
    if ops[|ops| - 1].Submit? {
      UncollectedSplits(before);
    }
  }

  /** No session submits checks after its last wait. */
  predicate Tidy(ops: seq<Op>) {
    ops == [] || (Tidy(ops[..|ops| - 1]) && (Inside(ops) || Uncollected(ops) == multiset{}))
  }

  lemma {:induction false} TidyLeavesNothing(ops: seq<Op>)
    requires Tidy(ops) && WellFormed(ops)
    ensures Leftover(ops) == multiset{}
  {
    if ops != [] {
      var before := ops[..|ops| - 1];
      if ops[|ops| - 1].Submit? {
        TidyLeavesNothing(before);
      } else if before != [] {
        assert Tidy(before);
      }
    }
  }

  // ---- Runs of a program

  ghost predicate Plays(xs: seq<Session>, ms: seq<Move>) {
    && |xs| == |ms| + 1
    && Init(xs[0].s) && xs[0].phase == Closed
    && forall k :: 0 <= k < |ms| ==> Can(xs[k], ms[k]) && xs[k + 1] == Do(xs[k], ms[k])
  }

  function Ops(ms: seq<Move>): seq<Op> {
    if ms == [] then []
    else Ops(ms[..|ms| - 1]) + if ms[|ms| - 1].Client? then [ms[|ms| - 1].op] else []
  }

  ghost predicate PlaysTo(
    xs: seq<Session>, ms: seq<Move>, workers: nat, nBatchSize: uint32, ops: seq<Op>, x: Session)
  {
    Plays(xs, ms) && Of(xs[0].s, workers, nBatchSize) && Ops(ms) == ops && xs[|ms|] == x
  }

  /** Some interleaving of the program `ops` with the threads of the queue leads to `x`. */
  ghost predicate Played(workers: nat, nBatchSize: uint32, ops: seq<Op>, x: Session) {
    exists xs: seq<Session>, ms: seq<Move> :: PlaysTo(xs, ms, workers, nBatchSize, ops, x)
  }

  function OpsAfter(ops: seq<Op>, m: Move): seq<Op> {
    if m.Client? then ops + [m.op] else ops
  }

  lemma PlaysOn(xs: seq<Session>, ms: seq<Move>, m: Move)
    requires Plays(xs, ms) && Can(xs[|ms|], m)
    ensures Plays(xs + [Do(xs[|ms|], m)], ms + [m])
  {
    hide Can, Do, Init;
  }

  lemma OpsOfMore(ms: seq<Move>, m: Move)
    ensures Ops(ms + [m]) == OpsAfter(Ops(ms), m)
  {
    assert (ms + [m])[..|ms|] == ms;
  }

  lemma PlayedStep(workers: nat, nBatchSize: uint32, ops: seq<Op>, x: Session, m: Move)
    requires Played(workers, nBatchSize, ops, x) && Can(x, m)
    ensures Played(workers, nBatchSize, OpsAfter(ops, m), Do(x, m))
  {
    hide Can, Do, Init, Ops, OpsAfter;
    var xs, ms :| PlaysTo(xs, ms, workers, nBatchSize, ops, x);
    PlaysOn(xs, ms, m);
    OpsOfMore(ms, m);
    var ys := xs + [Do(x, m)];
    assert ys[0] == xs[0] && ys[|ms + [m]|] == Do(x, m);
    hide Plays;
    assert PlaysTo(ys, ms + [m], workers, nBatchSize, OpsAfter(ops, m), Do(x, m));
  }

  /** Program and queue agree: on the phase, and on the checks that wait for a verdict. */
  ghost predicate Agrees(ops: seq<Op>, x: Session) {
    && WellFormed(ops) && |x.s.ts| > 0
    && (x.s.ts[0].Outside? <==> x.phase.Closed? || x.phase.Open?)
    && match x.phase
       case Closed => !Inside(ops) && x.s.now.added == Uncollected(ops)
       case Open(fDone) => Inside(ops) && fDone == Done(ops) && x.s.now.added == Uncollected(ops)
       case Waiting => InWait(ops, Await, x.s.now.added)
       case Destroying => InWait(ops, Destroy, x.s.now.added)
  }

  ghost predicate InWait(ops: seq<Op>, op: Op, added: multiset<Check>) {
    && ops != [] && ops[|ops| - 1] == op && Inside(ops[..|ops| - 1])
    && Waits(ops[..|ops| - 1], op) && added == Uncollected(ops[..|ops| - 1])
  }

  lemma ClientAgrees(ops: seq<Op>, x: Session, m: Move)
    requires Agrees(ops, x) && Can(x, m) && m.Client?
    ensures Agrees(ops + [m.op], Do(x, m))
  {
    hide Wrap;
    assert (ops + [m.op])[..|ops|] == ops;
  }

  lemma ThreadAgrees(ops: seq<Op>, x: Session, e: Event)
    requires Agrees(ops, x) && Can(x, Thread(e))
    ensures Agrees(ops, Do(x, Thread(e)))
  {
    hide WellFormed, Apply;
    AddedStep(x.s, e);
    ThreadStaysInside(x.s, e);
    if !x.phase.Closed? && !x.phase.Open? {
      assert Uncollected(ops) == multiset{};
    }
  }

  lemma ThreadStaysInside(s: State, e: Event)
    requires Enabled(s, e) && !e.Call? && !e.Add?
    ensures |Apply(s, e).ts| > 0
    ensures Apply(s, e).ts[0].Outside? <==> s.ts[0].Outside? || MasterReturns(s, e)
  {
    hide Wrap, Total, BatchSize, Reverse, Arrive, ApplyCritical;
    if e.Critical? {
      CriticalStaysInside(s, e.i);
    }
  }

  lemma CriticalStaysInside(s: State, i: nat)
    requires Enabled(s, Critical(i))
    ensures |ApplyCritical(s, i).ts| == |s.ts|
    ensures ApplyCritical(s, i).ts[0].Outside? <==> s.ts[0].Outside? || MasterReturns(s, Critical(i))
  {
    hide Wrap, Total, BatchSize, Reverse, Arrive;
    CriticalTotals(s, i);
  }

  lemma {:induction false} PlaysAgree(xs: seq<Session>, ms: seq<Move>, workers: nat, nBatchSize: uint32, k: nat)
    requires Plays(xs, ms) && Of(xs[0].s, workers, nBatchSize) && k < |xs|
    ensures Agrees(Ops(ms[..k]), xs[k]) && Reachable(workers, nBatchSize, xs[k].s)
  {
    hide Agrees, Reachable, Enabled, Apply, Can, Do;
    if k == 0 {
      StartAgrees(xs[0], workers, nBatchSize);
    } else {
      PlaysAgree(xs, ms, workers, nBatchSize, k - 1);
      var x, m := xs[k - 1], ms[k - 1];
      assert ms[..k][..k - 1] == ms[..k - 1];
      if m.Client? {
        ClientAgrees(Ops(ms[..k - 1]), x, m);
      } else {
        assert m == Thread(m.e) && Ops(ms[..k]) == Ops(ms[..k - 1]);
        ThreadAgrees(Ops(ms[..k - 1]), x, m.e);
      }
      MoveReaches(workers, nBatchSize, x, m);
    }
  }

  lemma StartAgrees(x: Session, workers: nat, nBatchSize: uint32)
    requires Init(x.s) && x.phase == Closed && Of(x.s, workers, nBatchSize)
    ensures Agrees([], x) && Reachable(workers, nBatchSize, x.s)
  {
    assert Leads([x.s], [], workers, nBatchSize, x.s);
  }

  /** A session's moves are events of the queue, or nothing. */
  lemma MoveReaches(workers: nat, nBatchSize: uint32, x: Session, m: Move)
    requires Reachable(workers, nBatchSize, x.s) && Can(x, m)
    ensures Reachable(workers, nBatchSize, Do(x, m).s)
  {
    hide Reachable, Enabled, Apply;
    match m {
      case Client(Construct, _) =>
      case Client(Submit(cs), woken) => ReachableStep(workers, nBatchSize, x.s, Event.Add(cs, woken));
      case Client(_, _) => ReachableStep(workers, nBatchSize, x.s, Call);
      case Thread(e) => ReachableStep(workers, nBatchSize, x.s, e);
    }
  }

  lemma PlayedAgrees(workers: nat, nBatchSize: uint32, ops: seq<Op>, x: Session)
    requires Played(workers, nBatchSize, ops, x)
    ensures Agrees(ops, x) && Reachable(workers, nBatchSize, x.s)
  {
    hide Agrees, Reachable, Can, Do, Init;
    var xs, ms :| PlaysTo(xs, ms, workers, nBatchSize, ops, x);
    assert ms[..|ms|] == ms;
    PlaysAgree(xs, ms, workers, nBatchSize, |ms|);
  }

  /** What is known of every reachable state of a queue with room. */
  lemma ReachableKeeps(workers: nat, nBatchSize: uint32, s: State)
    requires Reachable(workers, nBatchSize, s) && Capacity(workers, nBatchSize) < UINT_RANGE
    ensures CountInv(s) && VerdictInv(s) && NoLeak(s) && Of(s, workers, nBatchSize)
    ensures MasterReturns(s, Critical(0)) ==> ReturnFits(s, Critical(0))
  {
    hide Run, CountInv, VerdictInv, NoLeak, Capacity, Apply, Enabled, MasterReturns;
    ReachableCounts(workers, nBatchSize, s);
    var ss, es :| Leads(ss, es, workers, nBatchSize, s);
    RunLength(ss, es);
    RoomFits(ss, es, |es|);
    RunKeeps(ss, es, |es|);
    NothingLeaks(ss, es, |es|);
    if MasterReturns(s, Critical(0)) {
      assert Enabled(s, Critical(0)) by { ReturnEnabled(s); }
      Extend(ss, es, Critical(0));
      RoomFits(ss + [Apply(s, Critical(0))], es + [Critical(0)], |es| + 1);
      assert (es + [Critical(0)])[|es|] == Critical(0);
    }
  }

  lemma ReturnEnabled(s: State)
    requires MasterReturns(s, Critical(0))
    ensures Enabled(s, Critical(0))
  {
  }

  // ---- Verdicts and destructors

  /** The verdict of a session's `Wait`, or of its destructor's, is the conjunction over the checks
      that the session submitted since its last one and those that earlier sessions left. */
  lemma SessionVerdict(workers: nat, nBatchSize: uint32, ops: seq<Op>, x: Session)
    requires Capacity(workers, nBatchSize) < UINT_RANGE
    requires Played(workers, nBatchSize, ops, x) && MasterReturns(x.s, Critical(0))
    ensures ops != [] && Waits(ops[..|ops| - 1], ops[|ops| - 1])
    ensures var before := ops[..|ops| - 1];
            && Decide(Arrive(x.s.sh, x.s.ts[0]), true).1
                 == Return(!Failed(Own(before)) && !Failed(Leftover(before)))
            && (Tidy(ops[..|ops| - 1]) ==> Leftover(before) == multiset{})
    ensures Can(x, Thread(Critical(0))) && CleanState(Do(x, Thread(Critical(0))).s)
  {
    hide Capacity, Played, Reachable, Wrap, Total, BatchSize, Reverse, CleanState, Tidy;
    PlayedAgrees(workers, nBatchSize, ops, x);
    ReachableKeeps(workers, nBatchSize, x.s);
    var before := ops[..|ops| - 1];
    VerdictValue(x.s);
    UncollectedSplits(before);
    FailedOfSum(Leftover(before), Own(before));
    if Tidy(before) {
      TidyLeavesNothing(before);
    }
  }

  lemma FailedOfSum(a: multiset<Check>, b: multiset<Check>)
    ensures Failed(a + b) <==> Failed(a) || Failed(b)
  {
    if c :| c in a && !c.passes { assert c in a + b; }
    if c :| c in b && !c.passes { assert c in a + b; }
  }

  lemma VerdictValue(s: State)
    requires CountInv(s) && VerdictInv(s) && MasterReturns(s, Critical(0)) && ReturnFits(s, Critical(0))
    ensures !s.ts[0].Outside? && CleanState(Apply(s, Critical(0)))
    ensures Decide(Arrive(s.sh, s.ts[0]), true).1 == Return(!Failed(s.now.added))
  {
    hide Wrap, Total, BatchSize, Reverse, CleanState, CountInv, Conserved, Remembered;
    VerdictStep(s, Critical(0));
    ReturnIsCleanIff(s);
    assert GoodRound(Apply(s, Critical(0)).rounds[|s.rounds|]);
  }

  /** What a destructor hands on is fresh if and only if everything submitted has been reported by
      then and none of what no wait has collected fails. */
  lemma HandsOnFreshIff(workers: nat, nBatchSize: uint32, ops: seq<Op>, x: Session)
    requires Capacity(workers, nBatchSize) < UINT_RANGE
    requires Played(workers, nBatchSize, ops, x) && x.phase.Closed?
    ensures CleanState(x.s) <==>
              x.s.sh.queue == [] && Total(x.s.ts).unreported == 0 && !Failed(Uncollected(ops))
    ensures Uncollected(ops) == multiset{} ==> CleanState(x.s)
  {
    hide Capacity, Played, Reachable, CleanState, CountInv, VerdictInv;
    PlayedAgrees(workers, nBatchSize, ops, x);
    ReachableKeeps(workers, nBatchSize, x.s);
    CleanIff(x.s);
  }

  lemma CleanIff(s: State)
    requires CountInv(s) && VerdictInv(s)
    ensures CleanState(s) <==> s.sh.queue == [] && Total(s.ts).unreported == 0 && !Failed(s.now.added)
  {
    hide Wrap, Total, InHand;
    WrapSmall(0);
    if s.sh.queue == [] && Total(s.ts).unreported == 0 {
      NobodyRuns(s.ts, MaxBatch(s.sh.nBatchSize));
      FreshInHand(s.ts);
      assert s.now.added == s.now.evaluated + s.now.skipped;
      FailedOfSum(s.now.evaluated, s.now.skipped);
    }
  }

  // ---- Schedules

  /** Once inside, the master can be brought to its return by steps of the threads. */
  lemma {:induction false} Finishes(workers: nat, nBatchSize: uint32, ops: seq<Op>, x: Session) returns (y: Session)
    requires Played(workers, nBatchSize, ops, x) && Capacity(workers, nBatchSize) < UINT_RANGE
    requires x.phase.Waiting? || x.phase.Destroying?
    ensures Played(workers, nBatchSize, ops, y) && y.phase == AfterReturn(x.phase) && CleanState(y.s)
    decreases Measure(x.s)
  {
    hide Played, Reachable, Measure, Apply, Enabled, CountInv, CleanState, Capacity, MasterReturns;
    PlayedAgrees(workers, nBatchSize, ops, x);
    ReachableKeeps(workers, nBatchSize, x.s);
    var e := NextStep(workers, nBatchSize, x.s);
    PlayedStep(workers, nBatchSize, ops, x, Thread(e));
    y := Do(x, Thread(e));
    if MasterReturns(x.s, e) {
      ReturnIsFirst(x.s, e);
      VerdictValue(x.s);
    } else {
      y := Finishes(workers, nBatchSize, ops, y);
    }
  }

  lemma ReturnIsFirst(s: State, e: Event)
    requires MasterReturns(s, e)
    ensures e == Critical(0)
  {
  }

  lemma NextStep(workers: nat, nBatchSize: uint32, s: State) returns (e: Event)
    requires Reachable(workers, nBatchSize, s) && MasterInside(s)
    ensures (e.Critical? || e.Execute?) && Enabled(s, e)
    ensures Measure(Apply(s, e)) < Measure(s)
  {
    hide Run, CountInv, Enabled, Apply, Measure;
    ReachableCounts(workers, nBatchSize, s);
    var ss, es :| Leads(ss, es, workers, nBatchSize, s);
    RunLength(ss, es);
    e := WaitIsNeverStuck(ss, es, |es|);
    EventShrinks(s, e);
  }

  lemma SomeWoken(s: State, cs: seq<Check>) returns (woken: nat)
    requires |s.ts| > 0 && s.ts[0].Outside?
    ensures Enabled(s, Event.Add(cs, woken))
  {
    if i: nat :| i < |s.ts| && WorkerSleeps(s.ts, i) {
      woken := i;
    } else {
      woken := 0;
    }
  }

  /** A client outside a wait can go on with its program. */
  lemma ClientCan(ops: seq<Op>, x: Session, op: Op) returns (woken: nat)
    requires Agrees(ops, x) && (x.phase.Closed? || x.phase.Open?) && (op.Construct? <==> !Inside(ops))
    ensures Can(x, Client(op, woken))
  {
    hide Uncollected, WellFormed;
    woken := SomeWoken(x.s, if op.Submit? then op.cs else []);
  }

  /** Every program can run so that no worker takes a check before the master waits. */
  lemma {:induction false} Schedule(workers: nat, nBatchSize: uint32, ops: seq<Op>) returns (x: Session)
    requires WellFormed(ops) && Capacity(workers, nBatchSize) < UINT_RANGE
    ensures Played(workers, nBatchSize, ops, x) && (x.phase.Closed? || x.phase.Open?)
    ensures multiset(x.s.sh.queue) == Uncollected(ops)
    decreases |ops|
  {
    hide Played, Capacity;
    if ops == [] {
      x := Start(workers, nBatchSize);
    } else {
      var before := ops[..|ops| - 1];
      var w := Schedule(workers, nBatchSize, before);
      x := ScheduleNext(workers, nBatchSize, before, w, ops[|ops| - 1]);
      assert before + [ops[|ops| - 1]] == ops;
    }
  }

  lemma ScheduleNext(workers: nat, nBatchSize: uint32, ops: seq<Op>, w: Session, op: Op) returns (x: Session)
    requires Capacity(workers, nBatchSize) < UINT_RANGE && (op.Construct? <==> !Inside(ops))
    requires Played(workers, nBatchSize, ops, w) && (w.phase.Closed? || w.phase.Open?)
    ensures Played(workers, nBatchSize, ops + [op], x) && (x.phase.Closed? || x.phase.Open?)
    ensures if Waits(ops, op) then x.s.sh.queue == []
            else multiset(x.s.sh.queue) == multiset(w.s.sh.queue) + if op.Submit? then multiset(op.cs) else multiset{}
  {
    hide Played, Capacity, CleanState, Agrees, Can, Do, Waits, Inside;
    PlayedAgrees(workers, nBatchSize, ops, w);
    var woken := ClientCan(ops, w, op);
    PlayedStep(workers, nBatchSize, ops, w, Client(op, woken));
    ClientMoves(ops, w, op, woken);
    x := Do(w, Client(op, woken));
    if Waits(ops, op) {
      x := Finishes(workers, nBatchSize, ops + [op], x);
      CleanIsEmpty(x.s);
    }
  }

  lemma ClientMoves(ops: seq<Op>, x: Session, op: Op, woken: nat)
    requires Agrees(ops, x) && (x.phase.Closed? || x.phase.Open?) && Can(x, Client(op, woken))
    ensures var y := Do(x, Client(op, woken));
            if Waits(ops, op) then (y.phase.Waiting? || y.phase.Destroying?)
            else
              && (y.phase.Closed? || y.phase.Open?)
              && multiset(y.s.sh.queue) == multiset(x.s.sh.queue) + if op.Submit? then multiset(op.cs) else multiset{}
  {
    hide Wrap, Uncollected;
  }

  lemma CleanIsEmpty(s: State)
    requires CleanState(s)
    ensures s.sh.queue == []
  {
  }

  lemma Start(workers: nat, nBatchSize: uint32) returns (x: Session)
    ensures Played(workers, nBatchSize, [], x) && x.phase.Closed? && x.s.sh.queue == []
  {
    x := Session(InitialState(workers, nBatchSize), Closed);
    assert PlaysTo([x], [], workers, nBatchSize, [], x);
  }

  /** A program's last destructor hands on a fresh queue under every interleaving, if and only if
      the program leaves nothing uncollected: its destructors wait, unless a `Wait` came after the
      last check. */
  lemma AlwaysFreshIff(workers: nat, nBatchSize: uint32, ops: seq<Op>)
    requires Capacity(workers, nBatchSize) < UINT_RANGE
    requires WellFormed(ops) && !Inside(ops)
    ensures (forall x :: Played(workers, nBatchSize, ops, x) && x.phase.Closed? ==> CleanState(x.s))
            <==> Uncollected(ops) == multiset{}
  {
    hide Played, Capacity, Uncollected, WellFormed;
    if Uncollected(ops) == multiset{} {
      forall x | Played(workers, nBatchSize, ops, x) && x.phase.Closed? ensures CleanState(x.s) {
        HandsOnFreshIff(workers, nBatchSize, ops, x);
      }
    } else {
      var x := Schedule(workers, nBatchSize, ops);
      PlayedAgrees(workers, nBatchSize, ops, x);
      assert x.s.sh.queue != [];
    }
  }
}
