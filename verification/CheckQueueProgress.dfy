/** Wake-ups, deadlock freedom, a bound on the length of `Wait`, and early stopping. */
module CheckQueueProgress {
  import opened CheckQueueModel
  import opened CheckQueueThreads
  import opened CheckQueueSafety

  // ---- No lost wake-ups

  predicate Awake(pc: Pc) {
    pc.Running? || pc.Notified?
  }

  predicate Registered(pc: Pc) {
    Awake(pc) || pc.Sleeping?
  }

  /** The master sleeps only while there is nothing to take but something to wait for. */
  ghost predicate MasterCovered(s: State) {
    |s.ts| > 0 && s.ts[0].Sleeping? ==> s.sh.queue == [] && s.sh.nTodo > 0
  }

  /** Queued checks never lie around while all the registered workers sleep. */
  ghost predicate WorkCovered(s: State) {
    s.sh.queue != [] && (exists i :: 1 <= i < |s.ts| && Registered(s.ts[i])) ==>
      exists i :: 1 <= i < |s.ts| && Awake(s.ts[i])
  }

  lemma MasterCoveredStep(s: State, e: Event)
    requires CountInv(s) && MasterCovered(s) && Enabled(s, e)
    ensures MasterCovered(Apply(s, e))
  {
    hide Wrap, Total, BatchSize, Reverse;
    if e.Critical? {
      CriticalTotals(s, e.i);
    }
  }

  lemma WorkCoveredStep(s: State, e: Event)
    requires CountInv(s) && WorkCovered(s) && Enabled(s, e)
    ensures WorkCovered(Apply(s, e))
  {
    hide Wrap, Total, BatchSize, Reverse;
    var t := Apply(s, e);
    match e {
      case Call =>
        assert forall i :: 1 <= i < |s.ts| ==> t.ts[i] == s.ts[i];
      case Add(cs, woken) => AddWakes(s, cs, woken);
      case Critical(i) => CriticalKeepsAwake(s, i);
      case Execute(i) =>
        assert forall j :: 0 <= j < |s.ts| ==>
            Awake(t.ts[j]) == Awake(s.ts[j]) && Registered(t.ts[j]) == Registered(s.ts[j]);
      case Spurious(i) =>
        assert forall j :: 0 <= j < |s.ts| && j != i ==> t.ts[j] == s.ts[j];
        assert Awake(t.ts[i]);
    }
  }

  lemma AddWakes(s: State, cs: seq<Check>, woken: nat)
    requires WorkCovered(s) && Enabled(s, Add(cs, woken))
    ensures WorkCovered(Apply(s, Add(cs, woken)))
  {
    hide Wrap;
    var t := Apply(s, Add(cs, woken));
    if k :| t.sh.queue != [] && 1 <= k < |t.ts| && Registered(t.ts[k]) {
      assert Registered(s.ts[k]);
      if cs == [] {
        assert t.ts == s.ts && t.sh.queue == s.sh.queue;
      } else if Awake(s.ts[k]) {
        assert Awake(t.ts[k]);
      } else {
        assert WorkerSleeps(s.ts, k);
        assert Awake(t.ts[if |cs| == 1 then woken else k]);
      }
    }
  }

  lemma CriticalKeepsAwake(s: State, i: nat)
    requires CountInv(s) && WorkCovered(s) && Enabled(s, Critical(i))
    ensures WorkCovered(Apply(s, Critical(i)))
  {
    hide Wrap, Total, BatchSize, Reverse;
    var t := Apply(s, Critical(i));
    CriticalTotals(s, i);
    if t.sh.queue != [] {
      assert t.ts[i].Running?;
      assert s.sh.queue != [];
      if k :| 1 <= k < |t.ts| && Registered(t.ts[k]) && i == 0 {
        assert t.ts[k] == s.ts[k];
        var a :| 1 <= a < |s.ts| && Awake(s.ts[a]);
        assert t.ts[a] == s.ts[a];
      }
    }
  }

  ghost predicate Inv(s: State) {
    CountInv(s) && MasterCovered(s) && WorkCovered(s)
  }

  lemma InvStep(s: State, e: Event)
    requires Inv(s) && Enabled(s, e)
    ensures Inv(Apply(s, e))
  {
    hide CountInv, MasterCovered, WorkCovered, Apply, Enabled;
    CountStep(s, e);
    MasterCoveredStep(s, e);
    WorkCoveredStep(s, e);
  }

  lemma {:induction false} RunInv(ss: seq<State>, es: seq<Event>, k: nat)
    requires Run(ss, es) && k < |ss|
    ensures Inv(ss[k])
  {
    hide Apply, Enabled;
    if k == 0 {
      InitCounts(ss[0]);
    } else {
      RunInv(ss, es, k - 1);
      InvStep(ss[k - 1], es[k - 1]);
    }
  }

  /** The master never misses its wake-up: while it sleeps un-notified the queue is empty, nTodo
      is positive, and some worker still has a batch to report. */
  lemma MasterHasAWaker(ss: seq<State>, es: seq<Event>, k: nat) returns (i: nat)
    requires Run(ss, es) && k < |ss| && |ss[k].ts| > 0 && ss[k].ts[0].Sleeping?
    ensures ss[k].sh.queue == [] && ss[k].sh.nTodo > 0
    ensures 1 <= i < |ss[k].ts| && ss[k].ts[i].Running?
  {
    RunInv(ss, es, k);
    i := BatchOwner(ss[k]);
  }

  lemma BatchOwner(s: State) returns (i: nat)
    requires CountInv(s) && s.sh.queue == [] && s.sh.nTodo > 0 && !s.ts[0].Running?
    ensures 1 <= i < |s.ts| && s.ts[i].Running?
  {
    hide Wrap, Total;
    WrapSmall(0);
    i := UnreportedHolder(s.ts);
  }

  /** A critical section of another thread notifies the sleeping master if and only if it brings
      nTodo to zero, and does so at once. */
  lemma LastReportNotifies(s: State, i: nat)
    requires CountInv(s) && MasterCovered(s) && Enabled(s, Critical(i)) && s.ts[0].Sleeping?
    ensures Apply(s, Critical(i)).ts[0].Notified? <==> Apply(s, Critical(i)).sh.nTodo == 0
  {
    hide Wrap, Total, BatchSize, Reverse;
    CriticalTotals(s, i);
  }

  /** Work is never stranded: with checks queued and a registered worker, some registered worker
      is executing or notified. */
  lemma QueuedWorkHasAWorker(ss: seq<State>, es: seq<Event>, k: nat)
    requires Run(ss, es) && k < |ss| && ss[k].sh.queue != []
    requires exists i :: 1 <= i < |ss[k].ts| && Registered(ss[k].ts[i])
    ensures exists i :: 1 <= i < |ss[k].ts| && Awake(ss[k].ts[i])
  {
    RunInv(ss, es, k);
  }

  // ---- Wait terminates

  predicate MasterInside(s: State) {
    |s.ts| > 0 && !s.ts[0].Outside?
  }

  /** While the master is inside `Wait`, some thread can move without a spurious wake-up. */
  lemma WaitIsNeverStuck(ss: seq<State>, es: seq<Event>, k: nat) returns (e: Event)
    requires Run(ss, es) && k < |ss| && MasterInside(ss[k])
    ensures (e.Critical? || e.Execute?) && Enabled(ss[k], e)
  {
    RunInv(ss, es, k);
    hide Run;
    var s := ss[k];
    var i: nat := 0;
    if s.ts[0].Sleeping? {
      i := BatchOwner(s);
    }
    e := if s.ts[i].Running? && s.ts[i].rest != [] then Execute(i) else Critical(i);
  }

  /** One for each thread that has yet to enter and each that has been woken, three for each queued
      check, one for each check not looked at, two for each check not reported. */
  function Measure(s: State): nat {
    var t := Total(s.ts);
    t.entering + t.woken + 3 * |s.sh.queue| + t.ahead + 2 * t.unreported
  }

  lemma CriticalShrinks(s: State, i: nat)
    requires CountInv(s) && Enabled(s, Critical(i))
    ensures Measure(Apply(s, Critical(i))) < Measure(s)
  {
    hide Wrap, Total, BatchSize, Reverse;
    CriticalTotals(s, i);
    ArriveCounts(s, i);
    WokenByOne(s, i);
    if s.sh.queue != [] {
      TakeShrinks(s, i);
    }
  }

  lemma TakeShrinks(s: State, i: nat)
    requires CountInv(s) && Enabled(s, Critical(i)) && s.sh.queue != []
    ensures Measure(Apply(s, Critical(i))) < Measure(s)
  {
    hide Wrap, Total, BatchSize, Reverse, WakesMaster;
    CriticalTotals(s, i);
    ArriveCounts(s, i);
    WokenByOne(s, i);
    TakeIsExact(Arrive(s.sh, s.ts[i]));
  }

  /** A critical section wakes at most the master, and only when it reports a batch. */
  lemma WokenByOne(s: State, i: nat)
    requires i < |s.ts|
    ensures Total(Others(s, i)).woken <= Total(s.ts).woken + (if s.ts[i].Running? then 1 else 0)
  {
    hide Wrap, Total;
    if Others(s, i) != s.ts {
      TotalUpdate(s.ts, 0, Notified);
    }
  }

  /** Inside `Wait` every event makes progress, but a spurious wake-up, which costs one. */
  lemma EventShrinks(s: State, e: Event)
    requires CountInv(s) && Enabled(s, e) && MasterInside(s)
    ensures Measure(Apply(s, e)) + 1 <= Measure(s) + (if e.Spurious? then 2 else 0)
  {
    hide Wrap, Total, BatchSize, Reverse;
    match e {
      case Critical(i) => CriticalShrinks(s, i);
      case Execute(i) => ExecuteTotals(s, i);
      case Spurious(i) => TotalUpdate(s.ts, i, Notified);
    }
  }

  function SpuriousCount(es: seq<Event>): nat {
    if es == [] then 0
    else SpuriousCount(es[..|es| - 1]) + if es[|es| - 1].Spurious? then 1 else 0
  }

  lemma {:induction false} StretchShrinks(ss: seq<State>, es: seq<Event>)
    requires Steps(ss, es) && CountInv(ss[0])
    requires forall k :: 0 <= k < |es| ==> MasterInside(ss[k])
    ensures CountInv(ss[|es|])
    ensures Measure(ss[|es|]) + |es| <= Measure(ss[0]) + 2 * SpuriousCount(es)
  {
    hide Wrap, Total, Measure, Apply, Enabled, CountInv;
    if es != [] {
      var n := |es| - 1;
      StretchShrinks(ss[..n + 1], es[..n]);
      CountStep(ss[n], es[n]);
      EventShrinks(ss[n], es[n]);
    }
  }

  lemma {:induction false} MeasureBound(ts: seq<Pc>)
    requires forall i :: 0 <= i < |ts| && ts[i].Running? ==> |ts[i].rest| <= ts[i].nNow
    ensures Total(ts).entering + Total(ts).woken <= |ts|
    ensures Total(ts).ahead <= Total(ts).unreported
  {
    if ts != [] {
      MeasureBound(ts[..|ts| - 1]);
    }
  }

  /** `Wait` terminates: in any stretch of any run that the master spends inside, there is at most
      one event per thread, three per check outstanding at its beginning, and two per spurious
      wake-up. */
  lemma WaitIsBounded(ss: seq<State>, es: seq<Event>, from: nat, to: nat)
    requires Run(ss, es) && from <= to <= |es|
    requires forall k :: from <= k < to ==> MasterInside(ss[k])
    ensures to - from <= |ss[from].ts| + 3 * (|ss[from].sh.queue| + Total(ss[from].ts).unreported)
                         + 2 * SpuriousCount(es[from..to])
  {
    RunInv(ss, es, from);
    RunStretch(ss, es, from, to);
    hide Run, Steps, Inv, MasterInside, Total, SpuriousCount;
    StretchBound(ss[from..to + 1], es[from..to]);
  }

  lemma RunStretch(ss: seq<State>, es: seq<Event>, from: nat, to: nat)
    requires Run(ss, es) && from <= to <= |es|
    ensures Steps(ss[from..to + 1], es[from..to])
  {
  }

  lemma StretchBound(ss: seq<State>, es: seq<Event>)
    requires Steps(ss, es) && Inv(ss[0])
    requires forall k :: 0 <= k < |es| ==> MasterInside(ss[k])
    ensures |es| <= |ss[0].ts| + 3 * (|ss[0].sh.queue| + Total(ss[0].ts).unreported) + 2 * SpuriousCount(es)
  {
    StretchShrinks(ss, es);
    hide Steps;
    MeasureBound(ss[0].ts);
  }

  // ---- Early stop

  /** The checks already called in this round, and those in flight that would still be called. */
  function CalledOrLive(s: State): nat {
    |s.now.evaluated| + Total(s.ts).live
  }

  /** Once fAllOk is false, no event of the round makes more checks be called than were live. */
  lemma EarlyStopStep(s: State, e: Event)
    requires CountInv(s) && Enabled(s, e) && !s.sh.fAllOk
    requires Apply(s, e).rounds == s.rounds
    ensures !Apply(s, e).sh.fAllOk
    ensures CalledOrLive(Apply(s, e)) <= CalledOrLive(s)
  {
    hide Wrap, Total, BatchSize, Reverse;
    match e {
      case Call => TotalUpdate(s.ts, 0, Entering);
      case Add(cs, woken) => WakeWorkersTotals(s.ts, |cs|, woken);
      case Critical(i) => CriticalStopsEarly(s, i);
      case Execute(i) => ExecuteTotals(s, i);
      case Spurious(i) => TotalUpdate(s.ts, i, Notified);
    }
  }

  lemma CriticalStopsEarly(s: State, i: nat)
    requires CountInv(s) && Enabled(s, Critical(i)) && !s.sh.fAllOk
    requires Apply(s, Critical(i)).rounds == s.rounds
    ensures !Apply(s, Critical(i)).sh.fAllOk
    ensures CalledOrLive(Apply(s, Critical(i))) <= CalledOrLive(s)
  {
    hide Wrap, Total, BatchSize, Reverse;
    CriticalTotals(s, i);
  }

  /** Rounds are only ever appended. */
  lemma {:induction false} RoundsGrow(ss: seq<State>, es: seq<Event>, k: nat)
    requires Steps(ss, es) && k <= |es|
    ensures |ss[k].rounds| <= |ss[|es|].rounds|
    decreases |es| - k
  {
    hide Wrap, BatchSize, Reverse;
    if k < |es| {
      RoundsGrow(ss, es, k + 1);
    }
  }

  lemma {:induction false} StretchStopsEarly(ss: seq<State>, es: seq<Event>)
    requires Steps(ss, es) && CountInv(ss[0]) && !ss[0].sh.fAllOk
    requires |ss[|es|].rounds| == |ss[0].rounds|
    ensures CountInv(ss[|es|]) && !ss[|es|].sh.fAllOk && ss[|es|].rounds == ss[0].rounds
    ensures CalledOrLive(ss[|es|]) <= CalledOrLive(ss[0])
  {
    if es != [] {
      var n := |es| - 1;
      RoundsGrow(ss, es, n);
      RoundsGrow(ss[..n + 1], es[..n], 0);
      StretchStopsEarly(ss[..n + 1], es[..n]);
      CountStep(ss[n], es[n]);
      RoundsKept(ss[n], es[n]);
      EarlyStopStep(ss[n], es[n]);
    }
  }

  /** Early stop, over any stretch of one round: after fAllOk is false, at most the checks that were
      live at that moment are still called. */
  lemma EarlyStop(ss: seq<State>, es: seq<Event>, from: nat, to: nat)
    requires Run(ss, es) && from <= to <= |es| && !ss[from].sh.fAllOk
    requires |ss[to].rounds| == |ss[from].rounds|
    ensures !ss[to].sh.fAllOk
    ensures |ss[to].now.evaluated| <= |ss[from].now.evaluated| + Total(ss[from].ts).live
  {
    RunInv(ss, es, from);
    RunStretch(ss, es, from, to);
    hide Run, Steps, CountInv, MasterCovered, WorkCovered, Total;
    StretchStopsEarly(ss[from..to + 1], es[from..to]);
  }

  lemma RoundsKept(s: State, e: Event)
    requires Enabled(s, e) && |Apply(s, e).rounds| <= |s.rounds|
    ensures Apply(s, e).rounds == s.rounds
  {
    hide Wrap, BatchSize, Reverse;
  }

  // ---- Rounds do not leak

  /** After a return the queue stays as good as new until checks are added, whatever the workers
      do: the next controller starts from an empty queue, a zero nTodo and a true fAllOk. */
  lemma CleanStaysClean(s: State, e: Event)
    requires CountInv(s) && CleanState(s) && s.ts[0].Outside? && Enabled(s, e)
    requires !e.Call? && (e.Add? ==> e.cs == [])
    ensures CleanState(Apply(s, e)) && Apply(s, e).ts[0].Outside?
  {
    hide Wrap, Total, BatchSize, Reverse;
    CountStep(s, e);
    match e {
      case Add(cs, woken) => WrapSmall(s.sh.nTodo);
      case Critical(i) => CriticalTotals(s, i);
      case Spurious(i) => TotalUpdate(s.ts, i, Notified);
    }
  }

  /** Whenever the master is outside and nothing was added since its last return, the queue is
      clean: a controller destroyed after its Wait hands on a fresh queue. */
  ghost predicate NoLeak(s: State) {
    |s.ts| > 0 && s.ts[0].Outside? && s.now.added == multiset{} ==> CleanState(s)
  }

  lemma NoLeakStep(s: State, e: Event)
    requires CountInv(s) && NoLeak(s) && Enabled(s, e) && ReturnFits(s, e)
    ensures NoLeak(Apply(s, e))
  {
    hide Wrap, Total, BatchSize, Reverse, CleanState;
    var t := Apply(s, e);
    if t.ts[0].Outside? && t.now.added == multiset{} {
      if s.ts[0].Outside? {
        assert e.Add? ==> |multiset(e.cs)| == 0;
        CleanStaysClean(s, e);
      } else {
        OnlyReturnLeaves(s, e);
        ReturnIsCleanIff(s);
      }
    }
  }

  lemma OnlyReturnLeaves(s: State, e: Event)
    requires Enabled(s, e) && MasterInside(s) && !MasterInside(Apply(s, e))
    ensures MasterReturns(s, e)
  {
    hide Wrap, Total, BatchSize, Reverse;
    if e.Critical? {
      CriticalTotals(s, e.i);
    }
  }

  lemma InitNoLeak(s: State)
    requires Init(s)
    ensures NoLeak(s)
  {
    hide Total;
    FreshTotal(s.ts);
  }

  lemma {:induction false} NothingLeaks(ss: seq<State>, es: seq<Event>, k: nat)
    requires Run(ss, es) && k < |ss| && ReturnsFit(ss, es, k)
    ensures NoLeak(ss[k])
  {
    hide Apply, Enabled, CountInv, NoLeak, ReturnFits;
    if k == 0 {
      InitNoLeak(ss[0]);
    } else {
      RunCounts(ss, es, k - 1);
      NothingLeaks(ss, es, k - 1);
      NoLeakStep(ss[k - 1], es[k - 1]);
    }
  }
}
