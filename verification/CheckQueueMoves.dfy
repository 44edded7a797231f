/** What an event does to each thread, and which checks a thread calls in the course of a run. */
module CheckQueueMoves {
  import opened CheckQueueModel
  import opened CheckQueueThreads
  import opened CheckQueueSafety

  // ---- Who moves

  /** Whether `e` is a step of thread `i` itself. */
  predicate StepOf(e: Event, i: nat) {
    match e
    case Call => i == 0
    case Add(_, _) => false
    case Critical(j) => j == i
    case Execute(j) => j == i
    case Spurious(j) => j == i
  }

  /** A thread that does not step itself is left alone or, if it slept, woken. */
  lemma OthersAreWokenAtMost(s: State, e: Event, i: nat)
    requires Enabled(s, e) && i < |s.ts| && !StepOf(e, i)
    ensures |Apply(s, e).ts| == |s.ts|
    ensures Apply(s, e).ts[i] == s.ts[i] || (s.ts[i].Sleeping? && Apply(s, e).ts[i].Notified?)
  {
    hide Wrap, Total, BatchSize, Reverse;
    if e.Critical? {
      CriticalTotals(s, e.i);
    }
  }

  /** What a thread can do depends on its place alone: asleep it can only be woken, outside it can
      only call, and everywhere else it can go on in exactly one way. */
  lemma CanGoOn(s: State, i: nat)
    requires i < |s.ts|
    ensures Enabled(s, Spurious(i)) <==> s.ts[i].Sleeping?
    ensures Enabled(s, Execute(i)) <==> s.ts[i].Running? && s.ts[i].rest != []
    ensures s.ts[i].Outside? || Enabled(s, Spurious(i)) || Enabled(s, Execute(i)) || Enabled(s, Critical(i))
    ensures Enabled(s, Critical(i)) ==> !Enabled(s, Spurious(i)) && !Enabled(s, Execute(i))
    ensures Enabled(s, Call) <==> s.ts[0].Outside?
  {
  }

  /** A spurious wake-up wakes its thread and changes nothing else. */
  lemma SpuriousWakes(s: State, i: nat)
    requires Enabled(s, Spurious(i))
    ensures var t := Apply(s, Spurious(i));
            && t.ts[i] == Notified && t == s.(ts := t.ts)
            && forall j :: 0 <= j < |s.ts| && j != i ==> t.ts[j] == s.ts[j]
  {
  }

  /** The notifications of `Add`: none without checks, one worker for one check, all for more. */
  lemma AddNotifies(s: State, cs: seq<Check>, woken: nat)
    requires Enabled(s, Add(cs, woken))
    ensures var ts := Apply(s, Add(cs, woken)).ts;
            && |ts| == |s.ts| && ts[0] == s.ts[0]
            && (|cs| == 0 ==> ts == s.ts)
            && (|cs| == 1 ==> forall i :: 0 <= i < |ts| && i != woken ==> ts[i] == s.ts[i])
            && (|cs| == 1 && (exists i :: 0 <= i < |ts| && WorkerSleeps(s.ts, i)) ==>
                  WorkerSleeps(s.ts, woken) && ts[woken] == Notified)
            && (|cs| >= 2 ==> forall i :: 0 <= i < |ts| ==> !WorkerSleeps(ts, i))
  {
  }

  // ---- What a thread calls

  /** The check that `e` calls, if it calls one. */
  function CallOf(s: State, e: Event): seq<Check>
    requires Enabled(s, e)
  {
    if e.Execute? && s.ts[e.i].fOk then [s.ts[e.i].rest[0]] else []
  }

  /** The calls of thread `i` in events `from` to `to`, in order. */
  ghost function CallsBy(ss: seq<State>, es: seq<Event>, from: nat, to: nat, i: nat): seq<Check>
    requires Steps(ss, es) && from <= to <= |es|
  {
    if from == to then []
    else
      CallsBy(ss, es, from, to - 1, i)
      + if es[to - 1] == Execute(i) then CallOf(ss[to - 1], es[to - 1]) else []
  }

  /** How many checks of its batch thread `i` has passed by. */
  function TurnsOf(es: seq<Event>, from: nat, to: nat, i: nat): nat
    requires from <= to <= |es|
  {
    if from == to then 0
    else TurnsOf(es, from, to - 1, i) + if es[to - 1] == Execute(i) then 1 else 0
  }

  /** Outside the lock a thread works through its batch from front to back, whatever the others do:
      it calls the checks that one loop over the batch would call, and its fOk is the conjunction. */
  lemma {:induction false} BatchIsCalledInOrder(ss: seq<State>, es: seq<Event>, from: nat, to: nat, i: nat)
    requires Steps(ss, es) && from <= to <= |es|
    requires i < |ss[from].ts| && ss[from].ts[i].Running?
    requires forall k :: from <= k < to ==> es[k] != Critical(i)
    ensures var Running(n, live, batch) := ss[from].ts[i];
            var j := TurnsOf(es, from, to, i);
            && j <= |batch| && i < |ss[to].ts|
            && ss[to].ts[i] == Running(n, live && AllPass(batch[..j]), batch[j..])
            && CallsBy(ss, es, from, to, i) == Called(batch[..j], live)
  {
    hide Apply, Enabled, Called, AllPass;
    var Running(n, live, batch) := ss[from].ts[i];
    if from == to {
      assert batch[..0] == [] && batch[0..] == batch;
      CalledNothing(live);
    } else {
      BatchIsCalledInOrder(ss, es, from, to - 1, i);
      var s, e, j := ss[to - 1], es[to - 1], TurnsOf(es, from, to - 1, i);
      if e == Execute(i) {
        ExecuteMoves(s, i);
        CalledOneMore(batch, j, live);
      } else {
        RunningStays(s, e, i);
      }
    }
  }

  lemma CalledNothing(live: bool)
    ensures Called([], live) == [] && AllPass([])
  {
  }

  lemma CalledOneMore(batch: seq<Check>, j: nat, live: bool)
    requires j < |batch|
    ensures batch[j..][1..] == batch[j + 1..]
    ensures AllPass(batch[..j + 1]) == (AllPass(batch[..j]) && batch[j].passes)
    ensures Called(batch[..j + 1], live)
         == Called(batch[..j], live) + if live && AllPass(batch[..j]) then [batch[j]] else []
  {
    assert batch[..j + 1] == batch[..j] + [batch[j]];
    CalledAppend(batch[..j], [batch[j]], live);
    AllPassAppend(batch[..j], [batch[j]]);
  }

  lemma ExecuteMoves(s: State, i: nat)
    requires Enabled(s, Execute(i))
    ensures var Running(n, live, rest) := s.ts[i];
            && rest != [] && i < |Apply(s, Execute(i)).ts|
            && Apply(s, Execute(i)).ts[i] == Running(n, live && rest[0].passes, rest[1..])
            && CallOf(s, Execute(i)) == if live then [rest[0]] else []
  {
  }

  lemma RunningStays(s: State, e: Event, i: nat)
    requires Enabled(s, e) && i < |s.ts| && s.ts[i].Running? && e != Critical(i) && e != Execute(i)
    ensures i < |Apply(s, e).ts| && Apply(s, e).ts[i] == s.ts[i]
  {
    if !StepOf(e, i) {
      OthersAreWokenAtMost(s, e, i);
    }
  }

  /** The calls of all threads in events `from` to `to`. */
  ghost function CallsBetween(ss: seq<State>, es: seq<Event>, from: nat, to: nat): multiset<Check>
    requires Steps(ss, es) && from <= to <= |es|
  {
    if from == to then multiset{}
    else CallsBetween(ss, es, from, to - 1) + multiset(CallOf(ss[to - 1], es[to - 1]))
  }

  /** The history of a round is the trace: what counts as evaluated is what was called since the
      last return. */
  lemma {:induction false} EvaluatedIsCalled(ss: seq<State>, es: seq<Event>, k: nat)
    requires Run(ss, es) && k <= |es|
    ensures ss[k].now.evaluated == CallsBetween(ss, es, RoundStart(ss, es, k), k)
  {
    hide Apply, Enabled, CallOf, MasterReturns;
    if k > 0 {
      EvaluatedIsCalled(ss, es, k - 1);
      EvaluatedStep(ss[k - 1], es[k - 1]);
    }
  }

  lemma EvaluatedStep(s: State, e: Event)
    requires Enabled(s, e)
    ensures Apply(s, e).now.evaluated
         == if MasterReturns(s, e) then multiset{} else s.now.evaluated + multiset(CallOf(s, e))
  {
    hide Wrap, BatchSize, Reverse;
    assert s.now.evaluated + multiset([]) == s.now.evaluated;
  }
}
