/** What every interleaving of the check queue keeps: the counters, the checks, the verdict. */
module CheckQueueSafety {
  import opened CheckQueueModel
  import opened CheckQueueThreads

  // ---- The counters

  /** nTodo counts what is queued or unreported (modulo its width), nIdle the threads inside
      cond.wait and nTotal the threads inside `Loop`. */
  ghost predicate CountInv(s: State) {
    Counters(s) && Places(s.ts, MaxBatch(s.sh.nBatchSize))
  }

  ghost predicate Counters(s: State) {
    && !s.sh.fQuit
    && s.sh.nIdle == Total(s.ts).idle
    && s.sh.nTotal == Total(s.ts).registered
    && s.sh.nTodo == Wrap(|s.sh.queue| + Total(s.ts).unreported)
  }

  /** Only the master is ever outside, and a running thread holds a batch of one to `m` checks. */
  ghost predicate Places(ts: seq<Pc>, m: nat) {
    && |ts| > 0
    && (forall i :: 0 <= i < |ts| && ts[i].Running? ==> |ts[i].rest| <= ts[i].nNow && 1 <= ts[i].nNow <= m)
    && (forall i :: 1 <= i < |ts| ==> !ts[i].Outside?)
  }

  lemma {:induction false} FreshTotal(ts: seq<Pc>)
    requires forall i :: 0 <= i < |ts| ==> ts[i].Outside? || ts[i].Entering?
    ensures Total(ts).(entering := 0) == ZERO
  {
    if ts != [] {
      FreshTotal(ts[..|ts| - 1]);
    }
  }

  lemma InitCounts(s: State)
    requires Init(s)
    ensures CountInv(s)
  {
    FreshTotal(s.ts);
  }

  /** The threads after thread `i` left a critical section, other than `i` itself. */
  function Others(s: State, i: nat): seq<Pc>
    requires i < |s.ts|
  {
    if WakesMaster(s.sh, i == 0, s.ts[i]) then WakeMaster(s.ts) else s.ts
  }

  /** The effect of a critical section on the sums. */
  lemma CriticalTotals(s: State, i: nat)
    requires Enabled(s, Critical(i))
    ensures var t := Apply(s, Critical(i));
            && |t.ts| == |s.ts|
            && t.ts == Others(s, i)[i := t.ts[i]]
            && Others(s, i)[i] == s.ts[i]
            && MoreWoken(Total(Others(s, i)), Total(s.ts))
            && Plus(Total(t.ts), Weigh(s.ts[i])) == Plus(Total(Others(s, i)), Weigh(t.ts[i]))
  {
    hide Total, Wrap, BatchSize, Reverse, Arrive, Weigh;
    var t := Apply(s, Critical(i));
    TotalOfWoken(Others(s, i), s.ts);
    TotalUpdate(Others(s, i), i, t.ts[i]);
  }

  /** A batch is taken off the queue and nothing else happens to the queue. */
  lemma TakeIsExact(sh: Shared)
    requires sh.queue != [] && sh.nTotal + sh.nIdle >= 0
    ensures var (after, outcome) := Decide(sh, true);
            && outcome.Batch? && Decide(sh, false) == (after, outcome)
            && 1 <= |outcome.vChecks| <= MaxBatch(sh.nBatchSize)
            && |after.queue| + |outcome.vChecks| == |sh.queue|
            && multiset(after.queue) + multiset(outcome.vChecks) == multiset(sh.queue)
  {
    BatchFits(|sh.queue|, sh.nBatchSize, sh.nTotal + sh.nIdle + 1);
    var n := BatchSize(sh);
    ReverseKeeps(sh.queue[|sh.queue| - n..]);
    assert sh.queue == sh.queue[..|sh.queue| - n] + sh.queue[|sh.queue| - n..];
  }

  /** The batch a thread takes, in terms of the threads there are: it leaves as much for every
      thread inside `Loop` and again for every sleeping one, and no larger batch would. */
  lemma BatchIsFairShare(s: State, i: nat)
    requires CountInv(s) && Enabled(s, Critical(i)) && s.sh.queue != []
    ensures var t := Apply(s, Critical(i));
            var others := Total(t.ts).registered + Total(t.ts).idle;
            && t.ts[i].Running? && t.ts[i].rest == Reverse(s.sh.queue[|t.sh.queue|..])
            && t.ts[i].nNow == |t.ts[i].rest| == |s.sh.queue| - |t.sh.queue|
            && 1 <= t.ts[i].nNow <= MaxBatch(s.sh.nBatchSize)
            && (|s.sh.queue| > others ==> |t.sh.queue| >= others * t.ts[i].nNow)
            && (|s.sh.queue| < UINT_RANGE && t.ts[i].nNow < MaxBatch(s.sh.nBatchSize) ==>
                  (t.ts[i].nNow + 1) * (others + 1) > |s.sh.queue|)
  {
    hide Wrap, Total, BatchOf, Reverse;
    var t := Apply(s, Critical(i));
    var sh := Arrive(s.sh, s.ts[i]);
    CriticalTotals(s, i);
    ArriveCounts(s, i);
    var divisor := sh.nTotal + sh.nIdle + 1;
    BatchFits(|sh.queue|, sh.nBatchSize, divisor);
    if |sh.queue| < UINT_RANGE && BatchOf(|sh.queue|, sh.nBatchSize, divisor) < MaxBatch(sh.nBatchSize) {
      BatchIsLargest(|sh.queue|, sh.nBatchSize, divisor);
    }
    assert sh.nTotal + sh.nIdle == Total(t.ts).registered + Total(t.ts).idle;
  }

  /** On arrival the counters of a thread's old place are settled. */
  lemma ArriveCounts(s: State, i: nat)
    requires CountInv(s) && Enabled(s, Critical(i))
    ensures var sh := Arrive(s.sh, s.ts[i]);
            var w := Weigh(s.ts[i]);
            && Within(w, Total(s.ts))
            && sh.nIdle == Total(s.ts).idle - w.idle
            && sh.nTotal == Total(s.ts).registered - w.registered + 1
            && sh.nTodo == Wrap(|sh.queue| + Total(s.ts).unreported - w.unreported)
  {
    hide Wrap, BatchSize, Reverse, Total;
    TotalCovers(s.ts, i);
    if s.ts[i].Running? {
      WrapSub(|s.sh.queue| + Total(s.ts).unreported, s.ts[i].nNow);
    }
  }

  lemma CriticalCounts(s: State, i: nat)
    requires CountInv(s) && Enabled(s, Critical(i))
    ensures Counters(Apply(s, Critical(i)))
  {
    hide Wrap, BatchSize, Reverse, Total;
    var sh := Arrive(s.sh, s.ts[i]);
    CriticalTotals(s, i);
    ArriveCounts(s, i);
    if sh.queue != [] {
      TakeIsExact(sh);
      CriticalTakeCounts(s, i);
    }
  }

  lemma CriticalTakeCounts(s: State, i: nat)
    requires CountInv(s) && Enabled(s, Critical(i)) && s.sh.queue != []
    ensures Counters(Apply(s, Critical(i)))
  {
    hide Wrap, BatchSize, Reverse, Total;
    var sh := Arrive(s.sh, s.ts[i]);
    var t := Apply(s, Critical(i));
    CriticalTotals(s, i);
    ArriveCounts(s, i);
    TakeIsExact(sh);
    assert |t.sh.queue| + Total(t.ts).unreported
        == |sh.queue| + Total(s.ts).unreported - Weigh(s.ts[i]).unreported;
  }

  lemma CriticalPlaces(s: State, i: nat)
    requires CountInv(s) && Enabled(s, Critical(i))
    ensures Places(Apply(s, Critical(i)).ts, MaxBatch(s.sh.nBatchSize))
  {
    hide Wrap, BatchSize, Reverse, Total;
    var sh := Arrive(s.sh, s.ts[i]);
    CriticalTotals(s, i);
    ArriveCounts(s, i);
    if sh.queue != [] {
      TakeIsExact(sh);
    }
  }

  lemma ExecuteTotals(s: State, i: nat)
    requires Enabled(s, Execute(i))
    ensures var t := Apply(s, Execute(i));
            && Total(t.ts).(ahead := 0, live := 0) == Total(s.ts).(ahead := 0, live := 0)
            && Total(t.ts).ahead == Total(s.ts).ahead - 1
            && Total(t.ts).live <= Total(s.ts).live - (if s.ts[i].fOk then 1 else 0)
  {
    hide Total;
    TotalUpdate(s.ts, i, Apply(s, Execute(i)).ts[i]);
  }

  lemma WakeWorkersTotals(ts: seq<Pc>, n: nat, woken: nat)
    ensures SameButWoken(WakeWorkers(ts, n, woken), ts)
    ensures MoreWoken(Total(WakeWorkers(ts, n, woken)), Total(ts))
  {
    TotalOfWoken(WakeWorkers(ts, n, woken), ts);
  }

  lemma AddCounts(s: State, cs: seq<Check>, woken: nat)
    requires CountInv(s) && Enabled(s, Add(cs, woken))
    ensures CountInv(Apply(s, Add(cs, woken)))
  {
    hide Wrap, Total;
    WakeWorkersTotals(s.ts, |cs|, woken);
    WrapAdd(|s.sh.queue| + Total(s.ts).unreported, |cs|);
  }

  lemma ExecuteCounts(s: State, i: nat)
    requires CountInv(s) && Enabled(s, Execute(i))
    ensures CountInv(Apply(s, Execute(i)))
  {
    hide Wrap, Total;
    ExecuteTotals(s, i);
  }

  lemma MoveCounts(s: State, i: nat, pc: Pc)
    requires CountInv(s) && i < |s.ts| && ((s.ts[i].Outside? && pc.Entering?) || (s.ts[i].Sleeping? && pc.Notified?))
    ensures CountInv(s.(ts := s.ts[i := pc]))
  {
    hide Wrap, Total;
    TotalUpdate(s.ts, i, pc);
  }

  lemma ShapeKept(s: State, e: Event)
    requires Enabled(s, e)
    ensures Apply(s, e).sh.nBatchSize == s.sh.nBatchSize && |Apply(s, e).ts| == |s.ts|
  {
    hide Wrap, BatchSize, Reverse;
  }

  /** The counting invariant survives every event, also when nTodo wraps around. */
  lemma CountStep(s: State, e: Event)
    requires CountInv(s) && Enabled(s, e)
    ensures CountInv(Apply(s, e))
    ensures Apply(s, e).sh.nBatchSize == s.sh.nBatchSize && |Apply(s, e).ts| == |s.ts|
  {
    hide Counters, Places, ApplyCritical, WakeWorkers;
    ShapeKept(s, e);
    match e {
      case Call => MoveCounts(s, 0, Entering);
      case Add(cs, woken) => AddCounts(s, cs, woken);
      case Critical(i) => CriticalCounts(s, i); CriticalPlaces(s, i);
      case Execute(i) => ExecuteCounts(s, i);
      case Spurious(i) => MoveCounts(s, i, Notified);
    }
  }

  // ---- The checks and the verdict

  /** Some check in `m` fails. */
  ghost predicate Failed(m: multiset<Check>) {
    exists c :: c in m && !c.passes
  }

  /** Every check added in the round was called or skipped, once; skipping needs a failure; and
      the verdict is the conjunction over exactly the checks added. */
  ghost predicate GoodRound(r: Round) {
    && r.evaluated + r.skipped == r.added
    && (r.skipped != multiset{} ==> Failed(r.evaluated))
    && r.verdict == !Failed(r.added)
  }

  /** A running thread that has seen, or been told of, a failure. */
  ghost predicate Tainted(ts: seq<Pc>, i: int) {
    0 <= i < |ts| && ts[i].Running? && !ts[i].fOk
  }

  /** Where the checks of the current round are. */
  ghost predicate Conserved(s: State) {
    s.now.added == multiset(s.sh.queue) + InHand(s.ts) + s.now.evaluated + s.now.skipped
  }

  /** A failure of this round is remembered in fAllOk or in a running thread's fOk, and nothing
      else makes either of them false. */
  ghost predicate Remembered(s: State) {
    && (Failed(s.now.evaluated) <==> !s.sh.fAllOk || exists i :: Tainted(s.ts, i))
    && (s.now.skipped != multiset{} ==> Failed(s.now.evaluated))
  }

  ghost predicate VerdictInv(s: State) {
    Conserved(s) && Remembered(s) && forall k :: 0 <= k < |s.rounds| ==> GoodRound(s.rounds[k])
  }

  lemma {:induction false} FreshInHand(ts: seq<Pc>)
    requires forall i :: 0 <= i < |ts| ==> !ts[i].Running?
    ensures InHand(ts) == multiset{}
  {
    if ts != [] {
      FreshInHand(ts[..|ts| - 1]);
    }
  }

  lemma InitVerdict(s: State)
    requires Init(s)
    ensures VerdictInv(s)
  {
    FreshInHand(s.ts);
  }

  /** When nothing is unreported no thread is running. */
  lemma NobodyRuns(ts: seq<Pc>, m: nat)
    requires Places(ts, m) && Total(ts).unreported == 0
    ensures forall i :: 0 <= i < |ts| ==> !ts[i].Running?
  {
    forall i | 0 <= i < |ts| ensures !ts[i].Running? {
      TotalCovers(ts, i);
    }
  }

  /** A return of the master leaves nothing behind - no check queued, none in any thread's hands,
      nTodo at zero and fAllOk reset - exactly when the checks that other threads have not
      reported fit the type that counts them. */
  lemma ReturnIsCleanIff(s: State)
    requires CountInv(s) && MasterReturns(s, Critical(0))
    ensures var t := Apply(s, Critical(0));
            && t.ts[0].Outside? && |t.rounds| == |s.rounds| + 1
            && (CleanState(t) <==> Total(t.ts).unreported < UINT_RANGE)
  {
    hide Wrap, BatchSize, Reverse, Total;
    var t := Apply(s, Critical(0));
    ArriveCounts(s, 0);
    CriticalTotals(s, 0);
    CountStep(s, Critical(0));
    if Total(t.ts).unreported < UINT_RANGE {
      WrapSmall(Total(t.ts).unreported);
      NobodyRuns(t.ts, MaxBatch(t.sh.nBatchSize));
    }
  }

  /** If `e` is a return of the master, what the other threads have not reported then fits nTodo. */
  ghost predicate ReturnFits(s: State, e: Event)
    requires Enabled(s, e)
  {
    MasterReturns(s, e) ==> Total(Apply(s, e).ts).unreported < UINT_RANGE
  }

  ghost predicate CleanState(s: State) {
    && s.sh.queue == [] && s.sh.nTodo == 0 && s.sh.fAllOk
    && Total(s.ts).unreported == 0
    && (forall i :: 0 <= i < |s.ts| ==> !s.ts[i].Running?)
  }

  /** The in-hand checks and the queue after a critical section. */
  lemma CriticalConserves(s: State, i: nat)
    requires CountInv(s) && Enabled(s, Critical(i))
    ensures var t := Apply(s, Critical(i));
            multiset(t.sh.queue) + InHand(t.ts) == multiset(s.sh.queue) + InHand(s.ts)
  {
    hide Wrap, BatchSize, Reverse, Total, InHand;
    var t := Apply(s, Critical(i));
    var sh := Arrive(s.sh, s.ts[i]);
    CriticalTotals(s, i);
    ArriveCounts(s, i);
    InHandOfWoken(Others(s, i), s.ts);
    InHandUpdate(Others(s, i), i, t.ts[i]);
    assert Ahead(s.ts[i]) == multiset{};
    if sh.queue != [] {
      TakeIsExact(sh);
      assert InHand(t.ts) == InHand(s.ts) + Ahead(t.ts[i]);
    } else {
      assert InHand(t.ts) == InHand(s.ts);
    }
  }

  /** A thread's report moves its memory of a failure to fAllOk; a batch taken afterwards starts
      out with that memory. */
  lemma CriticalRemembers(s: State, i: nat)
    requires Remembered(s) && Enabled(s, Critical(i)) && !MasterReturns(s, Critical(i)) && !s.sh.fQuit
    ensures Remembered(Apply(s, Critical(i)))
  {
    hide Wrap, BatchSize, Reverse, Total;
    var t := Apply(s, Critical(i));
    var sh := Arrive(s.sh, s.ts[i]);
    CriticalTotals(s, i);
    assert t.sh.fAllOk == sh.fAllOk == (s.sh.fAllOk && !Tainted(s.ts, i));
    if j :| Tainted(s.ts, j) && j != i {
      assert Others(s, i)[j] == s.ts[j];
      assert Tainted(t.ts, j);
    }
    if j :| Tainted(t.ts, j) && j != i {
      assert Others(s, i)[j] == t.ts[j];
      assert Tainted(s.ts, j);
    }
  }

  lemma ExecuteKeepsVerdict(s: State, i: nat)
    requires VerdictInv(s) && Enabled(s, Execute(i))
    ensures VerdictInv(Apply(s, Execute(i)))
  {
    ExecuteConserves(s, i);
    ExecuteRemembers(s, i);
  }

  lemma ExecuteConserves(s: State, i: nat)
    requires Conserved(s) && Enabled(s, Execute(i))
    ensures Conserved(Apply(s, Execute(i)))
  {
    hide InHand;
    var t := Apply(s, Execute(i));
    var rest := s.ts[i].rest;
    InHandUpdate(s.ts, i, t.ts[i]);
    assert multiset(rest) == multiset{rest[0]} + multiset(rest[1..]) by {
      assert rest == [rest[0]] + rest[1..];
    }
    assert Ahead(s.ts[i]) == multiset{rest[0]} + Ahead(t.ts[i]);
    CancelMultiset(InHand(t.ts), multiset{rest[0]}, Ahead(t.ts[i]), InHand(s.ts));
  }

  lemma CancelMultiset(a: multiset<Check>, b: multiset<Check>, c: multiset<Check>, d: multiset<Check>)
    requires a + (b + c) == d + c
    ensures a + b == d
  {
    assert (a + b) + c == a + (b + c);
    assert a + b == (a + b) + c - c;
    assert d == d + c - c;
  }

  lemma ExecuteRemembers(s: State, i: nat)
    requires Remembered(s) && Enabled(s, Execute(i))
    ensures Remembered(Apply(s, Execute(i)))
  {
    var t := Apply(s, Execute(i));
    var c := s.ts[i].rest[0];
    forall j | j != i ensures Tainted(t.ts, j) == Tainted(s.ts, j) {}
    if s.ts[i].fOk {
      assert t.now.evaluated == s.now.evaluated + multiset{c};
      assert Failed(t.now.evaluated) <==> Failed(s.now.evaluated) || !c.passes by {
        assert c in t.now.evaluated;
      }
      assert Tainted(t.ts, i) == !c.passes;
    } else {
      assert Tainted(s.ts, i) && Tainted(t.ts, i);
    }
  }

  /** Threads that are woken were not running. */
  lemma SameTaint(us: seq<Pc>, ts: seq<Pc>)
    requires |us| == |ts|
    requires forall i :: 0 <= i < |ts| ==> us[i] == ts[i] || (!ts[i].Running? && !us[i].Running?)
    ensures forall i :: Tainted(us, i) == Tainted(ts, i)
  {
  }

  lemma InHandKept(ts: seq<Pc>, i: nat, pc: Pc)
    requires i < |ts| && !ts[i].Running? && !pc.Running?
    ensures InHand(ts[i := pc]) == InHand(ts)
  {
    InHandUpdate(ts, i, pc);
    assert InHand(ts[i := pc]) + multiset{} == InHand(ts[i := pc]);
    assert InHand(ts) + multiset{} == InHand(ts);
  }

  lemma CallKeepsVerdict(s: State)
    requires VerdictInv(s) && Enabled(s, Call)
    ensures VerdictInv(Apply(s, Call))
  {
    hide InHand;
    InHandKept(s.ts, 0, Entering);
    SameTaint(Apply(s, Call).ts, s.ts);
  }

  lemma SpuriousKeepsVerdict(s: State, i: nat)
    requires VerdictInv(s) && Enabled(s, Spurious(i))
    ensures VerdictInv(Apply(s, Spurious(i)))
  {
    hide InHand;
    InHandKept(s.ts, i, Notified);
    SameTaint(Apply(s, Spurious(i)).ts, s.ts);
  }

  lemma AddKeepsVerdict(s: State, cs: seq<Check>, woken: nat)
    requires VerdictInv(s) && Enabled(s, Add(cs, woken))
    ensures VerdictInv(Apply(s, Add(cs, woken)))
  {
    hide InHand, Wrap;
    var t := Apply(s, Add(cs, woken));
    WakeWorkersTotals(s.ts, |cs|, woken);
    InHandOfWoken(t.ts, s.ts);
    SameTaint(t.ts, s.ts);
    assert multiset(s.sh.queue + cs) == multiset(s.sh.queue) + multiset(cs);
  }

  lemma ReturnMakesGoodRound(s: State)
    requires CountInv(s) && VerdictInv(s) && MasterReturns(s, Critical(0)) && ReturnFits(s, Critical(0))
    ensures VerdictInv(Apply(s, Critical(0)))
  {
    hide Wrap, BatchSize, Reverse, Total, InHand;
    var t := Apply(s, Critical(0));
    ReturnIsCleanIff(s);
    CriticalConserves(s, 0);
    FreshInHand(t.ts);
    CriticalTotals(s, 0);
    var r := t.rounds[|s.rounds|];
    assert r.evaluated + r.skipped == r.added;
    forall j | 0 < j < |s.ts| ensures !Tainted(s.ts, j) {
      assert t.ts[j] == s.ts[j];
    }
    assert r.verdict == (s.sh.fAllOk && !Tainted(s.ts, 0)) == !Failed(r.evaluated);
    assert forall c :: c in r.evaluated ==> c in r.added;
    if !Failed(r.evaluated) {
      assert r.skipped == multiset{};
      assert r.added == r.evaluated;
    }
  }

  lemma CriticalKeepsVerdict(s: State, i: nat)
    requires CountInv(s) && VerdictInv(s) && Enabled(s, Critical(i)) && ReturnFits(s, Critical(i))
    ensures VerdictInv(Apply(s, Critical(i)))
  {
    hide Wrap, BatchSize, Reverse, Total, InHand, Remembered;
    if MasterReturns(s, Critical(i)) {
      ReturnMakesGoodRound(s);
    } else {
      CriticalConserves(s, i);
      CriticalRemembers(s, i);
    }
  }

  lemma VerdictStep(s: State, e: Event)
    requires CountInv(s) && VerdictInv(s) && Enabled(s, e) && ReturnFits(s, e)
    ensures VerdictInv(Apply(s, e))
  {
    hide *;
    match e {
      case Call => CallKeepsVerdict(s);
      case Add(cs, woken) => AddKeepsVerdict(s, cs, woken);
      case Critical(i) => CriticalKeepsVerdict(s, i);
      case Execute(i) => ExecuteKeepsVerdict(s, i);
      case Spurious(i) => SpuriousKeepsVerdict(s, i);
    }
  }

  // ---- Whole runs

  lemma {:induction false} RunCounts(ss: seq<State>, es: seq<Event>, k: nat)
    requires Run(ss, es) && k < |ss|
    ensures CountInv(ss[k]) && |ss[k].ts| == |ss[0].ts| && ss[k].sh.nBatchSize == ss[0].sh.nBatchSize
  {
    hide CountInv, Apply, Enabled;
    if k == 0 {
      InitCounts(ss[0]);
    } else {
      RunCounts(ss, es, k - 1);
      CountStep(ss[k - 1], es[k - 1]);
    }
  }

  /** Every return among the first `k` events of a run fits. */
  ghost predicate ReturnsFit(ss: seq<State>, es: seq<Event>, k: nat)
    requires Run(ss, es)
  {
    forall j :: 0 <= j < k && j < |es| ==> ReturnFits(ss[j], es[j])
  }

  lemma {:induction false} RunKeeps(ss: seq<State>, es: seq<Event>, k: nat)
    requires Run(ss, es) && k < |ss| && ReturnsFit(ss, es, k)
    ensures CountInv(ss[k]) && VerdictInv(ss[k])
  {
    hide CountInv, VerdictInv, Apply, Enabled, ReturnFits;
    if k == 0 {
      InitCounts(ss[0]);
      InitVerdict(ss[0]);
    } else {
      RunKeeps(ss, es, k - 1);
      CountStep(ss[k - 1], es[k - 1]);
      VerdictStep(ss[k - 1], es[k - 1]);
    }
  }

  /** The history is the trace: the current round has what was added since the last return. */
  lemma {:induction false} RoundIsSinceReturn(ss: seq<State>, es: seq<Event>, k: nat)
    requires Run(ss, es) && k <= |es|
    ensures ss[k].now.added == AddedBetween(es, RoundStart(ss, es, k), k)
  {
    if k > 0 {
      RoundIsSinceReturn(ss, es, k - 1);
      AddedStep(ss[k - 1], es[k - 1]);
    }
  }

  lemma AddedStep(s: State, e: Event)
    requires Enabled(s, e)
    ensures Apply(s, e).now.added == if MasterReturns(s, e) then multiset{}
                                     else if e.Add? then s.now.added + multiset(e.cs)
                                     else s.now.added
  {
    hide Wrap, BatchSize, Reverse;
  }

  /** What a return should be: event k returns the conjunction over exactly the checks added since
      the return before it; each of them was called once or skipped, and skipped only if one that
      was called failed; and nothing is left behind. */
  ghost predicate RightReturn(ss: seq<State>, es: seq<Event>, k: nat)
    requires Run(ss, es) && k < |es|
  {
    var added := AddedBetween(es, RoundStart(ss, es, k), k);
    && Decide(Arrive(ss[k].sh, ss[k].ts[0]), true).1 == Return(!Failed(added))
    && ss[k + 1].rounds == ss[k].rounds + [ss[k].now.(verdict := !Failed(added))]
    && ss[k].now.evaluated + ss[k].now.skipped == added
    && (ss[k].now.skipped != multiset{} ==> Failed(ss[k].now.evaluated))
    && CleanState(ss[k + 1])
  }

  /** The main safety result.  Under every interleaving, with any number of workers and any
      wake-ups, a return is right as long as this one and those before it fit nTodo. */
  lemma ReturnIsRight(ss: seq<State>, es: seq<Event>, k: nat)
    requires Run(ss, es) && k < |es| && MasterReturns(ss[k], es[k]) && ReturnsFit(ss, es, k + 1)
    ensures RightReturn(ss, es, k)
  {
    hide Wrap, BatchSize, Reverse, CountInv, Remembered, Conserved, CleanState;
    RunKeeps(ss, es, k);
    RoundIsSinceReturn(ss, es, k);
    assert ReturnFits(ss[k], es[k]);
    VerdictStep(ss[k], es[k]);
    ReturnIsCleanIff(ss[k]);
    assert GoodRound(ss[k + 1].rounds[|ss[k].rounds|]);
  }

  // ---- Reachable states

  /** Some run of a queue with these workers and this batch size leads to `s`. */
  ghost predicate Reachable(workers: nat, nBatchSize: uint32, s: State) {
    exists ss: seq<State>, es: seq<Event> :: Leads(ss, es, workers, nBatchSize, s)
  }

  ghost predicate Leads(ss: seq<State>, es: seq<Event>, workers: nat, nBatchSize: uint32, s: State) {
    Run(ss, es) && Of(ss[0], workers, nBatchSize) && ss[|es|] == s
  }

  function InitialState(workers: nat, nBatchSize: uint32): (s: State)
    ensures Init(s) && Of(s, workers, nBatchSize)
  {
    var ts := seq(workers + 1, i requires 0 <= i <= workers => if i == 0 then Outside else Entering);
    State(Shared([], 0, 0, true, 0, false, nBatchSize), ts, EMPTY_ROUND, [])
  }

  predicate Of(s: State, workers: nat, nBatchSize: uint32) {
    |s.ts| == workers + 1 && s.sh.nBatchSize == nBatchSize
  }

  lemma ReachableCounts(workers: nat, nBatchSize: uint32, s: State)
    requires Reachable(workers, nBatchSize, s)
    ensures CountInv(s) && Of(s, workers, nBatchSize)
  {
    hide Run, CountInv;
    var ss, es :| Leads(ss, es, workers, nBatchSize, s);
    assert |ss| == |es| + 1 by { RunLength(ss, es); }
    RunCounts(ss, es, |es|);
  }

  lemma RunLength(ss: seq<State>, es: seq<Event>)
    requires Run(ss, es)
    ensures |ss| == |es| + 1
  {
  }

  lemma Extend(ss: seq<State>, es: seq<Event>, e: Event)
    requires Run(ss, es) && Enabled(ss[|es|], e)
    ensures Run(ss + [Apply(ss[|es|], e)], es + [e])
  {
    hide Enabled, Apply, Init;
  }

  lemma ReachableStep(workers: nat, nBatchSize: uint32, s: State, e: Event)
    requires Reachable(workers, nBatchSize, s) && Enabled(s, e)
    ensures Reachable(workers, nBatchSize, Apply(s, e))
  {
    hide Enabled, Apply, Init;
    var ss, es :| Leads(ss, es, workers, nBatchSize, s);
    Extend(ss, es, e);
    assert Leads(ss + [Apply(s, e)], es + [e], workers, nBatchSize, Apply(s, e));
  }
}
