/** The runs that show how much room a queue needs: enough workers take their batches one after the
    other until they hold 2^32 checks, nTodo is back at zero, and `Wait` returns without them. */
module CheckQueueOverload {
  import opened CheckQueueModel
  import opened CheckQueueThreads
  import opened CheckQueueSafety
  import opened CheckQueueCapacity

  const PASSING := Check(0, true)
  const FAILING := Check(1, false)

  // ---- Loading the workers

  /** Workers 1 to `k` hold `total` checks between them, the first failing check among them, and
      the others have yet to enter. */
  ghost predicate Loading(s: State, k: nat, total: nat) {
    && Placed(s.ts, k)
    && s.sh.fAllOk && !s.sh.fQuit && s.sh.nTotal == k && s.sh.nIdle == 0
    && s.sh.nTodo == Wrap(|s.sh.queue| + total)
    && AllPass(s.sh.queue)
    && (k > 0 ==> FAILING in s.now.added)
    && (k == 0 ==> s.sh.queue == [])
  }

  ghost predicate Placed(ts: seq<Pc>, k: nat) {
    && k < |ts| && ts[0].Outside?
    && (forall i :: 1 <= i <= k ==> ts[i].Running?)
    && (forall i :: k < i < |ts| ==> ts[i].Entering?)
  }

  /** `n` checks, the last of which fails. */
  function Filler(n: nat): (r: seq<Check>)
    ensures |r| == n
    ensures n > 0 ==> FAILING in r
    ensures forall i :: 0 <= i < n - 1 ==> r[i].passes
  {
    if n == 0 then [] else seq(n - 1, _ => PASSING) + [FAILING]
  }

  /** The length of a queue from which the next of `k` workers takes `m` checks. */
  function Wanted(m: nat, k: nat): nat {
    if m <= 1 then 1 else m * (k + 1)
  }

  lemma WantedGives(m: nat, k: nat, len: nat, nBatchSize: uint32)
    requires k > 0 && 1 <= m <= Share(k, nBatchSize) && Wrap(len) == Wanted(m, k)
    ensures BatchOf(len, nBatchSize, k + 1) == m
  {
    if m == 1 {
      QuotientBounds(1, k + 1);
    } else {
      QuotientBounds(m * (k + 1), k + 1);
      QuotientExact(m, k + 1);
    }
  }

  lemma QuotientExact(m: nat, d: nat)
    requires d > 0
    ensures m * d / d == m
  {
    QuotientBounds(m * d, d);
    var q := m * d / d;
    if q < m {
      MulMono(q + 1, m, d);
    } else if m < q {
      MulMono(m + 1, q, d);
    }
  }

  lemma WantedFits(m: nat, k: nat, nBatchSize: uint32)
    requires k > 0 && 1 <= m <= Share(k, nBatchSize)
    ensures 1 <= Wanted(m, k) < UINT_RANGE
  {
    if m > 1 {
      QuotientBounds(UINT_RANGE - 1, k + 1);
      MulMono(m, (UINT_RANGE - 1) / (k + 1), k + 1);
    }
  }

  lemma WrapUpTo(len: nat, want: nat)
    requires want < UINT_RANGE
    ensures Wrap(len + Wrap(want - len)) == want
  {
    WrapAdd(want - len, len);
    WrapSmall(want);
  }

  /** The master adds checks until the next worker would take `m` of them. */
  lemma AddForNext(s: State, k: nat, total: nat, m: nat) returns (t: State, e: Event)
    requires Loading(s, k, total) && k + 1 < |s.ts| && 1 <= m <= Share(k + 1, s.sh.nBatchSize)
    ensures Enabled(s, e) && t == Apply(s, e)
    ensures t.ts == s.ts && t.sh == s.sh.(queue := t.sh.queue, nTodo := Wrap(|t.sh.queue| + total))
    ensures t.sh.queue != [] && AllPass(t.sh.queue[..|t.sh.queue| - 1]) && FAILING in t.now.added
    ensures BatchOf(|t.sh.queue|, s.sh.nBatchSize, k + 2) == m
  {
    hide Wrap, BatchOf, Share, Placed, Wanted, AllPass;
    var cs := FillerFor(s.sh.queue, k, m, s.sh.nBatchSize);
    NobodyWakes(s.ts, k, |cs|);
    e := Add(cs, 0);
    t := Apply(s, e);
    WrapAdd(|s.sh.queue| + total, |cs|);
    assert FAILING in cs ==> FAILING in multiset(cs);
  }

  lemma NobodyWakes(ts: seq<Pc>, k: nat, n: nat)
    requires Placed(ts, k)
    ensures !exists i :: 0 <= i < |ts| && WorkerSleeps(ts, i)
    ensures ts[0].Outside? && WakeWorkers(ts, n, 0) == ts
  {
  }

  /** What to add to a queue of passing checks, so that the next of `k` workers takes `m`. */
  lemma FillerFor(queue: seq<Check>, k: nat, m: nat, nBatchSize: uint32) returns (cs: seq<Check>)
    requires 1 <= m <= Share(k + 1, nBatchSize) && AllPass(queue)
    ensures queue + cs != [] && AllPass((queue + cs)[..|queue + cs| - 1])
    ensures queue == [] ==> FAILING in cs
    ensures BatchOf(|queue + cs|, nBatchSize, k + 2) == m
  {
    hide Wrap, BatchOf, Share;
    var want := Wanted(m, k + 1);
    WantedFits(m, k + 1, nBatchSize);
    cs := Filler(Wrap(want - |queue|));
    WrapUpTo(|queue|, want);
    WrapSmall(want);
    WrapSmall(0);
    WantedGives(m, k + 1, |queue + cs|, nBatchSize);
  }

  /** Worker k+1 enters and takes `m` checks. */
  lemma NextTakes(s: State, k: nat, total: nat, m: nat)
    requires Placed(s.ts, k) && k + 1 < |s.ts|
    requires s.sh.fAllOk && !s.sh.fQuit && s.sh.nTotal == k && s.sh.nIdle == 0
    requires s.sh.nTodo == Wrap(|s.sh.queue| + total) && FAILING in s.now.added
    requires s.sh.queue != [] && AllPass(s.sh.queue[..|s.sh.queue| - 1])
    requires BatchOf(|s.sh.queue|, s.sh.nBatchSize, k + 2) == m
    ensures Enabled(s, Critical(k + 1)) && Loading(Apply(s, Critical(k + 1)), k + 1, total + m)
  {
    hide BatchSize, Reverse, Wrap, AllPass, TakeBack;
    var t := Apply(s, Critical(k + 1));
    var sh := s.sh.(nTotal := k + 1);
    TakesFromBack(sh, m);
    assert (t.sh, Batch(t.ts[k + 1].rest, true)) == Decide(sh, false);
    assert t.ts == s.ts[k + 1 := t.ts[k + 1]];
  }

  lemma TakesFromBack(sh: Shared, m: nat)
    requires sh.nTotal >= 0 && sh.nIdle >= 0 && sh.fAllOk
    requires sh.queue != [] && AllPass(sh.queue[..|sh.queue| - 1])
    requires BatchOf(|sh.queue|, sh.nBatchSize, sh.nTotal + sh.nIdle + 1) == m
    ensures var (after, outcome) := Decide(sh, false);
            && after == sh.(queue := after.queue) && outcome == Batch(outcome.vChecks, true)
            && |after.queue| + m == |sh.queue| && AllPass(after.queue)
  {
    BatchFits(|sh.queue|, sh.nBatchSize, sh.nTotal + sh.nIdle + 1);
    hide BatchOf, Reverse;
    var q := sh.queue;
    assert forall i :: 0 <= i < |q| - m ==> q[..|q| - 1][i] == q[i];
  }

  /** As soon as the first `k` shares reach 2^32, so can the workers' batches. */
  lemma {:induction false} Load(workers: nat, nBatchSize: uint32, k: nat) returns (s: State)
    requires k <= workers && (k > 0 ==> Capacity(k - 1, nBatchSize) < UINT_RANGE)
    ensures Reachable(workers, nBatchSize, s)
    ensures Loading(s, k, Min(Capacity(k, nBatchSize), UINT_RANGE))
    decreases k
  {
    hide Share, Loading, Placed, Apply, Enabled;
    if k == 0 {
      s := Initial(workers, nBatchSize);
    } else {
      var done := Capacity(k - 1, nBatchSize);
      var m := Min(Share(k, nBatchSize), UINT_RANGE - done);
      var r := Load(workers, nBatchSize, k - 1);
      ReachableCounts(workers, nBatchSize, r);
      s := LoadNext(workers, nBatchSize, r, k - 1, done, m);
    }
  }

  lemma LoadNext(workers: nat, nBatchSize: uint32, r: State, k: nat, total: nat, m: nat) returns (s: State)
    requires Reachable(workers, nBatchSize, r) && Of(r, workers, nBatchSize) && k < workers
    requires Loading(r, k, total) && 1 <= m <= Share(k + 1, nBatchSize)
    ensures Reachable(workers, nBatchSize, s) && Loading(s, k + 1, total + m)
  {
    hide Reachable, Share, Apply, Enabled, BatchOf, Wrap;
    var q, e := AddForNext(r, k, total, m);
    ReachableStep(workers, nBatchSize, r, e);
    NextTakes(q, k, total, m);
    ReachableStep(workers, nBatchSize, q, Critical(k + 1));
    s := Apply(q, Critical(k + 1));
  }

  lemma Initial(workers: nat, nBatchSize: uint32) returns (s: State)
    ensures Reachable(workers, nBatchSize, s) && Loading(s, 0, 0)
  {
    s := InitialState(workers, nBatchSize);
    assert Leads([s], [], workers, nBatchSize, s);
  }

  // ---- The master drains the rest

  /** The master is inside, has not seen a failure, and will see nTodo at the queue's length. */
  ghost predicate Draining(s: State) {
    && |s.ts| > 0 && (s.ts[0].Entering? || (s.ts[0].Running? && s.ts[0].fOk && s.ts[0].rest == []))
    && Arrive(s.sh, s.ts[0]).nTodo == Wrap(|s.sh.queue|)
    && s.sh.fAllOk && AllPass(s.sh.queue) && FAILING in s.now.added
  }

  lemma CallDrains(s: State, k: nat)
    requires Loading(s, k, UINT_RANGE) && k > 0
    ensures Enabled(s, Call) && Draining(Apply(s, Call))
  {
    assert Wrap(|s.sh.queue| + UINT_RANGE) == Wrap(|s.sh.queue|);
    hide Wrap;
  }

  /** The master takes a batch of passing checks. */
  lemma DrainTakes(s: State)
    requires CountInv(s) && Draining(s) && s.sh.queue != []
    ensures Enabled(s, Critical(0))
    ensures var t := Apply(s, Critical(0));
            && |t.sh.queue| < |s.sh.queue| && AllPass(t.sh.queue) && t.sh.fAllOk && FAILING in t.now.added
            && |t.ts| > 0 && t.ts[0].Running? && t.ts[0].fOk && AllPass(t.ts[0].rest)
            && Wrap(t.sh.nTodo - t.ts[0].nNow) == Wrap(|t.sh.queue|)
  {
    hide Wrap, Total, BatchSize, Reverse;
    var sh := Arrive(s.sh, s.ts[0]);
    ArriveCounts(s, 0);
    TakeIsExact(sh);
    var t := Apply(s, Critical(0));
    var n := |t.sh.queue|;
    assert s.sh.queue == s.sh.queue[..n] + s.sh.queue[n..];
    AllPassAppend(s.sh.queue[..n], s.sh.queue[n..]);
    ReverseAllPass(s.sh.queue[n..]);
    WrapSub(|s.sh.queue|, t.ts[0].nNow);
  }

  /** The master calls passing checks to the end of its batch. */
  lemma {:induction false} DrainExecutes(workers: nat, nBatchSize: uint32, s: State) returns (t: State)
    requires Reachable(workers, nBatchSize, s)
    requires |s.ts| > 0 && s.ts[0].Running? && s.ts[0].fOk && AllPass(s.ts[0].rest)
    ensures Reachable(workers, nBatchSize, t)
    ensures |t.ts| > 0 && t.ts[0] == s.ts[0].(rest := [])
    ensures t.sh == s.sh && t.now.added == s.now.added
    decreases |s.ts[0].rest|
  {
    hide Reachable;
    t := s;
    if s.ts[0].rest != [] {
      ReachableStep(workers, nBatchSize, s, Execute(0));
      t := DrainExecutes(workers, nBatchSize, Apply(s, Execute(0)));
    }
  }

  /** Batch by batch, the master gets to an empty queue with nTodo at zero. */
  lemma {:induction false} Drains(workers: nat, nBatchSize: uint32, s: State) returns (t: State)
    requires Reachable(workers, nBatchSize, s) && Draining(s)
    ensures Reachable(workers, nBatchSize, t) && Draining(t) && t.sh.queue == []
    decreases |s.sh.queue|
  {
    hide Reachable, Apply, Enabled, Wrap, CountInv;
    t := s;
    if s.sh.queue != [] {
      ReachableCounts(workers, nBatchSize, s);
      DrainTakes(s);
      ReachableStep(workers, nBatchSize, s, Critical(0));
      t := DrainExecutes(workers, nBatchSize, Apply(s, Critical(0)));
      t := Drains(workers, nBatchSize, t);
    }
  }

  lemma {:induction false} FirstFull(workers: nat, nBatchSize: uint32) returns (k: nat)
    requires Capacity(workers, nBatchSize) >= UINT_RANGE
    ensures 1 <= k <= workers && Capacity(k - 1, nBatchSize) < UINT_RANGE <= Capacity(k, nBatchSize)
  {
    if Capacity(workers - 1, nBatchSize) < UINT_RANGE {
      k := workers;
    } else {
      k := FirstFull(workers - 1, nBatchSize);
    }
  }

  /** A queue whose workers can hold 2^32 checks has a run in which the master returns true although
      a check added before, and since its last return, fails. */
  lemma MissesAFailure(workers: nat, nBatchSize: uint32) returns (ss: seq<State>, es: seq<Event>)
    requires Capacity(workers, nBatchSize) >= UINT_RANGE
    ensures es != [] && Run(ss, es) && Of(ss[0], workers, nBatchSize)
    ensures var k := |es| - 1;
            && MasterReturns(ss[k], es[k])
            && Failed(AddedBetween(es, RoundStart(ss, es, k), k))
            && Decide(Arrive(ss[k].sh, ss[k].ts[0]), true).1 == Return(true)
  {
    hide Share, Capacity, Loading, Apply, Enabled, Wrap;
    var k := FirstFull(workers, nBatchSize);
    var s := Load(workers, nBatchSize, k);
    CallDrains(s, k);
    ReachableStep(workers, nBatchSize, s, Call);
    s := Drains(workers, nBatchSize, Apply(s, Call));
    var rs, ds :| Leads(rs, ds, workers, nBatchSize, s);
    DrainedReturns(s);
    Extend(rs, ds, Critical(0));
    ss, es := rs + [Apply(s, Critical(0))], ds + [Critical(0)];
    RoundIsSinceReturn(ss, es, |ds|);
  }

  lemma DrainedReturns(s: State)
    requires Draining(s) && s.sh.queue == []
    ensures MasterReturns(s, Critical(0)) && Decide(Arrive(s.sh, s.ts[0]), true).1 == Return(true)
    ensures Failed(s.now.added)
  {
    WrapSmall(0);
  }

  // ---- The exact condition

  ghost predicate AlwaysRight(workers: nat, nBatchSize: uint32) {
    forall ss: seq<State>, es: seq<Event>, k: nat ::
      Run(ss, es) && Of(ss[0], workers, nBatchSize) && k < |es| && MasterReturns(ss[k], es[k]) ==>
        RightReturn(ss, es, k)
  }

  /** Every return of every run is right if and only if the shares of the workers stay below 2^32. */
  lemma CapacityIsExact(workers: nat, nBatchSize: uint32)
    ensures AlwaysRight(workers, nBatchSize) <==> Capacity(workers, nBatchSize) < UINT_RANGE
  {
    if Capacity(workers, nBatchSize) < UINT_RANGE {
      CapacitySuffices(workers, nBatchSize);
    } else {
      hide Run, MasterReturns, RightReturn, Capacity;
      var ss, es := MissesAFailure(workers, nBatchSize);
      WrongIsNotRight(ss, es, |es| - 1);
    }
  }

  lemma CapacitySuffices(workers: nat, nBatchSize: uint32)
    requires Capacity(workers, nBatchSize) < UINT_RANGE
    ensures AlwaysRight(workers, nBatchSize)
  {
    hide MasterReturns, RightReturn, Capacity;
    forall ss: seq<State>, es: seq<Event>, k: nat
      | Run(ss, es) && Of(ss[0], workers, nBatchSize) && k < |es| && MasterReturns(ss[k], es[k])
      ensures RightReturn(ss, es, k)
    {
      EveryVerdictIsRight(ss, es, k);
    }
  }

  lemma WrongIsNotRight(ss: seq<State>, es: seq<Event>, k: nat)
    requires Run(ss, es) && k < |es| && Failed(AddedBetween(es, RoundStart(ss, es, k), k))
    requires Decide(Arrive(ss[k].sh, ss[k].ts[0]), true).1 == Return(true)
    ensures !RightReturn(ss, es, k)
  {
    hide Run, Failed;
  }

  lemma ShareWithinBatch(j: nat, nBatchSize: uint32)
    ensures Share(j, nBatchSize) <= MaxBatch(nBatchSize)
  {
  }

  lemma OneMore(n: nat, m: nat)
    ensures (n + 1) * m == n * m + m
  {
  }

  /** A full batch for every worker is always room enough. */
  lemma {:induction false} CapacityWithinBatches(workers: nat, nBatchSize: uint32)
    ensures Capacity(workers, nBatchSize) <= workers * MaxBatch(nBatchSize)
  {
    hide Share, MaxBatch;
    if workers > 0 {
      CapacityWithinBatches(workers - 1, nBatchSize);
      ShareWithinBatch(workers, nBatchSize);
      OneMore(workers - 1, MaxBatch(nBatchSize));
    }
  }

  /** So a queue whose full batches fit nTodo is always right. */
  lemma FullBatchesAreRight(workers: nat, nBatchSize: uint32)
    requires workers * MaxBatch(nBatchSize) < UINT_RANGE
    ensures AlwaysRight(workers, nBatchSize)
  {
    CapacityWithinBatches(workers, nBatchSize);
    CapacitySuffices(workers, nBatchSize);
  }

  lemma CapacityOfThree(nBatchSize: uint32)
    ensures Capacity(2, nBatchSize) == Max(1, Min(nBatchSize, 2147483647)) + Max(1, Min(nBatchSize, 1431655765))
    ensures Capacity(3, nBatchSize) == Capacity(2, nBatchSize) + Max(1, Min(nBatchSize, 1073741823))
  {
    assert Capacity(0, nBatchSize) == 0;
    assert Capacity(1, nBatchSize) == Share(1, nBatchSize);
    assert Capacity(2, nBatchSize) == Capacity(1, nBatchSize) + Share(2, nBatchSize);
    assert Capacity(3, nBatchSize) == Capacity(2, nBatchSize) + Share(3, nBatchSize);
  }

  /** Two workers never hold too much.  Three can, from a batch size of 1789569708 on. */
  lemma FewWorkers(nBatchSize: uint32)
    ensures AlwaysRight(2, nBatchSize)
    ensures AlwaysRight(3, nBatchSize) <==> nBatchSize < 1789569708
  {
    hide AlwaysRight, Capacity;
    CapacityIsExact(2, nBatchSize);
    CapacityIsExact(3, nBatchSize);
    CapacityOfThree(nBatchSize);
  }
}
