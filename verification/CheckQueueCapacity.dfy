/** How many checks the workers can hold between them, and for which queues that always fits. */
module CheckQueueCapacity {
  import opened CheckQueueModel
  import opened CheckQueueThreads
  import opened CheckQueueSafety
  import opened CheckQueueProgress

  /** The largest batch there can be while `j` threads are inside `Loop`. */
  function Share(j: nat, nBatchSize: uint32): (n: nat)
    ensures 1 <= n < UINT_RANGE
  {
    QuotientBounds(UINT_RANGE - 1, j + 1);
    Max(1, Min(nBatchSize, (UINT_RANGE - 1) / (j + 1)))
  }

  /** The most that `workers` workers can hold at once, when each takes its batch before the next
      one registers. */
  function Capacity(workers: nat, nBatchSize: uint32): nat {
    if workers == 0 then 0 else Capacity(workers - 1, nBatchSize) + Share(workers, nBatchSize)
  }

  lemma {:induction false} ShareShrinks(i: nat, j: nat, nBatchSize: uint32)
    requires i <= j
    ensures Share(j, nBatchSize) <= Share(i, nBatchSize)
    decreases j - i
  {
    if i < j {
      ShareShrinks(i, j - 1, nBatchSize);
      QuotientShrinks(UINT_RANGE - 1, j);
    }
  }

  lemma QuotientShrinks(a: nat, d: nat)
    requires d > 0
    ensures a / (d + 1) <= a / d
  {
    var p, q := a / (d + 1), a / d;
    QuotientBounds(a, d + 1);
    QuotientBounds(a, d);
    assert p * (d + 1) == p * d + p;
    if q + 1 <= p {
      MulMono(q + 1, p, d);
    }
  }

  // ---- How many workers hold large batches

  predicate Over(pc: Pc, m: nat) {
    pc.Running? && pc.nNow > m
  }

  /** The number of workers that hold more than `m` checks. */
  function OverCount(ts: seq<Pc>, m: nat): nat {
    if |ts| <= 1 then 0 else OverCount(ts[..|ts| - 1], m) + if Over(ts[|ts| - 1], m) then 1 else 0
  }

  lemma {:induction false} OverCountUpdate(ts: seq<Pc>, i: nat, pc: Pc, m: nat)
    requires 1 <= i < |ts|
    ensures OverCount(ts[i := pc], m) + (if Over(ts[i], m) then 1 else 0)
         == OverCount(ts, m) + (if Over(pc, m) then 1 else 0)
  {
    var n := |ts| - 1;
    if i == n {
      assert ts[i := pc][..n] == ts[..n];
    } else {
      OverCountUpdate(ts[..n], i, pc, m);
      assert ts[i := pc][..n] == ts[..n][i := pc];
    }
  }

  /** Only the workers matter, and of them only who is over. */
  lemma {:induction false} OverCountSame(us: seq<Pc>, ts: seq<Pc>, m: nat)
    requires |us| == |ts|
    requires forall i :: 1 <= i < |ts| ==> Over(us[i], m) == Over(ts[i], m)
    ensures OverCount(us, m) == OverCount(ts, m)
  {
    if |ts| > 1 {
      OverCountSame(us[..|ts| - 1], ts[..|ts| - 1], m);
    }
  }

  lemma {:induction false} OverCountRegistered(ts: seq<Pc>, m: nat)
    ensures OverCount(ts, m) <= Total(ts).registered
  {
    if |ts| > 1 {
      OverCountRegistered(ts[..|ts| - 1], m);
    }
  }

  /** If not all workers are over, one is not. */
  lemma {:induction false} SomeoneIsNotOver(ts: seq<Pc>, m: nat) returns (i: nat)
    requires OverCount(ts, m) < |ts| - 1
    ensures 1 <= i < |ts| && !Over(ts[i], m)
  {
    var n := |ts| - 1;
    if Over(ts[n], m) {
      i := SomeoneIsNotOver(ts[..n], m);
    } else {
      i := n;
    }
  }

  /** Fewer than `j` workers hold more than the j-th share. */
  ghost predicate LoadInv(ts: seq<Pc>, nBatchSize: uint32) {
    forall j :: 1 <= j ==> OverCount(ts, Share(j, nBatchSize)) < j
  }

  /** Such workers hold at most the sum of the shares. */
  lemma {:induction false} LoadIsBounded(ts: seq<Pc>, nBatchSize: uint32)
    requires |ts| > 0 && LoadInv(ts, nBatchSize)
    ensures Total(ts).unreported <= Weigh(ts[0]).unreported + Capacity(|ts| - 1, nBatchSize)
    decreases |ts|
  {
    hide Share, Over;
    var n := |ts| - 1;
    if n == 0 {
      assert ts[..0] == [];
    } else {
      var i := SomeoneIsNotOver(ts, Share(n, nBatchSize));
      var us := Without(ts, i);
      WithoutLoads(ts, i, nBatchSize);
      LoadIsBounded(us, nBatchSize);
      NotOver(ts[i], Share(n, nBatchSize));
    }
  }

  lemma NotOver(pc: Pc, m: nat)
    requires !Over(pc, m)
    ensures Weigh(pc).unreported <= m
  {
  }

  /** One worker less: the last one takes the place of worker `i`. */
  function Without(ts: seq<Pc>, i: nat): (r: seq<Pc>)
    requires 1 <= i < |ts|
    ensures |r| == |ts| - 1 && r[0] == ts[0]
  {
    ts[i := ts[|ts| - 1]][..|ts| - 1]
  }

  lemma WithoutCounts(ts: seq<Pc>, i: nat, m: nat)
    requires 1 <= i < |ts|
    ensures OverCount(Without(ts, i), m) <= OverCount(ts, m)
  {
    hide Over;
    var n := |ts| - 1;
    OverCountUpdate(ts, i, ts[n], m);
    assert OverCount(ts[i := ts[n]], m) == OverCount(Without(ts, i), m) + if Over(ts[n], m) then 1 else 0;
    hide OverCount;
  }

  lemma WithoutTotal(ts: seq<Pc>, i: nat)
    requires 1 <= i < |ts|
    ensures Total(ts).unreported == Total(Without(ts, i)).unreported + Weigh(ts[i]).unreported
  {
    hide Weigh;
    var n := |ts| - 1;
    TotalUpdate(ts, i, ts[n]);
    assert Total(ts[i := ts[n]]) == Plus(Total(Without(ts, i)), Weigh(ts[n]));
    hide Total;
  }

  lemma WithoutLoads(ts: seq<Pc>, i: nat, nBatchSize: uint32)
    requires 1 <= i < |ts| && LoadInv(ts, nBatchSize)
    ensures LoadInv(Without(ts, i), nBatchSize)
    ensures Total(ts).unreported == Total(Without(ts, i)).unreported + Weigh(ts[i]).unreported
  {
    hide Share, OverCount, Without, Total, Weigh;
    WithoutTotal(ts, i);
    forall j | 1 <= j ensures OverCount(Without(ts, i), Share(j, nBatchSize)) < j {
      WithoutCounts(ts, i, Share(j, nBatchSize));
    }
  }

  /** The batch that thread `i` holds after its critical section is a share for the threads that
      are inside `Loop` then. */
  lemma BatchIsAtMostShare(s: State, i: nat)
    requires CountInv(s) && Enabled(s, Critical(i))
    ensures var t := Apply(s, Critical(i));
            t.ts[i].Running? ==> t.ts[i].nNow <= Share(Total(t.ts).registered, s.sh.nBatchSize)
  {
    hide Wrap, Total, Reverse, Share, BatchOf;
    var t := Apply(s, Critical(i));
    if t.ts[i].Running? {
      var sh := Arrive(s.sh, s.ts[i]);
      CriticalTotals(s, i);
      ArriveCounts(s, i);
      TakeIsExact(sh);
      assert sh.nTotal == Total(t.ts).registered;
      SizeIsAtMostShare(sh);
      ShareShrinks(sh.nTotal, sh.nTotal + sh.nIdle, sh.nBatchSize);
    }
  }

  lemma SizeIsAtMostShare(sh: Shared)
    requires sh.nTotal >= 0 && sh.nIdle >= 0
    ensures BatchSize(sh) <= Share(sh.nTotal + sh.nIdle, sh.nBatchSize)
  {
    BatchAtMostShare(|sh.queue|, sh.nBatchSize, sh.nTotal + sh.nIdle + 1);
    hide BatchOf;
  }

  lemma LoadStep(s: State, e: Event)
    requires CountInv(s) && LoadInv(s.ts, s.sh.nBatchSize) && Enabled(s, e)
    ensures LoadInv(Apply(s, e).ts, s.sh.nBatchSize)
  {
    hide Wrap, Total, BatchSize, Reverse, Share, OverCount;
    var t := Apply(s, e);
    forall j | 1 <= j ensures OverCount(t.ts, Share(j, s.sh.nBatchSize)) < j {
      var m := Share(j, s.sh.nBatchSize);
      if e.Critical? && e.i > 0 {
        CriticalLoad(s, e.i, j);
      } else {
        OthersStay(s, e);
        OverCountSame(t.ts, s.ts, m);
      }
    }
  }

  /** Whatever is not a worker's critical section leaves the workers' batches as they are. */
  lemma OthersStay(s: State, e: Event)
    requires Enabled(s, e) && (e.Critical? ==> e.i == 0)
    ensures |Apply(s, e).ts| == |s.ts|
    ensures forall i, m :: 1 <= i < |s.ts| ==> Over(Apply(s, e).ts[i], m) == Over(s.ts[i], m)
  {
    hide Wrap, Total, BatchSize, Reverse;
    if e.Critical? {
      CriticalTotals(s, 0);
    }
  }

  lemma CriticalLoad(s: State, i: nat, j: nat)
    requires CountInv(s) && Enabled(s, Critical(i)) && i > 0 && j > 0
    requires OverCount(s.ts, Share(j, s.sh.nBatchSize)) < j
    ensures OverCount(Apply(s, Critical(i)).ts, Share(j, s.sh.nBatchSize)) < j
  {
    hide Wrap, Total, BatchSize, Reverse, Share, OverCount, CountInv;
    var t := Apply(s, Critical(i));
    var m := Share(j, s.sh.nBatchSize);
    CriticalTotals(s, i);
    if Over(t.ts[i], m) {
      BatchIsAtMostShare(s, i);
      OverCountRegistered(t.ts, m);
      if j <= Total(t.ts).registered {
        ShareShrinks(j, Total(t.ts).registered, s.sh.nBatchSize);
      }
    } else {
      OverCountUpdate(Others(s, i), i, t.ts[i], m);
      OverCountSame(Others(s, i), s.ts, m);
    }
  }

  lemma InitLoad(ts: seq<Pc>, m: nat)
    requires forall i :: 1 <= i < |ts| ==> !ts[i].Running?
    ensures OverCount(ts, m) == 0
  {
  }

  lemma {:induction false} RunLoad(ss: seq<State>, es: seq<Event>, k: nat)
    requires Run(ss, es) && k < |ss|
    ensures LoadInv(ss[k].ts, ss[k].sh.nBatchSize)
  {
    hide CountInv, Apply, Enabled, Share;
    if k == 0 {
      forall j | 1 <= j ensures OverCount(ss[0].ts, Share(j, ss[0].sh.nBatchSize)) < j {
        InitLoad(ss[0].ts, Share(j, ss[0].sh.nBatchSize));
      }
    } else {
      RunCounts(ss, es, k - 1);
      RunLoad(ss, es, k - 1);
      LoadStep(ss[k - 1], es[k - 1]);
      CountStep(ss[k - 1], es[k - 1]);
    }
  }

  // ---- Queues that are always right

  /** The condition on a queue: its workers can never hold more checks than nTodo can count. */
  predicate Room(s: State) {
    |s.ts| > 0 && Capacity(|s.ts| - 1, s.sh.nBatchSize) < UINT_RANGE
  }

  /** In every reachable state the workers hold at most the capacity. */
  lemma WorkersHoldAtMostCapacity(ss: seq<State>, es: seq<Event>, k: nat)
    requires Run(ss, es) && k < |ss|
    ensures |ss[k].ts| == |ss[0].ts| > 0
    ensures Total(ss[k].ts).unreported
            <= Weigh(ss[k].ts[0]).unreported + Capacity(|ss[0].ts| - 1, ss[0].sh.nBatchSize)
  {
    RunCounts(ss, es, k);
    RunLoad(ss, es, k);
    hide LoadInv, Capacity, Total;
    LoadIsBounded(ss[k].ts, ss[k].sh.nBatchSize);
  }

  lemma RoomFits(ss: seq<State>, es: seq<Event>, k: nat)
    requires Run(ss, es) && Room(ss[0]) && k <= |es|
    ensures ReturnsFit(ss, es, k)
  {
    hide Capacity, Total, Wrap, BatchSize, Reverse;
    forall j | 0 <= j < k && j < |es| ensures ReturnFits(ss[j], es[j]) {
      if MasterReturns(ss[j], es[j]) {
        RunCounts(ss, es, j);
        ReturnIsCleanIff(ss[j]);
        WorkersHoldAtMostCapacity(ss, es, j + 1);
      }
    }
  }

  /** Under every interleaving, on every queue with room, every return of the master is right. */
  lemma EveryVerdictIsRight(ss: seq<State>, es: seq<Event>, k: nat)
    requires Run(ss, es) && Room(ss[0]) && k < |es| && MasterReturns(ss[k], es[k])
    ensures RightReturn(ss, es, k)
  {
    RoomFits(ss, es, k + 1);
    hide Run, Room, MasterReturns, ReturnsFit, RightReturn;
    ReturnIsRight(ss, es, k);
  }

  /** And whenever the master is outside with nothing added since its last return, such a queue is
      as good as new. */
  lemma NothingLeaksWithRoom(ss: seq<State>, es: seq<Event>, k: nat)
    requires Run(ss, es) && Room(ss[0]) && k < |ss|
    ensures NoLeak(ss[k])
  {
    RoomFits(ss, es, k);
    hide Run, Room, ReturnsFit, NoLeak;
    NothingLeaks(ss, es, k);
  }
}
