/** The data of the parallel verification queue, and one function for each piece of its
    critical section.  The queue class and the interleaving machine both use them. */
module CheckQueueModel {

  /** A verification, identified by `id`; its call operator deterministically returns `passes`. */
  datatype Check = Check(id: int, passes: bool)

  /** The value a default-constructed check has. */
  const DEFAULT_CHECK := Check(0, true)

  /** `unsigned int` counts modulo this number. */
  const UINT_RANGE: nat := 0x1_0000_0000

  type uint32 = x: nat | x < UINT_RANGE

  /** What remains of a number in an `unsigned int`. */
  function Wrap(x: int): uint32 { x % UINT_RANGE }

  /** Wrapping before or after an addition or a subtraction comes to the same. */
  lemma WrapAdd(x: int, y: int)
    ensures Wrap(Wrap(x) + y) == Wrap(x + y)
  {
  }

  lemma WrapSub(x: int, y: int)
    ensures Wrap(Wrap(x) - y) == Wrap(x - y)
  {
  }

  lemma WrapSmall(x: int)
    requires 0 <= x < UINT_RANGE
    ensures Wrap(x) == x
  {
  }

  /** The fields that the queue's mutex protects. */
  datatype Shared = Shared(
    queue: seq<Check>,
    nIdle: int,
    nTotal: int,
    fAllOk: bool,
    nTodo: uint32,
    fQuit: bool,
    nBatchSize: uint32)

  /** Where a thread is.  `Entering` threads have called `Loop` but not yet locked the mutex,
      `Notified` threads left `cond.wait` but do not have the mutex back, and a `Running`
      thread holds a batch of `nNow` checks of which `rest` are still ahead of it. */
  datatype Pc =
    | Outside
    | Entering
    | Sleeping
    | Notified
    | Running(nNow: nat, fOk: bool, rest: seq<Check>)

  /** How a critical section ends. */
  datatype Outcome = Block | Batch(vChecks: seq<Check>, fOk: bool) | Return(fRet: bool)

  predicate AllPass(cs: seq<Check>) {
    forall i :: 0 <= i < |cs| ==> cs[i].passes
  }

  function Reverse(cs: seq<Check>): (r: seq<Check>)
    ensures |r| == |cs|
  {
    if cs == [] then [] else Reverse(cs[1..]) + [cs[0]]
  }

  lemma {:induction false} ReverseKeeps(cs: seq<Check>)
    ensures multiset(Reverse(cs)) == multiset(cs)
  {
    if cs != [] {
      ReverseKeeps(cs[1..]);
      assert cs == [cs[0]] + cs[1..];
    }
  }

  lemma {:induction false} ReverseAppend(a: seq<Check>, b: seq<Check>)
    ensures Reverse(a + b) == Reverse(b) + Reverse(a)
  {
    if a == [] {
      assert a + b == b;
    } else {
      ReverseAppend(a[1..], b);
      assert (a + b)[1..] == a[1..] + b;
    }
  }

  lemma AllPassAppend(a: seq<Check>, b: seq<Check>)
    ensures AllPass(a + b) == (AllPass(a) && AllPass(b))
  {
    if AllPass(a + b) {
      forall i | 0 <= i < |a| ensures a[i].passes { assert (a + b)[i] == a[i]; }
      forall i | 0 <= i < |b| ensures b[i].passes { assert (a + b)[|a| + i] == b[i]; }
    }
  }

  lemma {:induction false} ReverseAllPass(cs: seq<Check>)
    ensures AllPass(Reverse(cs)) == AllPass(cs)
  {
    if cs != [] {
      ReverseAllPass(cs[1..]);
      AllPassAppend(Reverse(cs[1..]), [cs[0]]);
      AllPassAppend([cs[0]], cs[1..]);
      assert cs == [cs[0]] + cs[1..];
    }
  }

  // ---- Batch sizes

  function Max(a: int, b: int): int { if a < b then b else a }

  function Min(a: int, b: int): int { if a < b then a else b }

  /** No batch is larger than this. */
  function MaxBatch(nBatchSize: uint32): nat { Max(1, nBatchSize) }

  /** The batch size for a queue of `len` checks shared between `divisor` threads.  The length
      is cast to `unsigned int` first. */
  function BatchOf(len: nat, nBatchSize: uint32, divisor: nat): nat
    requires divisor > 0
  {
    Max(1, Min(nBatchSize, Wrap(len) / divisor))
  }

  /** The number of checks the thread in the critical section takes next.  A divisor below one
      would be a division error; the counting invariant rules it out. */
  function BatchSize(sh: Shared): nat {
    var divisor := sh.nTotal + sh.nIdle + 1;
    if divisor <= 0 then 1 else BatchOf(|sh.queue|, sh.nBatchSize, divisor)
  }

  /** A batch is never empty, never larger than the queue or than `MaxBatch`, and whenever there
      is a check for every thread it leaves as much for each of the others. */
  lemma BatchFits(len: nat, nBatchSize: uint32, divisor: nat)
    requires len > 0 && divisor > 0
    ensures 1 <= BatchOf(len, nBatchSize, divisor) <= Min(len, MaxBatch(nBatchSize))
    ensures len >= divisor ==>
              len - BatchOf(len, nBatchSize, divisor) >= (divisor - 1) * BatchOf(len, nBatchSize, divisor)
  {
    var m := Wrap(len);
    assert m <= len;
    hide Wrap;
    QuotientBounds(m, divisor);
    var n := BatchOf(len, nBatchSize, divisor);
    if n > 1 {
      MulMono(n, m / divisor, divisor);
    }
    assert (divisor - 1) * n == n * divisor - n;
  }

  /** As long as the length fits its type, a batch smaller than `MaxBatch` is as large as a fair
      share can be. */
  lemma BatchIsLargest(len: nat, nBatchSize: uint32, divisor: nat)
    requires len < UINT_RANGE && divisor > 0
    requires BatchOf(len, nBatchSize, divisor) < MaxBatch(nBatchSize)
    ensures (BatchOf(len, nBatchSize, divisor) + 1) * divisor > len
  {
    WrapSmall(len);
    hide Wrap;
    QuotientBounds(len, divisor);
    MulMono(len / divisor + 1, BatchOf(len, nBatchSize, divisor) + 1, divisor);
  }

  lemma QuotientBounds(m: nat, d: nat)
    requires d > 0
    ensures m / d <= (m / d) * d <= m < (m / d + 1) * d
  {
    var q := m / d;
    assert m == q * d + m % d;
    assert (q + 1) * d == q * d + d;
    QuotientAtMostProduct(q, d);
  }

  lemma QuotientAtMostProduct(q: nat, d: nat)
    requires d > 0
    ensures q <= q * d
  {
  }

  lemma MulMono(a: nat, b: nat, d: nat)
    requires a <= b
    ensures a * d <= b * d
  {
  }

  /** The batches one thread takes when it drains `len` checks and the divisor does not change. */
  function Drain(len: nat, nBatchSize: uint32, divisor: nat): (r: seq<nat>)
    requires divisor > 0
    decreases len
  {
    if len == 0 then []
    else
      BatchFits(len, nBatchSize, divisor);
      var n := BatchOf(len, nBatchSize, divisor);
      [n] + Drain(len - n, nBatchSize, divisor)
  }

  function Sum(ns: seq<nat>): nat {
    if ns == [] then 0 else ns[0] + Sum(ns[1..])
  }

  /** No batch is larger than one before it. */
  ghost predicate NeverGrows(ns: seq<nat>) {
    forall i, j :: 0 <= i <= j < |ns| ==> ns[j] <= ns[i]
  }

  lemma {:induction false} DrainSums(len: nat, nBatchSize: uint32, divisor: nat)
    requires divisor > 0
    ensures Sum(Drain(len, nBatchSize, divisor)) == len
    decreases len
  {
    if len > 0 {
      BatchFits(len, nBatchSize, divisor);
      DrainSums(len - BatchOf(len, nBatchSize, divisor), nBatchSize, divisor);
    }
  }

  /** One step of a drain. */
  lemma DrainUnfolds(len: nat, nBatchSize: uint32, divisor: nat)
    requires divisor > 0 && len > 0
    ensures var n := BatchOf(len, nBatchSize, divisor);
            && 1 <= n <= len
            && Drain(len, nBatchSize, divisor) == [n] + Drain(len - n, nBatchSize, divisor)
  {
    BatchFits(len, nBatchSize, divisor);
    hide BatchOf;
  }

  /** The batches of a drain add up to the queue, and they never grow if and only if the length
      fits the `unsigned int` it is cast to, or no length of that type makes a batch above one. */
  lemma DrainShrinksIff(len: nat, nBatchSize: uint32, divisor: nat)
    requires divisor > 0
    ensures Sum(Drain(len, nBatchSize, divisor)) == len
    ensures NeverGrows(Drain(len, nBatchSize, divisor)) <==>
              len < UINT_RANGE || Min(nBatchSize, (UINT_RANGE - 1) / divisor) <= 1
  {
    DrainSums(len, nBatchSize, divisor);
    if len < UINT_RANGE {
      DrainShrinks(len, nBatchSize, divisor);
    } else if Min(nBatchSize, (UINT_RANGE - 1) / divisor) <= 1 {
      DrainIsOnes(len, nBatchSize, divisor);
    } else {
      var i := DrainGrows(len, nBatchSize, divisor);
      assert !(Drain(len, nBatchSize, divisor)[i + 1] <= Drain(len, nBatchSize, divisor)[i]);
    }
  }

  lemma {:induction false} DrainShrinks(len: nat, nBatchSize: uint32, divisor: nat)
    requires divisor > 0 && len < UINT_RANGE
    ensures NeverGrows(Drain(len, nBatchSize, divisor))
    decreases len
  {
    if len > 0 {
      DrainUnfolds(len, nBatchSize, divisor);
      var n := BatchOf(len, nBatchSize, divisor);
      DrainShrinks(len - n, nBatchSize, divisor);
      if len - n > 0 {
        DrainUnfolds(len - n, nBatchSize, divisor);
        BatchMonotone(len - n, len, nBatchSize, divisor);
        hide BatchOf, Drain;
        GrowsFromHead(n, Drain(len - n, nBatchSize, divisor));
      }
    }
  }

  lemma GrowsFromHead(n: nat, tail: seq<nat>)
    requires NeverGrows(tail) && tail != [] && tail[0] <= n
    ensures NeverGrows([n] + tail)
  {
  }

  /** No batch for a length of type `unsigned int` is larger than one for its largest value. */
  lemma BatchAtMostShare(len: nat, nBatchSize: uint32, divisor: nat)
    requires divisor > 0
    ensures BatchOf(len, nBatchSize, divisor) <= Max(1, Min(nBatchSize, (UINT_RANGE - 1) / divisor))
  {
    QuotientMonotone(Wrap(len), UINT_RANGE - 1, divisor);
  }

  lemma {:induction false} DrainIsOnes(len: nat, nBatchSize: uint32, divisor: nat)
    requires divisor > 0 && Min(nBatchSize, (UINT_RANGE - 1) / divisor) <= 1
    ensures forall i :: 0 <= i < |Drain(len, nBatchSize, divisor)| ==> Drain(len, nBatchSize, divisor)[i] == 1
    decreases len
  {
    if len > 0 {
      DrainUnfolds(len, nBatchSize, divisor);
      BatchAtMostShare(len, nBatchSize, divisor);
      DrainIsOnes(len - BatchOf(len, nBatchSize, divisor), nBatchSize, divisor);
    }
  }

  /** A batch never reaches below the last multiple of 2^32. */
  lemma BatchWithinRemainder(len: nat, nBatchSize: uint32, divisor: nat)
    requires divisor > 0
    ensures BatchOf(len, nBatchSize, divisor) <= Max(1, Wrap(len))
  {
    var m := Wrap(len);
    hide Wrap;
    QuotientBounds(m, divisor);
  }

  lemma WrapOfPredecessor(len: nat)
    requires len > 0 && Wrap(len) == 0
    ensures Wrap(len - 1) == UINT_RANGE - 1
  {
  }

  lemma WrapWithin(len: nat)
    requires len >= UINT_RANGE
    ensures len - Wrap(len) >= UINT_RANGE
  {
  }

  /** From 2^32 checks on, the drain gets to a multiple of 2^32, takes one check there and a larger
      batch next. */
  lemma {:induction false} DrainGrows(len: nat, nBatchSize: uint32, divisor: nat) returns (i: nat)
    requires divisor > 0 && len >= UINT_RANGE && Min(nBatchSize, (UINT_RANGE - 1) / divisor) > 1
    ensures i + 1 < |Drain(len, nBatchSize, divisor)|
    ensures Drain(len, nBatchSize, divisor)[i] < Drain(len, nBatchSize, divisor)[i + 1]
    decreases len
  {
    DrainUnfolds(len, nBatchSize, divisor);
    BatchWithinRemainder(len, nBatchSize, divisor);
    WrapWithin(len);
    if Wrap(len) == 0 {
      WrapOfPredecessor(len);
      DrainUnfolds(len - 1, nBatchSize, divisor);
      i := 0;
    } else {
      hide Wrap, BatchOf, Drain;
      var n := BatchOf(len, nBatchSize, divisor);
      i := DrainGrows(len - n, nBatchSize, divisor);
      i := i + 1;
    }
  }

  lemma BatchMonotone(a: nat, b: nat, nBatchSize: uint32, divisor: nat)
    requires divisor > 0 && a <= b < UINT_RANGE
    ensures BatchOf(a, nBatchSize, divisor) <= BatchOf(b, nBatchSize, divisor)
  {
    assert a % UINT_RANGE == a && b % UINT_RANGE == b;
    QuotientMonotone(a, b, divisor);
  }

  lemma QuotientMonotone(a: nat, b: nat, d: nat)
    requires d > 0 && a <= b
    ensures a / d <= b / d
  {
    var p, q := a / d, b / d;
    assert a == p * d + a % d && b == q * d + b % d;
    assert (q + 1) * d == q * d + d;
    if p > q {
      MulMono(q + 1, p, d);
    }
  }

  /** For instance, with batches of up to 128 shared by two, 2^32 checks are one too many. */
  lemma DrainGrowsBeyondUnsigned()
    ensures NeverGrows(Drain(UINT_RANGE - 1, 128, 2)) && !NeverGrows(Drain(UINT_RANGE, 128, 2))
  {
    hide Drain, NeverGrows;
    DrainShrinksIff(UINT_RANGE - 1, 128, 2);
    DrainShrinksIff(UINT_RANGE, 128, 2);
  }

  // ---- The critical section of Loop and of Add

  /** Entering the critical section: a thread with a batch reports it, a new thread registers,
      and one that was waiting is no longer idle. */
  function Arrive(sh: Shared, pc: Pc): Shared {
    match pc
    case Running(n, ok, _) => sh.(fAllOk := sh.fAllOk && ok, nTodo := Wrap(sh.nTodo - n))
    case Notified => sh.(nIdle := sh.nIdle - 1)
    case _ => sh.(nTotal := sh.nTotal + 1)
  }

  /** Whether the report of a worker at `pc` notifies the master. */
  predicate WakesMaster(sh: Shared, fMaster: bool, pc: Pc) {
    pc.Running? && !fMaster && Arrive(sh, pc).nTodo == 0
  }

  /** The wait loop and the choice of a batch. */
  function Decide(sh: Shared, fMaster: bool): (Shared, Outcome) {
    if sh.queue == [] then
      if (fMaster || sh.fQuit) && sh.nTodo == 0 then
        (sh.(nTotal := sh.nTotal - 1, fAllOk := fMaster || sh.fAllOk), Return(sh.fAllOk))
      else
        (sh.(nIdle := sh.nIdle + 1), Block)
    else
      var (kept, taken) := TakeBack(sh.queue, BatchSize(sh));
      (sh.(queue := kept), Batch(taken, sh.fAllOk))
  }

  /** A thread leaves `Loop` when nothing is outstanding and it is the master or shutting down.  Only
      the master collects the verdict; a worker that quits leaves it for the master. */
  lemma LeavesIff(sh: Shared, fMaster: bool)
    ensures var (after, outcome) := Decide(sh, fMaster);
            && (outcome.Return? <==> sh.queue == [] && sh.nTodo == 0 && (fMaster || sh.fQuit))
            && (outcome.Return? ==> outcome.fRet == sh.fAllOk && (after.fAllOk <==> sh.fAllOk || fMaster))
            && (!outcome.Return? ==> after.fAllOk == sh.fAllOk)
  {
    hide BatchSize, Reverse;
  }

  /** Taking `n` checks off the back, the last one first. */
  function TakeBack(queue: seq<Check>, n: nat): (seq<Check>, seq<Check>) {
    var m := Min(n, |queue|);
    (queue[..|queue| - m], Reverse(queue[|queue| - m..]))
  }

  function Enqueue(sh: Shared, cs: seq<Check>): Shared {
    sh.(queue := sh.queue + cs, nTodo := Wrap(sh.nTodo + |cs|))
  }

  // ---- Executing a batch

  /** The checks of `cs` that are called: none unless `live`, and none after one that fails. */
  function Called(cs: seq<Check>, live: bool): (r: seq<Check>) {
    if cs == [] || !live then [] else [cs[0]] + Called(cs[1..], cs[0].passes)
  }

  /** The calls are exactly the prefix up to and including the first failing check. */
  lemma {:induction false} CalledIsPrefixThroughFirstFailure(cs: seq<Check>)
    ensures Called(cs, true) <= cs
    ensures AllPass(cs) ==> Called(cs, true) == cs
    ensures !AllPass(cs) ==>
              var n := |Called(cs, true)|;
              n > 0 && !cs[n - 1].passes && AllPass(cs[..n - 1])
  {
    if cs != [] && cs[0].passes {
      CalledIsPrefixThroughFirstFailure(cs[1..]);
      var n := |Called(cs, true)|;
      assert cs == [cs[0]] + cs[1..];
      if !AllPass(cs) {
        assert !AllPass(cs[1..]);
        assert cs[..n - 1] == [cs[0]] + cs[1..][..n - 2];
      } else {
        assert AllPass(cs[1..]);
      }
    }
  }

  /** Executing a queue in batches calls the checks one run over the whole queue would call. */
  lemma {:induction false} CalledAppend(a: seq<Check>, b: seq<Check>, live: bool)
    ensures Called(a + b, live) == Called(a, live) + Called(b, live && AllPass(a))
  {
    if a == [] {
      assert a + b == b;
    } else {
      assert a == [a[0]] + a[1..];
      assert (a + b)[0] == a[0] && (a + b)[1..] == a[1..] + b;
      if live && a[0].passes {
        CalledAppend(a[1..], b, true);
        assert AllPass(a) == AllPass(a[1..]);
      }
    }
  }
}
