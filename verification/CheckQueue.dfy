/** The queue and its controller as objects.  `CriticalSection` is the code between locking the
    mutex and `cond.wait`, the end of a batch's selection, or return; it is proved against the
    functions of CheckQueueModel, which the interleaving machine runs.  `Wait` is the whole
    master loop when there are no workers. */
module CheckQueues {
  import opened CheckQueueModel

  class CheckQueue {
    var queue: seq<Check>
    var nIdle: int
    var nTotal: int
    var fAllOk: bool
    var nTodo: uint32
    var fQuit: bool
    const nBatchSize: uint32
    /** Whether ControlMutex is locked. */
    var controlLocked: bool

    constructor (nBatchSizeIn: uint32)
      ensures View() == Shared([], 0, 0, true, 0, false, nBatchSizeIn)
      ensures Alone() && Fresh() && !controlLocked
    {
      queue, nIdle, nTotal, fAllOk, nTodo, fQuit := [], 0, 0, true, 0, false;
      nBatchSize := nBatchSizeIn;
      controlLocked := false;
    }

    function View(): Shared
      reads this
    {
      Shared(queue, nIdle, nTotal, fAllOk, nTodo, fQuit, nBatchSize)
    }

    /** No thread is inside `Loop`, so everything that is still to do is in the queue. */
    ghost predicate Alone()
      reads this
    {
      nIdle == 0 && nTotal == 0 && !fQuit && nTodo == Wrap(|queue|)
    }

    /** Nothing is left over from an earlier controller. */
    predicate Fresh()
      reads this
    {
      queue == [] && nTodo == 0 && fAllOk
    }

    /** Moves the caller's checks to the back of the queue; the caller keeps default checks.
        `wakeOne` and `wakeAll` say which notification condWorker gets. */
    method Add(vChecks: array<Check>) returns (wakeOne: bool, wakeAll: bool)
      modifies this, vChecks
      ensures View() == Enqueue(old(View()), old(vChecks[..]))
      ensures queue == old(queue) + old(vChecks[..]) && nTodo == Wrap(old(nTodo) + vChecks.Length)
      ensures forall i :: 0 <= i < vChecks.Length ==> vChecks[i] == DEFAULT_CHECK
      ensures wakeOne == (vChecks.Length == 1) && wakeAll == (vChecks.Length > 1)
      ensures controlLocked == old(controlLocked)
    {
      for i := 0 to vChecks.Length
        modifies this`queue, vChecks
        invariant queue == old(queue) + old(vChecks[..])[..i]
        invariant forall j :: 0 <= j < i ==> vChecks[j] == DEFAULT_CHECK
        invariant vChecks[i..] == old(vChecks[..])[i..]
      {
        assert vChecks[i] == old(vChecks[..])[i];
        queue := queue + [DEFAULT_CHECK];
        var back := queue[|queue| - 1];
        queue := queue[|queue| - 1 := vChecks[i]];
        vChecks[i] := back;
      }
      nTodo := Wrap(nTodo + vChecks.Length);
      wakeOne, wakeAll := vChecks.Length == 1, vChecks.Length > 1;
    }

    /** One critical section of `Loop`, for a thread that arrives at `pc`. */
    method CriticalSection(fMaster: bool, pc: Pc) returns (outcome: Outcome, wakesMaster: bool)
      requires 0 <= nTotal && (if pc.Notified? then 0 < nIdle else 0 <= nIdle)
      requires pc.Running? || pc.Notified? ==> 0 < nTotal
      modifies this
      ensures (View(), outcome) == Decide(Arrive(old(View()), pc), fMaster)
      ensures wakesMaster == WakesMaster(old(View()), fMaster, pc)
      ensures controlLocked == old(controlLocked)
    {
      hide Wrap;
      wakesMaster := CleanUp(fMaster, pc);
      outcome := NextWork(fMaster);
    }

    /** The clean-up of the previous turn of the loop. */
    method CleanUp(fMaster: bool, pc: Pc) returns (wakesMaster: bool)
      modifies this
      ensures View() == Arrive(old(View()), pc)
      ensures wakesMaster == WakesMaster(old(View()), fMaster, pc)
      ensures controlLocked == old(controlLocked)
    {
      wakesMaster := false;
      match pc {
        case Running(nNow, fOk, _) =>
          fAllOk := fAllOk && fOk;
          nTodo := Wrap(nTodo - nNow);
          wakesMaster := nTodo == 0 && !fMaster;
        case Notified =>
          nIdle := nIdle - 1;
        case _ =>
          nTotal := nTotal + 1;
      }
    }

    /** The wait loop up to `cond.wait`, and the choice of a batch. */
    method NextWork(fMaster: bool) returns (outcome: Outcome)
      requires 0 < nTotal && 0 <= nIdle
      modifies this
      ensures (View(), outcome) == Decide(old(View()), fMaster)
      ensures controlLocked == old(controlLocked)
    {
      hide Wrap;
      if queue == [] {
        if (fMaster || fQuit) && nTodo == 0 {
          nTotal := nTotal - 1;
          outcome := Return(fAllOk);
          if fMaster {
            fAllOk := true;
          }
        } else {
          nIdle := nIdle + 1;
          outcome := Block;
        }
        return;
      }
      var nNow := Max(1, Min(nBatchSize, Wrap(|queue|) / (nTotal + nIdle + 1)));
      var vChecks := PopBatch(nNow);
      outcome := Batch(vChecks, fAllOk);
    }

    /** Swaps the last `nNow` checks into a batch, one by one. */
    method PopBatch(nNow: nat) returns (vChecks: seq<Check>)
      requires queue != []
      requires nNow == BatchSize(View())
      modifies this`queue
      ensures (queue, vChecks) == TakeBack(old(queue), nNow)
    {
      if nTotal + nIdle + 1 > 0 {
        BatchFits(|queue|, nBatchSize, nTotal + nIdle + 1);
      }
      vChecks := [];
      var kept := |queue| - nNow;
      for i := 0 to nNow
        invariant queue == old(queue)[..kept + nNow - i]
        invariant vChecks == Reverse(old(queue)[kept + nNow - i..])
      {
        ghost var back := old(queue)[kept + nNow - i..];
        vChecks := vChecks + [queue[|queue| - 1]];
        ReverseAppend([queue[|queue| - 1]], back);
        assert old(queue)[kept + nNow - i - 1..] == [queue[|queue| - 1]] + back;
        queue := queue[..|queue| - 1];
      }
    }

    /** `Wait` is `Loop(true)`.  The batches are the queue backwards, each check is called as a
        single run over the queue would call it, and the verdict is about exactly that queue. */
    method Wait() returns (fRet: bool, batches: seq<seq<Check>>, called: seq<Check>)
      requires Alone()
      modifies this
      ensures View() == old(View()).(queue := [], nTodo := 0, fAllOk := true)
      ensures Alone() && Fresh()
      ensures fRet == (old(fAllOk) && AllPass(old(queue)))
      ensures Flatten(batches) == Reverse(old(queue))
      ensures called == Called(Reverse(old(queue)), old(fAllOk))
      ensures Sizes(batches) == Drain(|old(queue)|, nBatchSize, 2)
      ensures controlLocked == old(controlLocked)
    {
      ghost var start := View();
      var pc := Entering;
      batches, called := [], [];
      while true
        invariant Underway(start, View(), pc, batches, called)
        invariant controlLocked == old(controlLocked)
        decreases |queue|
      {
        ghost var sh := View();
        var outcome, _ := CriticalSection(true, pc);
        match outcome {
          case Return(fAll) =>
            LoneMasterReturns(start, sh, pc, batches, called);
            fRet := fAll;
            return;
          case Batch(vChecks, fOk) =>
            LoneMasterTakes(start, sh, pc, batches, called);
            var ok, calls := Execute(vChecks, fOk);
            batches, called := batches + [vChecks], called + calls;
            pc := Running(|vChecks|, ok, []);
          case Block =>
            LoneMasterReturns(start, sh, pc, batches, called);
        }
      }
    }
  }

  /** The invariant of a master loop that began at `start`, between two critical sections. */
  ghost predicate Underway(start: Shared, sh: Shared, pc: Pc, batches: seq<seq<Check>>, called: seq<Check>) {
    && sh == start.(queue := sh.queue, nTodo := sh.nTodo, nTotal := sh.nTotal, fAllOk := sh.fAllOk)
    && !start.fQuit && sh.nIdle == 0
    && (pc == Entering || (pc.Running? && pc.rest == []))
    && sh.nTotal == (if pc.Entering? then 0 else 1)
    && sh.nTodo == Wrap(|sh.queue| + if pc.Running? then pc.nNow else 0)
    && Flatten(batches) + Reverse(sh.queue) == Reverse(start.queue)
    && called == Called(Flatten(batches), start.fAllOk)
    && (sh.fAllOk && (pc.Running? ==> pc.fOk)) == (start.fAllOk && AllPass(Flatten(batches)))
    && Sizes(batches) + Drain(|sh.queue|, sh.nBatchSize, 2) == Drain(|start.queue|, sh.nBatchSize, 2)
  }

  lemma LoneMasterTakes(start: Shared, sh: Shared, pc: Pc, batches: seq<seq<Check>>, called: seq<Check>)
    requires Underway(start, sh, pc, batches, called) && sh.queue != []
    ensures var (after, outcome) := Decide(Arrive(sh, pc), true);
            && outcome.Batch? && |after.queue| < |sh.queue|
            && var Batch(taken, live) := outcome;
            Underway(start, after, Running(|taken|, live && AllPass(taken), []),
                     batches + [taken], called + Called(taken, live))
  {
    hide Wrap, Flatten, Sizes, Called, Drain, Reverse, AllPass, BatchOf;
    var (after, outcome) := Decide(Arrive(sh, pc), true);
    var Batch(taken, live) := outcome;
    var done := Flatten(batches);
    var n := BatchOf(|sh.queue|, sh.nBatchSize, 2);
    BatchFits(|sh.queue|, sh.nBatchSize, 2);
    AfterTake(sh.queue, after.queue, taken, n);
    DrainTakes(|sh.queue|, sh.nBatchSize);
    CalledAppend(done, taken, start.fAllOk);
    AllPassAppend(done, taken);
    BatchesAppend(batches, taken);
    assert (done + taken) + Reverse(after.queue) == done + (taken + Reverse(after.queue));
    assert (Sizes(batches) + [|taken|]) + Drain(|after.queue|, sh.nBatchSize, 2)
        == Sizes(batches) + ([|taken|] + Drain(|after.queue|, sh.nBatchSize, 2));
    LoneMasterCount(sh, pc, after, |taken|);
  }

  lemma LoneMasterCount(sh: Shared, pc: Pc, after: Shared, n: nat)
    requires pc == Entering || pc.Running?
    requires sh.nTodo == Wrap(|sh.queue| + if pc.Running? then pc.nNow else 0)
    requires |sh.queue| == |after.queue| + n && after.nTodo == Arrive(sh, pc).nTodo
    ensures after.nTodo == Wrap(|after.queue| + n)
  {
    if pc.Running? {
      WrapSub(|sh.queue| + pc.nNow, pc.nNow);
    }
  }

  lemma LoneMasterReturns(start: Shared, sh: Shared, pc: Pc, batches: seq<seq<Check>>, called: seq<Check>)
    requires Underway(start, sh, pc, batches, called) && sh.queue == []
    ensures var (after, outcome) := Decide(Arrive(sh, pc), true);
            && outcome == Return(start.fAllOk && AllPass(start.queue))
            && after == start.(queue := [], nTodo := 0, nTotal := 0, fAllOk := true)
    ensures Flatten(batches) == Reverse(start.queue)
    ensures Sizes(batches) == Drain(|start.queue|, start.nBatchSize, 2)
  {
    LoneMasterCount(sh, pc, Arrive(sh, pc), 0);
    assert Flatten(batches) + [] == Flatten(batches);
    assert Sizes(batches) + [] == Sizes(batches);
    ReverseAllPass(start.queue);
  }

  /** What `Wait` needs to know about one batch. */
  lemma AfterTake(before: seq<Check>, after: seq<Check>, taken: seq<Check>, n: nat)
    requires n <= |before| && (after, taken) == TakeBack(before, n)
    ensures |taken| == n && |after| == |before| - n
    ensures taken + Reverse(after) == Reverse(before)
  {
    hide Reverse;
    var m := |before| - n;
    Rejoin(before, m);
    ReverseAppend(before[..m], before[m..]);
  }

  lemma Rejoin(queue: seq<Check>, m: nat)
    requires m <= |queue|
    ensures queue[..m] + queue[m..] == queue
  {
  }

  lemma DrainTakes(len: nat, nBatchSize: uint32)
    requires len > 0
    ensures BatchOf(len, nBatchSize, 2) <= len
    ensures Drain(len, nBatchSize, 2)
         == [BatchOf(len, nBatchSize, 2)] + Drain(len - BatchOf(len, nBatchSize, 2), nBatchSize, 2)
  {
    BatchFits(len, nBatchSize, 2);
    hide Wrap, BatchOf;
  }

  /** Runs a batch: a check is called only as long as nothing has failed. */
  method Execute(vChecks: seq<Check>, fOkIn: bool) returns (fOk: bool, called: seq<Check>)
    ensures called == Called(vChecks, fOkIn)
    ensures fOk == (fOkIn && AllPass(vChecks))
  {
    fOk, called := fOkIn, [];
    for i := 0 to |vChecks|
      invariant called == Called(vChecks[..i], fOkIn)
      invariant fOk == (fOkIn && AllPass(vChecks[..i]))
    {
      CalledAppend(vChecks[..i], [vChecks[i]], fOkIn);
      assert vChecks[..i + 1] == vChecks[..i] + [vChecks[i]];
      AllPassAppend(vChecks[..i], [vChecks[i]]);
      if fOk {
        fOk := vChecks[i].passes;
        called := called + [vChecks[i]];
      }
    }
    assert vChecks[..|vChecks|] == vChecks;
  }

  function Flatten(batches: seq<seq<Check>>): seq<Check> {
    if batches == [] then [] else Flatten(batches[..|batches| - 1]) + batches[|batches| - 1]
  }

  function Sizes(batches: seq<seq<Check>>): seq<nat> {
    if batches == [] then [] else Sizes(batches[..|batches| - 1]) + [|batches[|batches| - 1]|]
  }

  lemma BatchesAppend(batches: seq<seq<Check>>, b: seq<Check>)
    ensures Flatten(batches + [b]) == Flatten(batches) + b
    ensures Sizes(batches + [b]) == Sizes(batches) + [|b|]
  {
    assert (batches + [b])[..|batches|] == batches;
  }

  /** The controller: a session on a queue that has no worker inside `Loop`, or on nothing at all.
      CheckQueueSessions has controllers over queues with workers. */
  class CheckQueueControl {
    const pqueue: CheckQueue?
    var fDone: bool

    /** Completes once ControlMutex is free. */
    constructor (pqueueIn: CheckQueue?)
      requires pqueueIn != null ==> !pqueueIn.controlLocked
      modifies pqueueIn
      ensures pqueue == pqueueIn && !fDone
      ensures pqueue != null ==> pqueue.controlLocked && pqueue.View() == old(pqueueIn.View())
    {
      pqueue, fDone := pqueueIn, false;
      new;
      if pqueue != null {
        pqueue.controlLocked := true;
      }
    }

    method Wait() returns (fRet: bool)
      requires pqueue != null ==> pqueue.Alone()
      modifies this, pqueue
      ensures pqueue == null ==> fRet && fDone == old(fDone)
      ensures pqueue != null ==> fDone && pqueue.Alone() && pqueue.Fresh()
      ensures pqueue != null ==> fRet == (old(pqueue.fAllOk) && AllPass(old(pqueue.queue)))
      ensures pqueue != null ==> pqueue.controlLocked == old(pqueue.controlLocked)
    {
      if pqueue == null {
        return true;
      }
      var verdict, _, _ := pqueue.Wait();
      fRet := verdict;
      fDone := true;
    }

    method Add(vChecks: array<Check>)
      modifies pqueue, vChecks
      ensures pqueue != null ==> pqueue.View() == Enqueue(old(pqueue.View()), old(vChecks[..]))
      ensures pqueue != null ==> pqueue.controlLocked == old(pqueue.controlLocked)
      ensures pqueue != null ==> forall i :: 0 <= i < vChecks.Length ==> vChecks[i] == DEFAULT_CHECK
      ensures pqueue == null ==> vChecks[..] == old(vChecks[..])
    {
      if pqueue != null {
        var _, _ := pqueue.Add(vChecks);
      }
    }

    /** The destructor.  Without workers it hands on a fresh queue unless checks were added after a
        `Wait`. */
    method Destroy()
      requires pqueue != null ==> pqueue.Alone() && pqueue.controlLocked
      modifies this, pqueue
      ensures pqueue != null ==> pqueue.Alone() && !pqueue.controlLocked
      ensures pqueue != null && !old(fDone) ==> pqueue.Fresh()
      ensures pqueue != null && old(fDone) ==> pqueue.View() == old(pqueue.View())
      ensures pqueue != null && old(pqueue.fAllOk) ==>
                (pqueue.Fresh() <==> !old(fDone) || old(pqueue.queue) == [])
    {
      if !fDone {
        var _ := Wait();
      }
      if pqueue != null {
        pqueue.controlLocked := false;
      }
    }
  }
}
