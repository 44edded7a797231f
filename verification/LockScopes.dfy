/** LOCK, LOCK2, TRY_LOCK and the ENTER/LEAVE pair as scopes over one thread's lock stack. */
module LockScopes {
  import opened LockOrder
  import H = LockHistory

  /** What EnterCritical tells the detector. */
  method EnterCritical(d: LockData, t: ThreadId, c: Lock)
    requires !d.halted
    modifies d
    ensures d.Stack(t) == old(d.Stack(t)) + [c]
    ensures forall u :: u != t ==> d.Stack(u) == old(d.Stack(u))
    ensures H.StateOf(d) == H.Continue(old(H.StateOf(d)), [H.Push(t, c)])
  {
    H.ContinueOne(H.StateOf(d), H.Push(t, c));
    hide Scan, H.Continue;
    var _ := d.PushLock(t, c);
  }

  /** And LeaveCritical. */
  method LeaveCritical(d: LockData, t: ThreadId)
    requires !d.halted && d.Stack(t) != []
    modifies d
    ensures d.View() == old(d.View()) && !d.halted
    ensures d.Stack(t) == ButLast(old(d.Stack(t)))
    ensures forall u :: u != t ==> d.Stack(u) == old(d.Stack(u))
    ensures H.StateOf(d) == H.Continue(old(H.StateOf(d)), [H.Pop(t)])
  {
    H.ContinueOne(H.StateOf(d), H.Pop(t));
    hide Scan, H.Continue;
    d.PopLock(t);
  }

  /** TryEnter; `free` is what try_lock() finds. */
  method TryEnter(d: LockData, t: ThreadId, c: Lock, free: bool) returns (owns: bool)
    requires !d.halted
    modifies d
    ensures owns == free
    ensures !d.halted ==> d.Stack(t) == old(d.Stack(t)) + Locked(Some(c), owns)
    ensures forall u :: u != t ==> d.Stack(u) == old(d.Stack(u))
    ensures H.StateOf(d) == H.Continue(old(H.StateOf(d)), Opening(t, Some(c), owns))
  {
    OpeningInTwo(H.StateOf(d), t, Some(c));
    hide H.Continue, H.Step, Opening;
    owns := free;
    EnterCritical(d, t, c);
    if !d.halted && !owns {
      LeaveCritical(d, t);
    }
  }

  /** CMutexLock: a unique_lock on `mutex`, or on nothing when a null pointer was passed. */
  class MutexLock {
    const mutex: Option<Lock>
    var owns: bool

    /** `free` is what try_lock() finds; a plain Enter returns only when it has the lock. */
    constructor (d: LockData, t: ThreadId, pmutex: Option<Lock>, fTry: bool, free: bool)
      requires !d.halted
      modifies d
      ensures mutex == pmutex
      ensures !d.halted ==> owns == (pmutex.Some? && Gets(fTry, free))
      ensures !d.halted ==> d.Stack(t) == old(d.Stack(t)) + Locked(pmutex, owns)
      ensures forall u :: u != t ==> d.Stack(u) == old(d.Stack(u))
      ensures H.StateOf(d) == H.Continue(old(H.StateOf(d)), Opening(t, pmutex, Gets(fTry, free)))
    {
      hide Scan, H.Continue, H.Step;
      mutex, owns := pmutex, false;
      new;
      if pmutex.None? {
        OpeningInTwo(H.StateOf(d), t, pmutex);
      } else if fTry {
        owns := TryEnter(d, t, pmutex.value, free);
      } else {
        EnterCritical(d, t, pmutex.value);
        owns := true;
      }
    }

    /** The destructor. */
    method Destroy(d: LockData, t: ThreadId)
      requires !d.halted && (owns ==> d.Stack(t) != [])
      modifies d
      ensures d.View() == old(d.View()) && d.halted == old(d.halted)
      ensures d.Stack(t) == if owns then ButLast(old(d.Stack(t))) else old(d.Stack(t))
      ensures forall u :: u != t ==> d.Stack(u) == old(d.Stack(u))
      ensures H.StateOf(d) == H.Continue(old(H.StateOf(d)), Closing(t, owns))
    {
      if owns {
        LeaveCritical(d, t);
      }
    }
  }

  /** Whether an attempt ends with the lock: lock() does, try_lock() if it finds it free. */
  predicate Gets(fTry: bool, free: bool) {
    !fTry || free
  }

  function Locked(m: Option<Lock>, owns: bool): LockStack {
    if m.Some? && owns then [m.value] else []
  }

  /** What the detector is told by a lock attempt: a failed one takes its push back. */
  function Opening(t: ThreadId, m: Option<Lock>, owns: bool): seq<H.Event> {
    if m.None? then [] else if owns then [H.Push(t, m.value)] else [H.Push(t, m.value), H.Pop(t)]
  }

  lemma OpeningInTwo(s: H.State, t: ThreadId, m: Option<Lock>)
    ensures m.None? ==> forall owns :: H.Continue(s, Opening(t, m, owns)) == s
    ensures m.Some? ==>
              var r := H.Continue(s, [H.Push(t, m.value)]);
              && H.Continue(s, Opening(t, m, true)) == r
              && H.Continue(s, Opening(t, m, false)) == if r.halted then r else H.Continue(r, [H.Pop(t)])
  {
    hide H.Step;
    if m.Some? {
      var push, pop := [H.Push(t, m.value)], [H.Pop(t)];
      H.ContinueTwice(s, push, pop);
      assert push + pop == Opening(t, m, false);
      if H.Continue(s, push).halted {
        H.HaltIsFinal(H.Continue(s, push), pop);
      }
    }
  }

  function Closing(t: ThreadId, owns: bool): seq<H.Event> {
    if owns then [H.Pop(t)] else []
  }

  /** Programs of nested scopes.  A TRY_LOCK carries what try_lock() finds when it gets there. */
  datatype Block =
    | Empty
    | Seq(first: Block, second: Block)
    | Lock(m: Option<Lock>, body: Block)
    | Lock2(m1: Option<Lock>, m2: Option<Lock>, body: Block)
    | TryLock(m: Option<Lock>, free: bool, body: Block)
    | EnterLeave(c: Lock, body: Block)

  /** The locks a thread that owns `held` owns inside each body of `b`, in the order of execution:
      read off the program text alone. */
  function Owned(b: Block, held: LockStack): seq<LockStack>
    decreases b, 0
  {
    match b
    case Empty => []
    case Seq(first, second) => Owned(first, held) + Owned(second, held)
    case Lock(m, body) => Inside(body, held + Locked(m, true))
    case Lock2(m1, m2, body) => Inside(body, held + Locked(m1, true) + Locked(m2, true))
    case TryLock(m, free, body) => Inside(body, held + Locked(m, free))
    case EnterLeave(c, body) => Inside(body, held + [c])
  }

  function Inside(body: Block, held: LockStack): seq<LockStack>
    decreases body, 1
  {
    [held] + Owned(body, held)
  }

  /** What the detector is told while thread t runs `b`: read off the program text as well. */
  function Events(t: ThreadId, b: Block): seq<H.Event> {
    match b
    case Empty => []
    case Seq(first, second) => Events(t, first) + Events(t, second)
    case Lock(m, body) => Opening(t, m, true) + Events(t, body) + Closing(t, m.Some?)
    case Lock2(m1, m2, body) =>
      Opening(t, m1, true)
      + (Opening(t, m2, true) + Events(t, body) + Closing(t, m2.Some?))
      + Closing(t, m1.Some?)
    case TryLock(m, free, body) => Opening(t, m, free) + Events(t, body) + Closing(t, m.Some? && free)
    case EnterLeave(c, body) => [H.Push(t, c)] + Events(t, body) + [H.Pop(t)]
  }

  /** Whatever the program and whichever tries fail, the detector is told exactly the events of the
      program text, up to a halt.  A run that it does not stop leaves the lock stack as it found it,
      and inside every body the stack is the list of locks owned. */
  method Execute(d: LockData, t: ThreadId, b: Block) returns (seen: seq<LockStack>)
    requires !d.halted
    modifies d
    ensures H.StateOf(d) == H.Continue(old(H.StateOf(d)), Events(t, b))
    ensures !d.halted ==> d.Stack(t) == old(d.Stack(t))
    ensures !d.halted ==> seen == Owned(b, old(d.Stack(t)))
    ensures forall u :: u != t ==> d.Stack(u) == old(d.Stack(u))
    decreases b, 1
  {
    hide Scan, Below, Inside, Locked, H.Step;
    match b {
      case Empty => seen := [];
      case Seq(first, second) => seen := ExecuteSeq(d, t, first, second);
      case Lock(m, body) => seen := ExecuteScope(d, t, m, false, true, body);
      case Lock2(m1, m2, body) => seen := ExecuteScope2(d, t, m1, m2, body);
      case TryLock(m, free, body) => seen := ExecuteScope(d, t, m, true, free, body);
      case EnterLeave(c, body) => seen := ExecuteEnterLeave(d, t, c, body);
    }
  }

  method ExecuteSeq(d: LockData, t: ThreadId, first: Block, second: Block) returns (seen: seq<LockStack>)
    requires !d.halted
    modifies d
    ensures H.StateOf(d) == H.Continue(old(H.StateOf(d)), Events(t, first) + Events(t, second))
    ensures !d.halted ==> d.Stack(t) == old(d.Stack(t))
    ensures !d.halted ==> seen == Owned(first, old(d.Stack(t))) + Owned(second, old(d.Stack(t)))
    ensures forall u :: u != t ==> d.Stack(u) == old(d.Stack(u))
    decreases Seq(first, second), 0
  {
    hide Scan, Below, Owned, Inside, Locked, H.Continue, H.Step, Events;
    H.ContinueTwice(H.StateOf(d), Events(t, first), Events(t, second));
    seen := Execute(d, t, first);
    if d.halted {
      H.HaltIsFinal(H.StateOf(d), Events(t, second));
      return;
    }
    var more := Execute(d, t, second);
    seen := seen + more;
  }

  /** ENTER_CRITICAL_SECTION, a body, LEAVE_CRITICAL_SECTION. */
  method ExecuteEnterLeave(d: LockData, t: ThreadId, c: Lock, body: Block) returns (seen: seq<LockStack>)
    requires !d.halted
    modifies d
    ensures H.StateOf(d) == H.Continue(old(H.StateOf(d)), [H.Push(t, c)] + Events(t, body) + [H.Pop(t)])
    ensures !d.halted ==> d.Stack(t) == old(d.Stack(t))
    ensures !d.halted ==> seen == Inside(body, old(d.Stack(t)) + [c])
    ensures forall u :: u != t ==> d.Stack(u) == old(d.Stack(u))
    decreases body, 3
  {
    hide Scan, Below, Owned, Inside, H.Continue, H.Step, Events;
    H.InStages(H.StateOf(d), [H.Push(t, c)], Events(t, body), [H.Pop(t)]);
    EnterCritical(d, t, c);
    if d.halted { return []; }
    seen := ExecuteBody(d, t, body);
    if d.halted { return; }
    LeaveCritical(d, t);
  }

  /** One CMutexLock around a body. */
  method ExecuteScope(d: LockData, t: ThreadId, m: Option<Lock>, fTry: bool, free: bool, body: Block)
    returns (seen: seq<LockStack>)
    requires !d.halted
    modifies d
    ensures H.StateOf(d) == H.Continue(old(H.StateOf(d)),
              Opening(t, m, Gets(fTry, free)) + Events(t, body) + Closing(t, m.Some? && Gets(fTry, free)))
    ensures !d.halted ==> d.Stack(t) == old(d.Stack(t))
    ensures !d.halted ==> seen == Inside(body, old(d.Stack(t)) + Locked(m, Gets(fTry, free)))
    ensures forall u :: u != t ==> d.Stack(u) == old(d.Stack(u))
    decreases body, 3
  {
    hide Scan, Below, Owned, Inside, Gets, H.Continue, H.Step, Events, Opening, Closing;
    H.InStages(H.StateOf(d), Opening(t, m, Gets(fTry, free)), Events(t, body), Closing(t, m.Some? && Gets(fTry, free)));
    var lock := new MutexLock(d, t, m, fTry, free);
    if d.halted { return []; }
    seen := ExecuteBody(d, t, body);
    if d.halted { return; }
    lock.Destroy(d, t);
  }

  /** Two CMutexLocks, destroyed in the opposite order. */
  method ExecuteScope2(d: LockData, t: ThreadId, m1: Option<Lock>, m2: Option<Lock>, body: Block)
    returns (seen: seq<LockStack>)
    requires !d.halted
    modifies d
    ensures H.StateOf(d) == H.Continue(old(H.StateOf(d)),
              Opening(t, m1, true)
              + (Opening(t, m2, true) + Events(t, body) + Closing(t, m2.Some?))
              + Closing(t, m1.Some?))
    ensures !d.halted ==> d.Stack(t) == old(d.Stack(t))
    ensures !d.halted ==> seen == Inside(body, old(d.Stack(t)) + Locked(m1, true) + Locked(m2, true))
    ensures forall u :: u != t ==> d.Stack(u) == old(d.Stack(u))
    decreases body, 4
  {
    hide Scan, Below, Owned, Inside, H.Continue, H.Step, Events, Opening, Closing;
    H.InStages(H.StateOf(d), Opening(t, m1, true),
               Opening(t, m2, true) + Events(t, body) + Closing(t, m2.Some?), Closing(t, m1.Some?));
    var lock := new MutexLock(d, t, m1, false, true);
    if d.halted { return []; }
    seen := ExecuteScope(d, t, m2, false, true, body);
    if d.halted { return; }
    lock.Destroy(d, t);
  }

  method ExecuteBody(d: LockData, t: ThreadId, body: Block) returns (seen: seq<LockStack>)
    requires !d.halted
    modifies d
    ensures H.StateOf(d) == H.Continue(old(H.StateOf(d)), Events(t, body))
    ensures !d.halted ==> d.Stack(t) == old(d.Stack(t))
    ensures !d.halted ==> seen == Inside(body, old(d.Stack(t)))
    ensures forall u :: u != t ==> d.Stack(u) == old(d.Stack(u))
    decreases body, 2
  {
    var here := d.Stack(t);
    seen := Execute(d, t, body);
    seen := [here] + seen;
  }

  // ---- What the events of a block do

  /** Thread t pops only what it pushed, and ends with the stack it began with. */
  ghost predicate Neutral(h: seq<H.Event>, t: ThreadId, es: seq<H.Event>) {
    H.PopsOwn(h, es) && H.HistoryStack(h + es, t) == H.HistoryStack(h, t)
  }

  lemma PopsOwnTwice(h: seq<H.Event>, es: seq<H.Event>, more: seq<H.Event>)
    requires H.PopsOwn(h, es) && H.PopsOwn(h + es, more)
    ensures H.PopsOwn(h, es + more)
  {
    hide H.HistoryStack;
    forall k | 0 <= k < |es + more| && (es + more)[k].Pop?
      ensures H.HistoryStack(h + (es + more)[..k], (es + more)[k].t) != []
    {
      if k < |es| {
        assert (es + more)[..k] == es[..k];
      } else {
        assert h + (es + more)[..k] == (h + es) + more[..k - |es|];
      }
    }
  }

  lemma NeutralTwice(h: seq<H.Event>, t: ThreadId, es: seq<H.Event>, more: seq<H.Event>)
    requires Neutral(h, t, es) && Neutral(h + es, t, more)
    ensures Neutral(h, t, es + more)
  {
    hide H.HistoryStack, H.PopsOwn;
    PopsOwnTwice(h, es, more);
    assert h + (es + more) == (h + es) + more;
  }

  lemma PairNeutral(h: seq<H.Event>, t: ThreadId, c: Lock, es: seq<H.Event>)
    requires Neutral(h + [H.Push(t, c)], t, es)
    ensures Neutral(h, t, [H.Push(t, c)] + es + [H.Pop(t)])
  {
    hide H.HistoryStack, H.PopsOwn;
    var push, pop := [H.Push(t, c)], [H.Pop(t)];
    var g := h + push + es;
    StackOfMore(h, push[0], t);
    StackOfMore(g, pop[0], t);
    OnePopsOwn(h, push[0]);
    PopsOwnTwice(h, push, es);
    assert h + (push + es) == g;
    OnePopsOwn(g, pop[0]);
    PopsOwnTwice(h, push + es, pop);
    assert h + (push + es + pop) == g + pop;
  }

  lemma OnePopsOwn(h: seq<H.Event>, e: H.Event)
    requires e.Pop? ==> H.HistoryStack(h, e.t) != []
    ensures H.PopsOwn(h, [e])
  {
    hide H.HistoryStack;
    assert h + [e][..0] == h;
  }

  lemma StackOfMore(h: seq<H.Event>, e: H.Event, t: ThreadId)
    ensures e == H.Pop(t) ==> H.HistoryStack(h + [e], t) == ButLast(H.HistoryStack(h, t))
    ensures e.Push? && e.t == t ==> H.HistoryStack(h + [e], t) == H.HistoryStack(h, t) + [e.c]
  {
    assert (h + [e])[..|h|] == h;
  }

  lemma NothingNeutral(h: seq<H.Event>, t: ThreadId)
    ensures Neutral(h, t, [])
  {
    assert h + [] == h;
  }

  /** A lock attempt around a neutral body. */
  lemma ScopeNeutral(h: seq<H.Event>, t: ThreadId, m: Option<Lock>, owns: bool, es: seq<H.Event>)
    requires forall g :: Neutral(g, t, es)
    ensures Neutral(h, t, Opening(t, m, owns) + es + Closing(t, m.Some? && owns))
  {
    hide Neutral;
    if m.None? {
      assert [] + es + [] == es;
    } else if owns {
      PairNeutral(h, t, m.value, es);
    } else {
      var push, pop := [H.Push(t, m.value)], [H.Pop(t)];
      NothingNeutral(h + push, t);
      PairNeutral(h, t, m.value, []);
      assert push + [] + pop == Opening(t, m, false);
      NeutralTwice(h, t, Opening(t, m, false), es);
      assert Opening(t, m, false) + es + [] == Opening(t, m, false) + es;
    }
  }

  /** Every block is neutral, whatever came before. */
  lemma {:induction false} BlockNeutral(h: seq<H.Event>, t: ThreadId, b: Block)
    ensures Neutral(h, t, Events(t, b))
    decreases b
  {
    hide Neutral, Opening, Closing;
    match b {
      case Empty => NothingNeutral(h, t);
      case Seq(first, second) =>
        BlockNeutral(h, t, first);
        BlockNeutral(h + Events(t, first), t, second);
        NeutralTwice(h, t, Events(t, first), Events(t, second));
      case Lock(m, body) =>
        forall g ensures Neutral(g, t, Events(t, body)) { BlockNeutral(g, t, body); }
        ScopeNeutral(h, t, m, true, Events(t, body));
      case Lock2(m1, m2, body) =>
        forall g ensures Neutral(g, t, Events(t, body)) { BlockNeutral(g, t, body); }
        var inner := Opening(t, m2, true) + Events(t, body) + Closing(t, m2.Some?);
        forall g ensures Neutral(g, t, inner) { ScopeNeutral(g, t, m2, true, Events(t, body)); }
        ScopeNeutral(h, t, m1, true, inner);
      case TryLock(m, free, body) =>
        forall g ensures Neutral(g, t, Events(t, body)) { BlockNeutral(g, t, body); }
        ScopeNeutral(h, t, m, free, Events(t, body));
      case EnterLeave(c, body) =>
        BlockNeutral(h + [H.Push(t, c)], t, body);
        PairNeutral(h, t, c, Events(t, body));
    }
  }

  /** When a block is stopped, told from the history and the program text alone: on a live detector
      with history h it is if and only if one of its lock attempts reverses a recorded order. */
  lemma BlockHaltsIff(h: seq<H.Event>, t: ThreadId, b: Block)
    requires H.Legal(h) && !H.Exec(h).halted
    ensures var es := Events(t, b);
            var after := H.Continue(H.Exec(h), es);
            && (after.halted <==> exists k :: 0 <= k < |es| && H.Reversal(h + es[..k], es[k]))
            && (!after.halted ==> H.Legal(h + es) && H.Exec(h + es) == after)
  {
    hide H.Legal, H.Exec, H.Continue, H.PopsOwn, H.Reversal, Events;
    BlockNeutral(h, t, b);
    H.ContinuationHaltsIff(h, Events(t, b));
    H.ExecContinues(h, Events(t, b));
  }
}
