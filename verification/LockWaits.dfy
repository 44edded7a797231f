/** Threads that use recursive mutexes under the detector: what the recorded pairs say about
    threads that wait for each other. */
module LockWaits {
  import opened LockOrder
  import H = LockHistory

  /** What a thread is doing: nothing of interest; it called EnterCritical and is inside lock() or
      try_lock(); a scope's destructor popped `c` but has not unlocked it; or
      LEAVE_CRITICAL_SECTION unlocked the top of the stack but has not popped it. */
  datatype Mode = Free | Waiting | Trying | Unlocking(c: Lock) | Leaving

  datatype World = World(d: H.State, modes: map<ThreadId, Mode>)

  const START := World(H.START, map[])

  function ModeOf(w: World, t: ThreadId): Mode {
    if t in w.modes then w.modes[t] else Free
  }

  function StackOf(w: World, t: ThreadId): LockStack {
    H.StackOf(w.d.stacks, t)
  }

  /** The locks a thread owns, as often as it locked them. */
  function Held(w: World, t: ThreadId): LockStack {
    match ModeOf(w, t)
    case Free => StackOf(w, t)
    case Unlocking(c) => StackOf(w, t) + [c]
    case _ => ButLast(StackOf(w, t))
  }

  /** A recursive mutex can be locked if no other thread owns it. */
  ghost predicate Available(w: World, t: ThreadId, c: Lock) {
    forall u: ThreadId :: u != t ==> c !in Held(w, u)
  }

  datatype Action =
    | Enter(t: ThreadId, c: Lock)     // EnterCritical, then lock() begins
    | Acquire(t: ThreadId)            // lock() returns
    | TryEnter(t: ThreadId, c: Lock)  // EnterCritical, then try_lock() begins
    | TryEnd(t: ThreadId)             // try_lock() decides; on failure LeaveCritical
    | ScopeEnd(t: ThreadId)           // ~CMutexLock calls LeaveCritical
    | ScopeUnlock(t: ThreadId)        // its unique_lock unlocks
    | LeaveUnlock(t: ThreadId)        // LEAVE_CRITICAL_SECTION unlocks
    | LeavePop(t: ThreadId)           // and calls LeaveCritical
    | Destroy(c: Lock)                // ~CCriticalSection of a lock no thread uses

  function Top(w: World, t: ThreadId): Lock
    requires StackOf(w, t) != []
  {
    StackOf(w, t)[|StackOf(w, t)| - 1]
  }

  ghost predicate Enabled(w: World, a: Action) {
    && !w.d.halted
    && match a
       case Enter(t, _) => ModeOf(w, t) == Free
       case Acquire(t) => ModeOf(w, t) == Waiting && StackOf(w, t) != [] && Available(w, t, Top(w, t))
       case TryEnter(t, _) => ModeOf(w, t) == Free
       case TryEnd(t) => ModeOf(w, t) == Trying && StackOf(w, t) != []
       case ScopeEnd(t) => ModeOf(w, t) == Free && StackOf(w, t) != []
       case ScopeUnlock(t) => ModeOf(w, t).Unlocking?
       case LeaveUnlock(t) => ModeOf(w, t) == Free && StackOf(w, t) != []
       case LeavePop(t) => ModeOf(w, t) == Leaving && StackOf(w, t) != []
       case Destroy(c) => forall t: ThreadId :: c !in StackOf(w, t) && c !in Held(w, t)
  }

  ghost function Apply(w: World, a: Action): World
    requires Enabled(w, a)
  {
    match a
    case Enter(t, c) => World(H.Step(w.d, H.Push(t, c)), w.modes[t := Waiting])
    case Acquire(t) => w.(modes := w.modes[t := Free])
    case TryEnter(t, c) => World(H.Step(w.d, H.Push(t, c)), w.modes[t := Trying])
    case TryEnd(t) =>
      if Available(w, t, Top(w, t)) then w.(modes := w.modes[t := Free])
      else World(H.Step(w.d, H.Pop(t)), w.modes[t := Free])
    case ScopeEnd(t) => World(H.Step(w.d, H.Pop(t)), w.modes[t := Unlocking(Top(w, t))])
    case ScopeUnlock(t) => w.(modes := w.modes[t := Free])
    case LeaveUnlock(t) => w.(modes := w.modes[t := Leaving])
    case LeavePop(t) => World(H.Step(w.d, H.Pop(t)), w.modes[t := Free])
    case Destroy(c) => w.(d := H.Step(w.d, H.Delete(c)))
  }

  // ---- The invariant

  ghost predicate StacksFit(w: World) {
    forall t: ThreadId :: ModeOf(w, t).Waiting? || ModeOf(w, t).Trying? || ModeOf(w, t).Leaving? ==> StackOf(w, t) != []
  }

  ghost predicate Exclusive(w: World) {
    forall t: ThreadId, u: ThreadId, c: Lock :: t != u && c in Held(w, t) ==> c !in Held(w, u)
  }

  /** Every lock that is on a stack for the first time was recorded after all those below it. */
  ghost predicate StackRecorded(o: Orders, stack: LockStack) {
    forall i, j :: 0 <= i < j < |stack| && stack[j] !in stack[..j] ==> (stack[i], stack[j]) in o.lockorders
  }

  ghost predicate AllRecorded(w: World) {
    forall t: ThreadId :: StackRecorded(w.d.orders, StackOf(w, t))
  }

  ghost predicate Inv(w: World) {
    Sound(w.d.orders) && StacksFit(w) && Exclusive(w) && AllRecorded(w)
  }

  /** Each action changes what at most one thread owns, and only two make it own more. */
  lemma ActionOwns(w: World, a: Action)
    requires Enabled(w, a) && StacksFit(w)
    ensures StacksFit(Apply(w, a))
    ensures forall t: ThreadId, c: Lock :: c in Held(Apply(w, a), t) && c !in Held(w, t) ==>
              (a == Acquire(t) || a == TryEnd(t)) && Available(w, t, c)
  {
    hide Scan, Without;
    var v := Apply(w, a);
    forall t: ThreadId | ModeOf(v, t).Waiting? || ModeOf(v, t).Trying? || ModeOf(v, t).Leaving?
      ensures StackOf(v, t) != []
    {
      if a.Destroy? || a.t != t {
        assert ModeOf(v, t) == ModeOf(w, t) && StackOf(v, t) == StackOf(w, t);
      }
    }
    forall t: ThreadId, c: Lock | c in Held(v, t) && c !in Held(w, t)
      ensures (a == Acquire(t) || a == TryEnd(t)) && Available(w, t, c)
    {
      if !a.Destroy? && a.t == t {
        var stack := StackOf(w, t);
        if stack != [] {
          assert stack == ButLast(stack) + [Top(w, t)];
        }
      }
    }
  }

  lemma ActionExcludes(w: World, a: Action)
    requires Enabled(w, a) && StacksFit(w) && Exclusive(w)
    ensures Exclusive(Apply(w, a))
  {
    hide Apply, Enabled, Held;
    ActionOwns(w, a);
  }

  lemma PushRecordsStack(o: Orders, stack: LockStack, c: Lock)
    requires Sound(o) && StackRecorded(o, stack) && !Scan(o, stack + [c], c, 0).1.Some?
    ensures StackRecorded(Scan(o, stack + [c], c, 0).0, stack + [c])
  {
    hide Scan, Below;
    var s := stack + [c];
    PushRecords(o, stack, c);
    forall i, j | 0 <= i < j < |s| && s[j] !in s[..j]
      ensures (s[i], s[j]) in Scan(o, s, c, 0).0.lockorders
    {
      if j == |stack| {
        assert s[..j] == stack;
        BelowIs(s, c, i);
        assert s[..i + 1] == stack[..i + 1];
        assert s[i] in Below(s, c);
      } else {
        assert s[..j] == stack[..j];
      }
    }
  }

  lemma PrefixRecorded(o: Orders, stack: LockStack)
    requires StackRecorded(o, stack)
    ensures StackRecorded(o, ButLast(stack))
  {
    var s := ButLast(stack);
    forall i, j | 0 <= i < j < |s| && s[j] !in s[..j] ensures (s[i], s[j]) in o.lockorders {
      assert s[..j] == stack[..j];
    }
  }

  lemma MoreRecorded(o: Orders, o': Orders, stack: LockStack)
    requires StackRecorded(o, stack)
    requires forall a, b :: (a, b) in o.lockorders && a in stack && b in stack ==> (a, b) in o'.lockorders
    ensures StackRecorded(o', stack)
  {
  }

  lemma PushKeeps(w: World, t: ThreadId, c: Lock)
    requires Sound(w.d.orders) && AllRecorded(w) && !w.d.halted
    requires !H.Step(w.d, H.Push(t, c)).halted
    ensures var d := H.Step(w.d, H.Push(t, c));
            Sound(d.orders) && forall u: ThreadId :: StackRecorded(d.orders, H.StackOf(d.stacks, u))
  {
    hide Scan, Below, Sound, Transposed, Witnessed, StackRecorded;
    var d := H.Step(w.d, H.Push(t, c));
    PushRecords(w.d.orders, StackOf(w, t), c);
    forall u: ThreadId ensures StackRecorded(d.orders, H.StackOf(d.stacks, u)) {
      if u == t {
        PushRecordsStack(w.d.orders, StackOf(w, t), c);
      } else {
        MoreRecorded(w.d.orders, d.orders, StackOf(w, u));
      }
    }
  }

  lemma ActionRecords(w: World, a: Action)
    requires Enabled(w, a) && Sound(w.d.orders) && AllRecorded(w) && !Apply(w, a).d.halted
    ensures Sound(Apply(w, a).d.orders) && AllRecorded(Apply(w, a))
  {
    hide Scan, Below, Available, StackRecorded, Sound, Held;
    var v := Apply(w, a);
    match a {
      case Enter(t, c) => PushKeeps(w, t, c);
      case TryEnter(t, c) => PushKeeps(w, t, c);
      case Destroy(c) =>
        WithoutSound(w.d.orders, c);
        forall u: ThreadId ensures StackRecorded(v.d.orders, StackOf(v, u)) {
          assert c !in StackOf(w, u);
          MoreRecorded(w.d.orders, v.d.orders, StackOf(w, u));
        }
      case _ =>
        forall u: ThreadId ensures StackRecorded(v.d.orders, StackOf(v, u)) {
          PrefixRecorded(w.d.orders, StackOf(w, u));
          assert StackOf(v, u) == StackOf(w, u) || StackOf(v, u) == ButLast(StackOf(w, u));
        }
    }
  }

  ghost predicate Run(ws: seq<World>, acts: seq<Action>) {
    && |ws| == |acts| + 1 && ws[0] == START
    && forall k :: 0 <= k < |acts| ==> Enabled(ws[k], acts[k]) && ws[k + 1] == Apply(ws[k], acts[k])
  }

  lemma {:induction false} RunKeeps(ws: seq<World>, acts: seq<Action>, k: nat)
    requires Run(ws, acts) && k < |ws| && !ws[k].d.halted
    ensures Inv(ws[k])
  {
    hide Enabled, Apply, Held, Exclusive, AllRecorded;
    if k == 0 {
      StartInv();
    } else {
      NoneAfterHalt(ws[k - 1], acts[k - 1]);
      RunKeeps(ws, acts, k - 1);
      ActionOwns(ws[k - 1], acts[k - 1]);
      ActionExcludes(ws[k - 1], acts[k - 1]);
      ActionRecords(ws[k - 1], acts[k - 1]);
    }
  }

  lemma StartInv()
    ensures Inv(START)
  {
  }

  lemma NoneAfterHalt(w: World, a: Action)
    requires Enabled(w, a)
    ensures !w.d.halted
  {
  }

  // ---- Circular waits

  /** The position after i on a circle of n. */
  function After(i: nat, n: nat): nat {
    if i + 1 < n then i + 1 else 0
  }

  /** Each thread waits for a lock that the next one, another thread, owns; the last one waits for
      the first. */
  ghost predicate CircularWait(w: World, ts: seq<ThreadId>) {
    && ts != []
    && forall k: nat :: k < |ts| ==> WaitsFor(w, ts[k], ts[After(k, |ts|)])
  }

  ghost predicate WaitsFor(w: World, t: ThreadId, u: ThreadId) {
    t != u && ModeOf(w, t) == Waiting && StackOf(w, t) != [] && Top(w, t) in Held(w, u)
  }

  /** A thread in the middle of a chain of waits locked what is wanted from it before what it
      wants. */
  lemma ChainLink(w: World, t: ThreadId, u: ThreadId, v: ThreadId)
    requires Inv(w) && WaitsFor(w, t, u) && WaitsFor(w, u, v)
    ensures (Top(w, t), Top(w, u)) in w.d.orders.lockorders
  {
    var stack := StackOf(w, u);
    assert Held(w, u) == stack[..|stack| - 1];
    var i :| 0 <= i < |stack| - 1 && stack[i] == Top(w, t);
    assert Top(w, u) !in stack[..|stack| - 1];
    assert StackRecorded(w.d.orders, stack);
  }

  ghost predicate RecordedLink(w: World, t: ThreadId, u: ThreadId) {
    && StackOf(w, t) != [] && StackOf(w, u) != []
    && (Top(w, t), Top(w, u)) in w.d.orders.lockorders
  }

  /** In every reachable state that has not halted, a circular wait, of any length, is a closed
      chain of recorded pairs. */
  lemma CircularWaitIsRecorded(ws: seq<World>, acts: seq<Action>, k: nat, ts: seq<ThreadId>)
    requires Run(ws, acts) && k < |ws| && !ws[k].d.halted && CircularWait(ws[k], ts)
    ensures forall i: nat :: i < |ts| ==> RecordedLink(ws[k], ts[i], ts[After(i, |ts|)])
  {
    hide Inv, Run;
    RunKeeps(ws, acts, k);
    forall i: nat | i < |ts|
      ensures RecordedLink(ws[k], ts[i], ts[After(i, |ts|)])
    {
      var j := After(i, |ts|);
      assert WaitsFor(ws[k], ts[i], ts[j]);
      assert WaitsFor(ws[k], ts[j], ts[After(j, |ts|)]);
      ChainLink(ws[k], ts[i], ts[j], ts[After(j, |ts|)]);
    }
  }

  /** Hence two threads never wait for each other unless the detector has halted the run. */
  lemma NoTwoThreadDeadlock(ws: seq<World>, acts: seq<Action>, k: nat, t: ThreadId, u: ThreadId)
    requires Run(ws, acts) && k < |ws| && !ws[k].d.halted
    ensures !(WaitsFor(ws[k], t, u) && WaitsFor(ws[k], u, t))
  {
    hide Apply, Enabled;
    RunKeeps(ws, acts, k);
    if WaitsFor(ws[k], t, u) && WaitsFor(ws[k], u, t) {
      ChainLink(ws[k], t, u, t);
      ChainLink(ws[k], u, t, u);
    }
  }
}
