/** Who owns what, and what the detector was told, counted from the actions alone. */
module LockOwners {
  import opened LockOrder
  import opened LockWaits
  import H = LockHistory

  /** The lock thread t last set out to get. */
  function Wanted(acts: seq<Action>, t: ThreadId): Lock {
    if acts == [] then 0
    else
      match acts[|acts| - 1]
      case Enter(u, c) => if u == t then c else Wanted(acts[..|acts| - 1], t)
      case TryEnter(u, c) => if u == t then c else Wanted(acts[..|acts| - 1], t)
      case _ => Wanted(acts[..|acts| - 1], t)
  }

  /** The locks t acquired, by lock() or by a try that found the lock without another owner, and has
      not unlocked. */
  ghost function Owned(acts: seq<Action>, t: ThreadId): LockStack
    decreases |acts|, 0
  {
    if acts == [] then []
    else
      var before := acts[..|acts| - 1];
      match acts[|acts| - 1]
      case Acquire(u) => if u == t then Owned(before, t) + [Wanted(before, t)] else Owned(before, t)
      case TryEnd(u) =>
        if u == t && Succeeds(before, t) then Owned(before, t) + [Wanted(before, t)] else Owned(before, t)
      case ScopeUnlock(u) => if u == t then ButLast(Owned(before, t)) else Owned(before, t)
      case LeaveUnlock(u) => if u == t then ButLast(Owned(before, t)) else Owned(before, t)
      case _ => Owned(before, t)
  }

  /** Whether a try of t succeeds now: no other thread owns the lock. */
  ghost predicate Succeeds(acts: seq<Action>, t: ThreadId)
    decreases |acts|, 1
  {
    forall u: ThreadId :: u != t ==> Wanted(acts, t) !in Owned(acts, u)
  }

  /** What the detector is told by an action that follows `acts`. */
  ghost function Tells(acts: seq<Action>, a: Action): seq<H.Event> {
    match a
    case Enter(t, c) => [H.Push(t, c)]
    case TryEnter(t, c) => [H.Push(t, c)]
    case TryEnd(t) => if Succeeds(acts, t) then [] else [H.Pop(t)]
    case ScopeEnd(t) => [H.Pop(t)]
    case LeavePop(t) => [H.Pop(t)]
    case Destroy(c) => [H.Delete(c)]
    case _ => []
  }

  ghost function Told(acts: seq<Action>): seq<H.Event> {
    if acts == [] then []
    else Told(acts[..|acts| - 1]) + Tells(acts[..|acts| - 1], acts[|acts| - 1])
  }

  /** The world and the actions agree on thread t. */
  ghost predicate Agrees(w: World, acts: seq<Action>, t: ThreadId) {
    && Held(w, t) == Owned(acts, t)
    && (ModeOf(w, t).Waiting? || ModeOf(w, t).Trying? ==> StackOf(w, t) != [] && Top(w, t) == Wanted(acts, t))
  }

  lemma AgreesStep(w: World, acts: seq<Action>, a: Action, t: ThreadId)
    requires Enabled(w, a) && StacksFit(w) && forall u: ThreadId :: Agrees(w, acts, u)
    ensures Agrees(Apply(w, a), acts + [a], t)
  {
    hide Scan, Without, Owned, Succeeds, Available, Held;
    OwnedStep(acts, a, t);
    WantedStep(acts, a, t);
    assert Agrees(w, acts, t);
    if a.Destroy? || a.t != t {
      OthersAgree(w, a, t);
    } else {
      if a.TryEnd? {
        TryFinds(w, acts, t);
      }
      OwnMove(w, a);
    }
  }

  lemma WantedStep(acts: seq<Action>, a: Action, t: ThreadId)
    ensures Wanted(acts + [a], t) ==
            if (a.Enter? || a.TryEnter?) && a.t == t then a.c else Wanted(acts, t)
  {
    assert (acts + [a])[..|acts|] == acts;
  }

  lemma OthersAgree(w: World, a: Action, t: ThreadId)
    requires Enabled(w, a) && (a.Destroy? || a.t != t)
    ensures ModeOf(Apply(w, a), t) == ModeOf(w, t) && StackOf(Apply(w, a), t) == StackOf(w, t)
    ensures Held(Apply(w, a), t) == Held(w, t)
  {
    hide Scan, Without, Available;
  }

  /** What an action does to the thread that takes it. */
  lemma OwnMove(w: World, a: Action)
    requires Enabled(w, a) && StacksFit(w) && !a.Destroy?
    ensures var v, t := Apply(w, a), a.t;
            && (a.Enter? || a.TryEnter? ==> StackOf(v, t) != [] && Top(v, t) == a.c)
            && (ModeOf(v, t).Waiting? || ModeOf(v, t).Trying? ==> a.Enter? || a.TryEnter?)
            && Held(v, t) ==
               if a.Acquire? || (a.TryEnd? && Available(w, t, Top(w, t))) then Held(w, t) + [Top(w, t)]
               else if a.ScopeUnlock? || a.LeaveUnlock? then ButLast(Held(w, t))
               else Held(w, t)
  {
    hide Scan, Without, Available, Enabled, Apply, Held, StacksFit;
    if a.Enter? || a.TryEnter? {
      PushMove(w, a);
    } else {
      OtherMove(w, a);
    }
  }

  lemma PushMove(w: World, a: Action)
    requires Enabled(w, a) && (a.Enter? || a.TryEnter?)
    ensures var v, t := Apply(w, a), a.t;
            StackOf(v, t) != [] && Top(v, t) == a.c && Held(v, t) == Held(w, t)
  {
    hide Scan, Without, Available;
    assert ButLast(StackOf(w, a.t) + [a.c]) == StackOf(w, a.t);
  }

  lemma OtherMove(w: World, a: Action)
    requires Enabled(w, a) && StacksFit(w) && !a.Destroy? && !a.Enter? && !a.TryEnter?
    ensures var v, t := Apply(w, a), a.t;
            && !ModeOf(v, t).Waiting? && !ModeOf(v, t).Trying?
            && Held(v, t) ==
               if a.Acquire? || (a.TryEnd? && Available(w, t, Top(w, t))) then Held(w, t) + [Top(w, t)]
               else if a.ScopeUnlock? || a.LeaveUnlock? then ButLast(Held(w, t))
               else Held(w, t)
  {
    hide Scan, Without, Available;
    var stack := StackOf(w, a.t);
    assert stack != [] ==> stack == ButLast(stack) + [Top(w, a.t)];
  }

  lemma OwnedStep(acts: seq<Action>, a: Action, t: ThreadId)
    ensures Owned(acts + [a], t) ==
            if (a == Acquire(t) || (a == TryEnd(t) && Succeeds(acts, t))) then Owned(acts, t) + [Wanted(acts, t)]
            else if a == ScopeUnlock(t) || a == LeaveUnlock(t) then ButLast(Owned(acts, t))
            else Owned(acts, t)
  {
    assert (acts + [a])[..|acts|] == acts;
  }

  lemma TryFinds(w: World, acts: seq<Action>, t: ThreadId)
    requires forall u: ThreadId :: Agrees(w, acts, u)
    requires ModeOf(w, t).Trying? && StackOf(w, t) != []
    ensures Available(w, t, Top(w, t)) <==> Succeeds(acts, t)
  {
    hide Held, Owned;
    assert Agrees(w, acts, t);
    assert forall u: ThreadId :: Held(w, u) == Owned(acts, u) by {
      forall u: ThreadId ensures Held(w, u) == Owned(acts, u) {
        assert Agrees(w, acts, u);
      }
    }
  }

  lemma ToldStep(w: World, acts: seq<Action>, a: Action)
    requires Enabled(w, a) && StacksFit(w) && forall u: ThreadId :: Agrees(w, acts, u)
    requires w.d == H.Exec(Told(acts)) && H.Legal(Told(acts))
    ensures Apply(w, a).d == H.Exec(Told(acts + [a])) && H.Legal(Told(acts + [a]))
  {
    hide H.Exec, H.Legal, H.Step, Owned, Succeeds, Available, Agrees;
    assert (acts + [a])[..|acts|] == acts;
    if a.TryEnd? {
      TryFinds(w, acts, a.t);
    }
    var es := Tells(acts, a);
    assert Told(acts) + [] == Told(acts);
    if es != [] {
      assert es == [es[0]];
      H.ExecOneMore(Told(acts), es[0]);
    }
  }

  /** In every reachable state each thread owns exactly what its own actions got it and have not
      given back; a thread between two scopes has just that on its stack; and the detector is where
      the history that the actions tell it leads. */
  lemma {:induction false} ActionsTellAll(ws: seq<World>, acts: seq<Action>, k: nat)
    requires Run(ws, acts) && k < |ws|
    ensures StacksFit(ws[k]) && forall t: ThreadId :: Agrees(ws[k], acts[..k], t)
    ensures ws[k].d == H.Exec(Told(acts[..k])) && H.Legal(Told(acts[..k]))
  {
    hide Enabled, Apply, Held, Owned, Told, H.Exec, H.Legal;
    if k == 0 {
      StartAgrees();
    } else {
      ActionsTellAll(ws, acts, k - 1);
      var before, a := acts[..k - 1], acts[k - 1];
      assert acts[..k] == before + [a];
      ActionOwns(ws[k - 1], a);
      ToldStep(ws[k - 1], before, a);
      forall t: ThreadId ensures Agrees(ws[k], before + [a], t) {
        AgreesStep(ws[k - 1], before, a, t);
      }
    }
  }

  lemma StartAgrees()
    ensures StacksFit(START) && forall t: ThreadId :: Agrees(START, [], t)
    ensures START.d == H.Exec(Told([])) && H.Legal(Told([]))
  {
  }

  /** So ownership is what the actions say; outside lock(), try_lock() and the two halves of leaving,
      the lock stack lists it. */
  lemma OwnershipIsCounted(ws: seq<World>, acts: seq<Action>, k: nat, t: ThreadId)
    requires Run(ws, acts) && k < |ws|
    ensures Held(ws[k], t) == Owned(acts[..k], t)
    ensures ModeOf(ws[k], t).Free? ==> StackOf(ws[k], t) == Owned(acts[..k], t)
  {
    hide Owned;
    ActionsTellAll(ws, acts, k);
    assert Agrees(ws[k], acts[..k], t);
  }

  /** A try gives its thread the lock if and only if no other thread owns it; otherwise the stack is
      as it was before the try began. */
  lemma TryEndIff(w: World, t: ThreadId)
    requires Enabled(w, TryEnd(t))
    ensures var v, c := Apply(w, TryEnd(t)), Top(w, t);
            && ModeOf(v, t).Free?
            && Held(v, t) == StackOf(v, t) == Held(w, t) + (if Available(w, t, c) then [c] else [])
  {
    assert StackOf(w, t) == ButLast(StackOf(w, t)) + [Top(w, t)];
  }

  /** Nobody is held up but by an owner: in a live reachable state a thread that is not free can go
      on, unless it waits for another thread that owns the lock. */
  lemma OnlyOwnersBlock(ws: seq<World>, acts: seq<Action>, k: nat, t: ThreadId)
    requires Run(ws, acts) && k < |ws| && !ws[k].d.halted && ModeOf(ws[k], t) != Free
    ensures var next := match ModeOf(ws[k], t)
                        case Waiting => Acquire(t)
                        case Trying => TryEnd(t)
                        case Unlocking(_) => ScopeUnlock(t)
                        case _ => LeavePop(t);
            Enabled(ws[k], next) <==> !exists u: ThreadId :: WaitsFor(ws[k], t, u)
  {
    hide Run, Held, Owned, H.Exec, H.Legal, Told, Agrees;
    ActionsTellAll(ws, acts, k);
    var w := ws[k];
    if ModeOf(w, t).Waiting? {
      forall u: ThreadId ensures WaitsFor(w, t, u) <==> u != t && Top(w, t) in Held(w, u) {}
    }
  }
}
