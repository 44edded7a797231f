/** All interleavings of threads that wait, try and post on one semaphore.  `post` increments
    under the mutex but notifies after releasing it, so a post is two events. */
module SemaphoreThreads {
  import S = Semaphore

  /** A thread in `wait` is asleep in condition.wait, or woken and without the mutex yet. */
  datatype Pc = Out | Asleep | Woken

  /** `pending` posts have incremented the value and not notified yet. */
  datatype State = State(value: int, pending: nat, ts: seq<Pc>)

  datatype Event =
    | Wait(i: nat)
    | Resume(i: nat)
    | TryWait
    | Increment
    | Notify(woken: nat)
    | Spurious(i: nat)

  ghost predicate Init(s: State) {
    s.pending == 0 && forall i :: 0 <= i < |s.ts| ==> s.ts[i].Out?
  }

  ghost predicate Sleeper(ts: seq<Pc>, i: int) {
    0 <= i < |ts| && ts[i].Asleep?
  }

  /** notify_one wakes some sleeper if there is one. */
  ghost predicate Enabled(s: State, e: Event) {
    match e
    case Wait(i) => i < |s.ts| && s.ts[i].Out?
    case Resume(i) => i < |s.ts| && s.ts[i].Woken?
    case TryWait => true
    case Increment => true
    case Notify(woken) => s.pending > 0 && ((exists i :: Sleeper(s.ts, i)) ==> Sleeper(s.ts, woken))
    case Spurious(i) => Sleeper(s.ts, i)
  }

  ghost function Apply(s: State, e: Event): State
    requires Enabled(s, e)
  {
    match e
    case Wait(i) => Attempt(s, i)
    case Resume(i) => Attempt(s, i)
    case TryWait => s.(value := S.Take(s.value).0)
    case Increment => s.(value := s.value + 1, pending := s.pending + 1)
    case Notify(woken) =>
      s.(pending := s.pending - 1, ts := if Sleeper(s.ts, woken) then s.ts[woken := Woken] else s.ts)
    case Spurious(i) => s.(ts := s.ts[i := Woken])
  }

  /** A turn of the wait loop. */
  function Attempt(s: State, i: nat): State
    requires i < |s.ts|
  {
    var (value, acquired) := S.Take(s.value);
    if acquired then s.(value := value, ts := s.ts[i := Out])
    else s.(ts := s.ts[i := Asleep])
  }

  function WokenCount(ts: seq<Pc>): nat {
    if ts == [] then 0 else WokenCount(ts[..|ts| - 1]) + Weigh(ts[|ts| - 1])
  }

  function Weigh(pc: Pc): nat {
    if pc.Woken? then 1 else 0
  }

  lemma {:induction false} WokenUpdate(ts: seq<Pc>, i: nat, pc: Pc)
    requires i < |ts|
    ensures WokenCount(ts[i := pc]) + Weigh(ts[i]) == WokenCount(ts) + Weigh(pc)
  {
    var n := |ts| - 1;
    if i == n {
      assert ts[i := pc][..n] == ts[..n];
    } else {
      assert ts[i := pc][..n] == ts[..n][i := pc];
      WokenUpdate(ts[..n], i, pc);
    }
  }

  /** No lost wake-up: while a thread sleeps, every free unit has a notification on its way or a
      woken thread to take it. */
  ghost predicate NoLostWakeup(s: State) {
    (exists i :: Sleeper(s.ts, i)) ==> s.value <= s.pending + WokenCount(s.ts)
  }

  lemma EventKeeps(s: State, e: Event)
    requires Enabled(s, e) && NoLostWakeup(s)
    ensures NoLostWakeup(Apply(s, e))
  {
    hide WokenCount;
    var t := Apply(s, e);
    match e {
      case Wait(i) => WokenUpdate(s.ts, i, t.ts[i]);
      case Resume(i) => WokenUpdate(s.ts, i, t.ts[i]);
      case Notify(woken) =>
        if Sleeper(s.ts, woken) {
          WokenUpdate(s.ts, woken, Woken);
        }
      case Spurious(i) => WokenUpdate(s.ts, i, Woken);
      case _ =>
    }
    if j :| Sleeper(t.ts, j) && t.ts != s.ts {
      assert Sleeper(s.ts, j) || s.value < 1;
    }
  }

  ghost predicate Run(ss: seq<State>, es: seq<Event>) {
    && |ss| == |es| + 1
    && forall k :: 0 <= k < |es| ==> Enabled(ss[k], es[k]) && ss[k + 1] == Apply(ss[k], es[k])
  }

  lemma {:induction false} RunKeeps(ss: seq<State>, es: seq<Event>, k: nat)
    requires Run(ss, es) && Init(ss[0]) && k < |ss|
    ensures NoLostWakeup(ss[k])
  {
    if k > 0 {
      RunKeeps(ss, es, k - 1);
      EventKeeps(ss[k - 1], es[k - 1]);
    }
  }

  // ---- The books of a run

  predicate Turn(e: Event, i: nat) {
    e == Wait(i) || e == Resume(i)
  }

  /** `e` finds a free unit and is there to take one. */
  predicate Succeeds(s: State, e: Event) {
    (e.Wait? || e.Resume? || e.TryWait?) && s.value >= 1
  }

  /** `e` finds a thread to wake. */
  ghost predicate Wakes(s: State, e: Event) {
    e.Spurious? || (e.Notify? && exists i :: Sleeper(s.ts, i))
  }

  function One(b: bool): nat {
    if b then 1 else 0
  }

  /** What happened so far: increments, notifications, turns of woken threads, turns and tries that
      found a unit, and wake-ups. */
  datatype Books = Books(increments: nat, notifies: nat, resumes: nat, successes: nat, wakings: nat)

  /** The books before event `k`, from the events and the states they met. */
  ghost function BooksOf(ss: seq<State>, es: seq<Event>, k: nat): Books
    requires k <= |es| < |ss|
  {
    if k == 0 then Books(0, 0, 0, 0, 0)
    else
      var b, s, e := BooksOf(ss, es, k - 1), ss[k - 1], es[k - 1];
      Books(b.increments + One(e.Increment?), b.notifies + One(e.Notify?), b.resumes + One(e.Resume?),
            b.successes + One(Succeeds(s, e)), b.wakings + One(Wakes(s, e)))
  }

  /** How many calls of `wait` thread `i` made before event `k`, less those that got through. */
  function CallsOpen(ss: seq<State>, es: seq<Event>, k: nat, i: nat): int
    requires k <= |es| < |ss|
  {
    if k == 0 then 0
    else
      var s, e := ss[k - 1], es[k - 1];
      CallsOpen(ss, es, k - 1, i) + One(e == Wait(i)) - One(Turn(e, i) && Succeeds(s, e))
  }

  /** A turn of `wait` ends outside if and only if there was a unit, and asleep otherwise; no other
      thread is touched.  Every success, and nothing else but a post, changes the value. */
  lemma EventBalances(s: State, e: Event)
    requires Enabled(s, e)
    ensures var t := Apply(s, e);
            && |t.ts| == |s.ts|
            && t.value == s.value + One(e.Increment?) - One(Succeeds(s, e))
            && t.pending == s.pending + One(e.Increment?) - One(e.Notify?)
            && WokenCount(t.ts) == WokenCount(s.ts) + One(Wakes(s, e)) - One(e.Resume?)
    ensures forall i: nat :: i < |s.ts| && Turn(e, i) ==>
              Apply(s, e).ts[i] == if Succeeds(s, e) then Out else Asleep
    ensures forall i: nat :: i < |s.ts| && !Turn(e, i) ==> Apply(s, e).ts[i].Out? == s.ts[i].Out?
  {
    hide WokenCount;
    var t := Apply(s, e);
    match e {
      case Wait(i) => WokenUpdate(s.ts, i, t.ts[i]);
      case Resume(i) => WokenUpdate(s.ts, i, t.ts[i]);
      case Notify(woken) =>
        if Sleeper(s.ts, woken) {
          WokenUpdate(s.ts, woken, Woken);
        }
      case Spurious(i) => WokenUpdate(s.ts, i, Woken);
      case _ =>
    }
  }

  /** Units are neither made nor lost: in every run the value is what it was, plus the increments,
      minus the waits and tries that found a unit.  Each increment owes one notification, and each
      wake-up one turn. */
  lemma {:induction false} RunBalances(ss: seq<State>, es: seq<Event>, k: nat)
    requires Run(ss, es) && Init(ss[0]) && k < |ss|
    ensures var b := BooksOf(ss, es, k);
            && ss[k].value == ss[0].value + b.increments - b.successes
            && ss[k].pending == b.increments - b.notifies
            && WokenCount(ss[k].ts) == b.wakings - b.resumes
  {
    hide Apply, Enabled, Succeeds, Wakes;
    if k == 0 {
      NobodyWoken(ss[0].ts);
    } else {
      hide WokenCount;
      RunBalances(ss, es, k - 1);
      EventBalances(ss[k - 1], es[k - 1]);
    }
  }

  lemma {:induction false} NobodyWoken(ts: seq<Pc>)
    requires forall i :: 0 <= i < |ts| ==> ts[i].Out?
    ensures WokenCount(ts) == 0
  {
    if ts != [] {
      NobodyWoken(ts[..|ts| - 1]);
    }
  }

  /** A thread is inside `wait` exactly while a call of it has not got through. */
  lemma {:induction false} InsideWhileOpen(ss: seq<State>, es: seq<Event>, k: nat, i: nat)
    requires Run(ss, es) && Init(ss[0]) && k < |ss| && i < |ss[0].ts|
    ensures |ss[k].ts| == |ss[0].ts|
    ensures CallsOpen(ss, es, k, i) == One(!ss[k].ts[i].Out?)
  {
    hide Apply, WokenCount, Succeeds;
    if k > 0 {
      InsideWhileOpen(ss, es, k - 1, i);
      EventBalances(ss[k - 1], es[k - 1]);
    }
  }

  /** Whenever no notification is outstanding and no woken thread is left, nobody sleeps next to a
      free unit, whatever barged in. */
  lemma NobodySleepsNextToAUnit(ss: seq<State>, es: seq<Event>, k: nat)
    requires Run(ss, es) && Init(ss[0]) && k < |ss|
    requires ss[k].pending == 0 && WokenCount(ss[k].ts) == 0 && ss[k].value >= 1
    ensures forall i :: !Sleeper(ss[k].ts, i)
  {
    RunKeeps(ss, es, k);
  }

  /** The notifications and the woken threads are worked off: without new calls and spurious
      wake-ups there is a bound on what can still happen. */
  lemma {:induction false} Settles(ss: seq<State>, es: seq<Event>)
    requires Run(ss, es)
    requires forall k :: 0 <= k < |es| ==> es[k].Resume? || es[k].Notify?
    ensures |es| + 2 * ss[|es|].pending + WokenCount(ss[|es|].ts) <= 2 * ss[0].pending + WokenCount(ss[0].ts)
  {
    if es != [] {
      var n := |es| - 1;
      Settles(ss[..n + 1], es[..n]);
      SettlingStep(ss[n], es[n]);
    }
  }

  lemma SettlingStep(s: State, e: Event)
    requires Enabled(s, e) && (e.Resume? || e.Notify?)
    ensures var t := Apply(s, e);
            2 * t.pending + WokenCount(t.ts) < 2 * s.pending + WokenCount(s.ts)
  {
    hide WokenCount;
    var t := Apply(s, e);
    if e.Resume? {
      WokenUpdate(s.ts, e.i, t.ts[e.i]);
    } else if Sleeper(s.ts, e.woken) {
      WokenUpdate(s.ts, e.woken, Woken);
    }
  }

  /** And as long as something is outstanding, it can happen. */
  lemma SettlingGoesOn(s: State) returns (e: Event)
    requires s.pending > 0 || WokenCount(s.ts) > 0
    ensures (e.Resume? || e.Notify?) && Enabled(s, e)
  {
    if s.pending > 0 {
      if i :| Sleeper(s.ts, i) {
        e := Notify(i);
      } else {
        e := Notify(0);
      }
    } else {
      var i := WokenThread(s.ts);
      e := Resume(i);
    }
  }

  lemma {:induction false} WokenThread(ts: seq<Pc>) returns (i: nat)
    requires WokenCount(ts) > 0
    ensures i < |ts| && ts[i].Woken?
  {
    var n := |ts| - 1;
    if ts[n].Woken? {
      i := n;
    } else {
      i := WokenThread(ts[..n]);
    }
  }
}
