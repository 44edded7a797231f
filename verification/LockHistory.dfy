/** What the recorded pairs mean: the detector after any history of pushes, pops and deletions,
    against a definition that looks only at the history. */
module LockHistory {
  import opened LockOrder

  datatype Event = Push(t: ThreadId, c: Lock) | Pop(t: ThreadId) | Delete(c: Lock)

  datatype State = State(orders: Orders, stacks: map<ThreadId, LockStack>, halted: bool)

  const START := State(Orders(map[], {}), map[], false)

  function StackOf(stacks: map<ThreadId, LockStack>, t: ThreadId): LockStack {
    if t in stacks then stacks[t] else []
  }

  /** A thread pops only what it pushed; anything else is undefined. */
  predicate Enabled(s: State, e: Event) {
    !s.halted && (e.Pop? ==> StackOf(s.stacks, e.t) != [])
  }

  function Step(s: State, e: Event): State
    requires Enabled(s, e)
  {
    match e
    case Push(t, c) =>
      var stack := StackOf(s.stacks, t) + [c];
      var (orders, report) := Scan(s.orders, stack, c, 0);
      State(orders, s.stacks[t := stack], report.Some?)
    case Pop(t) => s.(stacks := s.stacks[t := ButLast(StackOf(s.stacks, t))])
    case Delete(c) => s.(orders := Without(s.orders, c))
  }

  /** The detector after `h`; events that cannot happen are passed over. */
  function Exec(h: seq<Event>): State {
    if h == [] then START
    else
      var s := Exec(h[..|h| - 1]);
      if Enabled(s, h[|h| - 1]) then Step(s, h[|h| - 1]) else s
  }

  /** In `h` nothing undefined happens, and nothing follows a halt. */
  ghost predicate Legal(h: seq<Event>) {
    forall k :: 0 <= k < |h| ==> Enabled(Exec(h[..k]), h[k])
  }

  lemma LegalPrefix(h: seq<Event>, k: nat)
    requires Legal(h) && k <= |h|
    ensures Legal(h[..k])
  {
    assert forall j :: 0 <= j < k ==> h[..k][..j] == h[..j];
  }

  // ---- The history alone

  /** The stack of thread t, from its own pushes and pops. */
  function HistoryStack(h: seq<Event>, t: ThreadId): LockStack {
    if h == [] then []
    else
      var stack := HistoryStack(h[..|h| - 1], t);
      match h[|h| - 1]
      case Push(u, c) => if u == t then stack + [c] else stack
      case Pop(u) => if u == t then ButLast(stack) else stack
      case Delete(_) => stack
  }

  /** Event k pushes b on a stack that has a before the first b. */
  predicate PushedOver(h: seq<Event>, k: int, a: Lock, b: Lock) {
    && 0 <= k < |h| && h[k].Push? && h[k].c == b
    && a in Below(HistoryStack(h[..k], h[k].t) + [b], b)
  }

  predicate DeletedSince(h: seq<Event>, k: int, a: Lock) {
    exists j :: 0 <= j < |h| && k < j && h[j] == Delete(a)
  }

  predicate Stands(h: seq<Event>, k: int, a: Lock, b: Lock) {
    PushedOver(h, k, a, b) && !DeletedSince(h, k, a) && !DeletedSince(h, k, b)
  }

  /** Some thread locked b while holding a, since the last deletion of a or of b. */
  ghost predicate Recorded(h: seq<Event>, a: Lock, b: Lock) {
    exists k :: Stands(h, k, a, b)
  }

  lemma {:induction false} StacksAgree(h: seq<Event>, t: ThreadId)
    requires Legal(h)
    ensures StackOf(Exec(h).stacks, t) == HistoryStack(h, t)
  {
    if h != [] {
      LegalPrefix(h, |h| - 1);
      StacksAgree(h[..|h| - 1], t);
    }
  }

  lemma DeletedGrows(h: seq<Event>, e: Event, k: int, x: Lock)
    requires k < |h|
    ensures DeletedSince(h + [e], k, x) <==> DeletedSince(h, k, x) || e == Delete(x)
  {
    var g := h + [e];
    if DeletedSince(h, k, x) {
      var j :| 0 <= j < |h| && k < j && h[j] == Delete(x);
      assert g[j] == Delete(x);
    }
    if e == Delete(x) {
      assert g[|h|] == Delete(x);
    }
  }

  lemma StandsGrows(h: seq<Event>, e: Event, k: int, a: Lock, b: Lock)
    requires k < |h|
    ensures Stands(h + [e], k, a, b) <==> Stands(h, k, a, b) && e != Delete(a) && e != Delete(b)
  {
    hide DeletedSince, HistoryStack, Below;
    if 0 <= k {
      assert (h + [e])[..k] == h[..k];
    }
    DeletedGrows(h, e, k, a);
    DeletedGrows(h, e, k, b);
  }

  /** How the meaning of a history changes with one more event. */
  lemma RecordedGrows(h: seq<Event>, e: Event, a: Lock, b: Lock)
    ensures Recorded(h + [e], a, b) <==>
              || (e.Push? && e.c == b && a in Below(HistoryStack(h, e.t) + [b], b))
              || (Recorded(h, a, b) && e != Delete(a) && e != Delete(b))
  {
    hide Stands, HistoryStack, Below;
    var g, n := h + [e], |h|;
    forall k | k < n
      ensures Stands(g, k, a, b) <==> Stands(h, k, a, b) && e != Delete(a) && e != Delete(b)
    {
      StandsGrows(h, e, k, a, b);
    }
    LastStands(h, e, a, b);
    if k :| Stands(h, k, a, b) {
      StandsInside(h, k, a, b);
    }
    if k :| Stands(g, k, a, b) {
      StandsInside(g, k, a, b);
    }
  }

  lemma StandsInside(h: seq<Event>, k: int, a: Lock, b: Lock)
    requires Stands(h, k, a, b)
    ensures 0 <= k < |h|
  {
  }

  lemma LastStands(h: seq<Event>, e: Event, a: Lock, b: Lock)
    ensures Stands(h + [e], |h|, a, b) <==>
              e.Push? && e.c == b && a in Below(HistoryStack(h, e.t) + [b], b)
  {
    hide HistoryStack, Below;
    assert (h + [e])[..|h|] == h;
  }

  lemma StartSound()
    ensures Sound(START.orders)
  {
  }

  /** Everything the detector holds is sound, until it halts. */
  lemma {:induction false} ExecSound(h: seq<Event>)
    requires Legal(h)
    ensures Transposed(Exec(h).orders) && Witnessed(Exec(h).orders)
    ensures !Exec(h).halted ==> Sound(Exec(h).orders)
  {
    StartSound();
    hide Scan, Below, Without, Transposed, Witnessed, Antisymmetric;
    if h != [] {
      var s, e := Exec(h[..|h| - 1]), h[|h| - 1];
      LegalPrefix(h, |h| - 1);
      ExecSound(h[..|h| - 1]);
      match e {
        case Push(t, c) => PushRecords(s.orders, StackOf(s.stacks, t), c);
        case Pop(t) =>
        case Delete(c) => WithoutSound(s.orders, c);
      }
    }
  }

  /** The exact meaning of the map: (a, b) is a key if and only if some thread locked b while
      holding a, since the last deletion of either. */
  lemma {:induction false} KeysAreHistory(h: seq<Event>, a: Lock, b: Lock)
    requires Legal(h) && !Exec(h).halted
    ensures (a, b) in Exec(h).orders.lockorders <==> Recorded(h, a, b)
  {
    assert h == [] ==> !Recorded(h, a, b);
    hide Scan, Below, Sound, Transposed, Witnessed, Recorded;
    if h != [] {
      var g, e := h[..|h| - 1], h[|h| - 1];
      var s := Exec(g);
      assert h == g + [e];
      LegalPrefix(h, |h| - 1);
      KeysAreHistory(g, a, b);
      ExecSound(g);
      RecordedGrows(g, e, a, b);
      if e.Push? {
        StacksAgree(g, e.t);
        PushRecords(s.orders, StackOf(s.stacks, e.t), e.c);
      }
    }
  }

  /** The first event that stands for (a, b): it pushed b over a, after the last deletion of either,
      and no event before it did. */
  ghost predicate FirstStands(h: seq<Event>, k: int, a: Lock, b: Lock) {
    Stands(h, k, a, b) && forall j :: j < k ==> !Stands(h, j, a, b)
  }

  /** The stack that event k made. */
  function StackAt(h: seq<Event>, k: int): LockStack
    requires 0 <= k < |h| && h[k].Push?
  {
    HistoryStack(h[..k], h[k].t) + [h[k].c]
  }

  lemma FirstStandsGrows(h: seq<Event>, e: Event, k: int, a: Lock, b: Lock)
    requires FirstStands(h, k, a, b) && e != Delete(a) && e != Delete(b)
    ensures 0 <= k < |h| && FirstStands(h + [e], k, a, b) && StackAt(h + [e], k) == StackAt(h, k)
  {
    hide DeletedSince, HistoryStack, Below;
    StandsInside(h, k, a, b);
    assert (h + [e])[..k] == h[..k];
    forall j | j <= k ensures Stands(h + [e], j, a, b) <==> Stands(h, j, a, b) {
      StandsGrows(h, e, j, a, b);
    }
  }

  /** The stack stored for a pair is the one on which it was first seen, since the last deletion of
      either lock. */
  lemma {:induction false} StoredStackIsFirst(h: seq<Event>, a: Lock, b: Lock) returns (k: int)
    requires Legal(h) && !Exec(h).halted && (a, b) in Exec(h).orders.lockorders
    ensures 0 <= k < |h| && FirstStands(h, k, a, b)
    ensures Exec(h).orders.lockorders[(a, b)] == StackAt(h, k)
  {
    hide Scan, Below, HistoryStack, Sound, Transposed, Witnessed, Stands, FirstStands, StackAt;
    assert h != [];
    var g, e := h[..|h| - 1], h[|h| - 1];
    var s := Exec(g);
    assert h == g + [e];
    LegalPrefix(h, |h| - 1);
    ExecSound(g);
    if e.Push? {
      StacksAgree(g, e.t);
      PushRecords(s.orders, StackOf(s.stacks, e.t), e.c);
    }
    if (a, b) in s.orders.lockorders {
      k := StoredStackIsFirst(g, a, b);
      FirstStandsGrows(g, e, k, a, b);
    } else {
      k := |g|;
      KeysAreHistory(g, a, b);
      NewlyStands(g, e, a, b);
    }
  }

  lemma NewlyStands(g: seq<Event>, e: Event, a: Lock, b: Lock)
    requires e.Push? && e.c == b && a in Below(HistoryStack(g, e.t) + [b], b) && !Recorded(g, a, b)
    ensures FirstStands(g + [e], |g|, a, b)
    ensures StackAt(g + [e], |g|) == HistoryStack(g, e.t) + [b]
  {
    hide DeletedSince, HistoryStack, Below;
    LastStands(g, e, a, b);
    assert (g + [e])[..|g|] == g;
    forall j | j < |g| ensures !Stands(g + [e], j, a, b) {
      StandsGrows(g, e, j, a, b);
    }
  }

  /** The exact alarm condition, on histories: locking c halts the run if and only if below the
      first c on the thread's stack there is a lock that, since the last deletion of either, was
      itself locked by a holder of c. */
  lemma HaltsIffReversed(h: seq<Event>, t: ThreadId, c: Lock)
    requires Legal(h) && !Exec(h).halted
    ensures Legal(h + [Push(t, c)])
    ensures Exec(h + [Push(t, c)]).halted <==>
              exists a :: a in Below(HistoryStack(h, t) + [c], c) && Recorded(h, c, a)
  {
    var g := h + [Push(t, c)];
    assert g[..|h|] == h && forall j :: 0 <= j < |h| ==> g[..j] == h[..j];
    ExecSound(h);
    StacksAgree(h, t);
    PushRecords(Exec(h).orders, StackOf(Exec(h).stacks, t), c);
    forall a: Lock ensures (c, a) in Exec(h).orders.lockorders <==> Recorded(h, c, a) {
      KeysAreHistory(h, c, a);
    }
  }

  // ---- Whole continuations of a history

  /** `e` locks c while some lock below the first c was, since the last deletion of either, itself
      locked above c. */
  ghost predicate Reversal(h: seq<Event>, e: Event) {
    e.Push? && exists a :: a in Below(HistoryStack(h, e.t) + [e.c], e.c) && Recorded(h, e.c, a)
  }

  /** In what follows h, threads pop only what they pushed. */
  ghost predicate PopsOwn(h: seq<Event>, more: seq<Event>) {
    forall k :: 0 <= k < |more| && more[k].Pop? ==> HistoryStack(h + more[..k], more[k].t) != []
  }

  lemma ExecOneMore(h: seq<Event>, e: Event)
    requires Legal(h) && Enabled(Exec(h), e)
    ensures Legal(h + [e]) && Exec(h + [e]) == Step(Exec(h), e)
  {
    var g := h + [e];
    assert g[..|h|] == h && forall j :: 0 <= j < |h| ==> g[..j] == h[..j];
    hide Step, Enabled;
  }

  /** The detector after `es`, from any state; events that cannot happen are passed over. */
  function Continue(s: State, es: seq<Event>): State {
    if es == [] then s
    else
      var r := Continue(s, es[..|es| - 1]);
      if Enabled(r, es[|es| - 1]) then Step(r, es[|es| - 1]) else r
  }

  lemma {:induction false} ExecContinues(h: seq<Event>, more: seq<Event>)
    ensures Exec(h + more) == Continue(Exec(h), more)
  {
    if more == [] {
      assert h + more == h;
    } else {
      ExecContinues(h, more[..|more| - 1]);
      assert (h + more)[..|h + more| - 1] == h + more[..|more| - 1];
    }
  }

  lemma {:induction false} ContinueTwice(s: State, es: seq<Event>, more: seq<Event>)
    ensures Continue(s, es + more) == Continue(Continue(s, es), more)
  {
    if more == [] {
      assert es + more == es;
    } else {
      ContinueTwice(s, es, more[..|more| - 1]);
      assert (es + more)[..|es + more| - 1] == es + more[..|more| - 1];
    }
  }

  /** Nothing happens after a halt. */
  lemma {:induction false} HaltIsFinal(s: State, es: seq<Event>)
    requires s.halted
    ensures Continue(s, es) == s
  {
    if es != [] {
      HaltIsFinal(s, es[..|es| - 1]);
    }
  }

  lemma ContinueOne(s: State, e: Event)
    requires Enabled(s, e)
    ensures Continue(s, [e]) == Step(s, e)
  {
    assert Continue(s, [e][..0]) == s;
  }

  /** Three stages in a row, cut short by a halt. */
  lemma InStages(s: State, a: seq<Event>, b: seq<Event>, c: seq<Event>)
    ensures Continue(s, a + b + c) == Continue(Continue(Continue(s, a), b), c)
    ensures Continue(s, a).halted ==> Continue(s, a + b + c) == Continue(s, a)
    ensures Continue(Continue(s, a), b).halted ==> Continue(s, a + b + c) == Continue(Continue(s, a), b)
  {
    hide Continue;
    ContinueTwice(s, a + b, c);
    ContinueTwice(s, a, b);
    if Continue(s, a).halted {
      HaltIsFinal(Continue(s, a), b);
    }
    if Continue(Continue(s, a), b).halted {
      HaltIsFinal(Continue(Continue(s, a), b), c);
    }
  }

  /** A continuation of a live history stays live and legal up to its first reversal. */
  lemma {:induction false} LiveUpToReversal(h: seq<Event>, more: seq<Event>, k: nat)
    requires Legal(h) && !Exec(h).halted && PopsOwn(h, more) && k <= |more|
    requires forall j :: 0 <= j < k ==> !Reversal(h + more[..j], more[j])
    ensures Legal(h + more[..k]) && !Exec(h + more[..k]).halted
  {
    hide Below, HistoryStack, Recorded, Scan, Legal, Exec;
    if k == 0 {
      assert h + more[..0] == h;
    } else {
      LiveUpToReversal(h, more, k - 1);
      OneMore(h, more, k - 1);
    }
  }

  /** One more event halts a live history exactly if it is a reversal. */
  lemma OneMore(h: seq<Event>, more: seq<Event>, k: nat)
    requires PopsOwn(h, more) && k < |more|
    requires Legal(h + more[..k]) && !Exec(h + more[..k]).halted
    ensures Legal(h + more[..k + 1])
    ensures Exec(h + more[..k + 1]).halted <==> Reversal(h + more[..k], more[k])
  {
    hide Below, HistoryStack, Recorded, Scan, Legal, Exec;
    var g, e := h + more[..k], more[k];
    assert h + more[..k + 1] == g + [e];
    match e {
      case Push(t, c) => HaltsIffReversed(g, t, c);
      case Pop(t) => StacksAgree(g, t); ExecOneMore(g, e);
      case Delete(c) => ExecOneMore(g, e);
    }
  }

  /** Whether a run halts, told from the history alone: a continuation in which threads pop what they
      pushed halts the detector if and only if one of its pushes is a reversal. */
  lemma ContinuationHaltsIff(h: seq<Event>, more: seq<Event>)
    requires Legal(h) && !Exec(h).halted && PopsOwn(h, more)
    ensures Exec(h + more).halted <==> exists k :: 0 <= k < |more| && Reversal(h + more[..k], more[k])
    ensures !Exec(h + more).halted ==> Legal(h + more)
  {
    hide Legal, Exec, Reversal, PopsOwn;
    assert more[..|more|] == more;
    if forall k :: 0 <= k < |more| ==> !Reversal(h + more[..k], more[k]) {
      LiveUpToReversal(h, more, |more|);
    } else {
      var k := FirstReversal(h, more, |more|);
      LiveUpToReversal(h, more, k);
      OneMore(h, more, k);
      assert h + more == (h + more[..k + 1]) + more[k + 1..];
      ExecContinues(h + more[..k + 1], more[k + 1..]);
      HaltIsFinal(Exec(h + more[..k + 1]), more[k + 1..]);
    }
  }

  lemma {:induction false} FirstReversal(h: seq<Event>, more: seq<Event>, n: nat) returns (k: nat)
    requires n <= |more| && exists j :: 0 <= j < n && Reversal(h + more[..j], more[j])
    ensures k < n && Reversal(h + more[..k], more[k])
    ensures forall j :: 0 <= j < k ==> !Reversal(h + more[..j], more[j])
  {
    hide Reversal;
    if exists j :: 0 <= j < n - 1 && Reversal(h + more[..j], more[j]) {
      k := FirstReversal(h, more, n - 1);
    } else {
      k := n - 1;
    }
  }

  /** Every lock was locked only by holders of lower-ranked locks, or again. */
  ghost predicate Ranked(h: seq<Event>, rank: Lock -> int) {
    forall k, a :: 0 <= k < |h| && h[k].Push? && PushedOver(h, k, a, h[k].c) ==> rank(a) < rank(h[k].c)
  }

  /** No false alarm: while all threads follow one ranking of the locks, the detector never halts. */
  lemma RankedNeverHalts(h: seq<Event>, rank: Lock -> int)
    requires Legal(h) && Ranked(h, rank)
    ensures !Exec(h).halted
  {
    hide Exec, HistoryStack, Below, Legal, Ranked, Recorded;
    OnlyPushHalts(h);
    if h != [] && h[|h| - 1].Push? {
      var g, e := h[..|h| - 1], h[|h| - 1];
      assert h == g + [Push(e.t, e.c)];
      LegalPrefix(h, |h| - 1);
      HaltsIffReversed(g, e.t, e.c);
      forall a | a in Below(HistoryStack(g, e.t) + [e.c], e.c) ensures !Recorded(g, e.c, a) {
        RankForbids(g, e.t, e.c, a, rank);
      }
    }
  }

  lemma OnlyPushHalts(h: seq<Event>)
    requires Legal(h)
    ensures h == [] || !h[|h| - 1].Push? ==> !Exec(h).halted
    ensures h != [] ==> !Exec(h[..|h| - 1]).halted
  {
    if h != [] {
      assert Enabled(Exec(h[..|h| - 1]), h[|h| - 1]);
    }
  }

  lemma RankForbids(g: seq<Event>, t: ThreadId, c: Lock, a: Lock, rank: Lock -> int)
    requires Ranked(g + [Push(t, c)], rank)
    requires a in Below(HistoryStack(g, t) + [c], c)
    ensures !Recorded(g, c, a)
  {
    hide HistoryStack, Below;
    var h := g + [Push(t, c)];
    assert h[..|g|] == g;
    assert PushedOver(h, |g|, a, c);
    if k :| Stands(g, k, c, a) {
      PushedOverExtends(g, Push(t, c), k, c, a);
    }
  }

  lemma PushedOverExtends(g: seq<Event>, e: Event, k: int, a: Lock, b: Lock)
    ensures PushedOver(g, k, a, b) ==> PushedOver(g + [e], k, a, b)
  {
    hide HistoryStack, Below;
    if PushedOver(g, k, a, b) {
      assert (g + [e])[..k] == g[..k];
    }
  }

  /** What a detector object holds, as a state of this machine. */
  function StateOf(d: LockData): State
    reads d
  {
    State(d.View(), d.lockstacks, d.halted)
  }

  /** Run on the object, a push, a pop and a deletion are the steps of this machine. */
  method Perform(d: LockData, e: Event)
    requires Enabled(StateOf(d), e)
    requires Transposed(d.View())
    modifies d
    ensures StateOf(d) == Step(old(StateOf(d)), e)
  {
    match e {
      case Push(t, c) => var _ := d.PushLock(t, c);
      case Pop(t) => d.PopLock(t);
      case Delete(c) => d.DeleteLock(c);
    }
  }

  /** A whole history on a new detector object. */
  method Replay(h: seq<Event>) returns (d: LockData)
    requires Legal(h)
    ensures fresh(d)
    ensures StateOf(d) == Exec(h)
  {
    d := new LockData();
    assert h[..0] == [];
    for k := 0 to |h|
      invariant fresh(d)
      invariant StateOf(d) == Exec(h[..k])
    {
      LegalPrefix(h, k);
      assert h[..k + 1][..k] == h[..k];
      ExecSound(h[..k]);
      Perform(d, h[k]);
    }
    assert h[..|h|] == h;
  }
}
