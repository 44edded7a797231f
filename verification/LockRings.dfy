/** What the detector does not see: it compares pairs only, so from three threads on a circle of
    waits goes unnoticed. */
module LockRings {
  import opened LockOrder
  import opened LockWaits
  import H = LockHistory

  /** Some run leads to `w`. */
  ghost predicate Reachable(w: World) {
    exists ws: seq<World>, acts: seq<Action> :: Run(ws, acts) && ws[|acts|] == w
  }

  lemma ReachableStep(w: World, a: Action)
    requires Reachable(w) && Enabled(w, a)
    ensures Reachable(Apply(w, a))
  {
    hide Enabled, Apply;
    var ws, acts :| Run(ws, acts) && ws[|acts|] == w;
    var vs := ws + [Apply(w, a)];
    assert Run(vs, acts + [a]) && vs[|acts + [a]|] == Apply(w, a);
  }

  // ---- The circle of n threads

  /** Threads 0 to m-1 own the locks with their own numbers, and nothing is recorded. */
  ghost predicate Owning(w: World, m: nat) {
    && !w.d.halted && w.d.orders.lockorders == map[]
    && (forall t: ThreadId :: ModeOf(w, t) == Free)
    && (forall t: ThreadId :: StackOf(w, t) == if t < m then [t] else [])
  }

  /** Of n such threads, 0 to m-1 wait for the next one's lock. */
  ghost predicate Wanting(w: World, n: nat, m: nat) {
    && !w.d.halted
    && (forall a: nat, c: nat :: (a, c) in w.d.orders.lockorders <==> a < m && c == After(a, n))
    && (forall t: ThreadId :: t < n ==> ModeOf(w, t) == if t < m then Waiting else Free)
    && (forall t: ThreadId :: t < n ==> StackOf(w, t) == if t < m then [t, After(t, n)] else [t])
  }

  /** Thread m locks lock m, which is free. */
  lemma OwnNext(w: World, m: nat) returns (v: World)
    requires Reachable(w) && Owning(w, m)
    ensures Reachable(v) && Owning(v, m + 1)
  {
    hide Reachable, Run;
    var u := Apply(w, Enter(m, m));
    ReachableStep(w, Enter(m, m));
    assert [] + [m] == [m];
    assert Scan(w.d.orders, [m], m, 0) == (w.d.orders, None);
    assert forall t: ThreadId :: t != m ==> ModeOf(u, t) == ModeOf(w, t) && StackOf(u, t) == StackOf(w, t);
    assert u.d.orders == w.d.orders && StackOf(u, m) == [m] && ModeOf(u, m) == Waiting && !u.d.halted;
    assert Available(u, m, m);
    v := Apply(u, Acquire(m));
    ReachableStep(u, Acquire(m));
    assert forall t: ThreadId :: StackOf(v, t) == StackOf(u, t);
    assert forall t: ThreadId :: ModeOf(v, t) == if t == m then Free else ModeOf(u, t);
  }

  lemma {:induction false} Own(m: nat) returns (w: World)
    ensures Reachable(w) && Owning(w, m)
  {
    if m == 0 {
      w := START;
      assert Run([START], []);
    } else {
      w := Own(m - 1);
      w := OwnNext(w, m - 1);
    }
  }

  /** Thread m begins to wait for the lock of the next thread.  No pair is reversed, because the
      circle is longer than two. */
  lemma WantNext(w: World, n: nat, m: nat) returns (v: World)
    requires n >= 3 && m < n && Reachable(w) && Wanting(w, n, m)
    ensures Reachable(v) && Wanting(v, n, m + 1)
  {
    hide Reachable, Run;
    var c := After(m, n);
    v := Apply(w, Enter(m, c));
    ReachableStep(w, Enter(m, c));
    ScanOfTwo(w.d.orders, m, c);
    assert StackOf(w, m) + [c] == [m, c];
    assert forall t: ThreadId :: t != m ==> ModeOf(v, t) == ModeOf(w, t) && StackOf(v, t) == StackOf(w, t);
  }

  lemma ScanOfTwo(o: Orders, a: Lock, c: Lock)
    requires a != c && (a, c) !in o.lockorders && (c, a) !in o.lockorders
    ensures var (o', report) := Scan(o, [a, c], c, 0);
            report.None? && o'.lockorders.Keys == o.lockorders.Keys + {(a, c)}
  {
    var o' := Record(o, [a, c], a, c);
    assert Scan(o', [a, c], c, 1) == (o', None);
  }

  lemma {:induction false} Want(n: nat, m: nat) returns (w: World)
    requires n >= 3 && m <= n
    ensures Reachable(w) && Wanting(w, n, m)
  {
    hide Reachable;
    if m == 0 {
      w := Own(n);
    } else {
      w := Want(n, m - 1);
      w := WantNext(w, n, m - 1);
    }
  }

  // ---- The exact length

  ghost predicate Distinct(ts: seq<ThreadId>) {
    forall i, j :: 0 <= i < j < |ts| ==> ts[i] != ts[j]
  }

  /** In some reachable state that has not halted, these threads, all different, wait for each other
      around a circle. */
  ghost predicate Missed(w: World, ts: seq<ThreadId>) {
    Reachable(w) && !w.d.halted && Distinct(ts) && CircularWait(w, ts)
  }

  lemma RingWaits(n: nat) returns (w: World, ts: seq<ThreadId>)
    requires n >= 3
    ensures |ts| == n && Missed(w, ts)
  {
    hide Reachable;
    w := Want(n, n);
    ts := seq(n, i requires 0 <= i < n => i);
    forall k: nat | k < n ensures WaitsFor(w, ts[k], ts[After(k, n)]) {
      var t, u := ts[k], ts[After(k, n)];
      assert Held(w, u) == [u, After(u, n)][..1];
      assert Held(w, u)[0] == u;
    }
  }

  lemma TwoAreNotMissed(w: World, ts: seq<ThreadId>)
    requires Missed(w, ts)
    ensures |ts| >= 3
  {
    hide Enabled, Apply, Held;
    var ws, acts :| Run(ws, acts) && ws[|acts|] == w;
    assert WaitsFor(w, ts[0], ts[After(0, |ts|)]);
    if |ts| == 2 {
      assert WaitsFor(w, ts[1], ts[After(1, |ts|)]);
      NoTwoThreadDeadlock(ws, acts, |acts|, ts[0], ts[1]);
    }
  }

  /** A deadlock of n threads around a circle can go unnoticed if and only if n is at least three. */
  lemma DeadlockIsMissedIff(n: nat)
    ensures (exists w, ts :: |ts| == n && Missed(w, ts)) <==> n >= 3
  {
    hide Missed;
    if n >= 3 {
      var w, ts := RingWaits(n);
    }
    if w, ts :| |ts| == n && Missed(w, ts) {
      TwoAreNotMissed(w, ts);
    }
  }
}
