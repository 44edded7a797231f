/** All interleavings of one master and any number of workers over one queue.  Thread 0 is the
    master.  One `Critical` event is a whole critical section of `Loop`, one `Execute` event one
    turn of the loop over a batch, outside the lock. */
module CheckQueueThreads {
  import opened CheckQueueModel

  /** What became of the checks between two returns of the master. */
  datatype Round = Round(
    added: multiset<Check>,
    evaluated: multiset<Check>,
    skipped: multiset<Check>,
    verdict: bool)

  /** The shared fields and the threads, with a history: the current round (its `verdict` is not
      used yet) and the completed ones. */
  datatype State = State(sh: Shared, ts: seq<Pc>, now: Round, rounds: seq<Round>)

  const EMPTY_ROUND := Round(multiset{}, multiset{}, multiset{}, true)

  /** `Add` names the sleeping worker that a notify_one wakes. */
  datatype Event =
    | Call
    | Add(cs: seq<Check>, woken: nat)
    | Critical(i: nat)
    | Execute(i: nat)
    | Spurious(i: nat)

  predicate Init(s: State) {
    && s.sh == Shared([], 0, 0, true, 0, false, s.sh.nBatchSize)
    && |s.ts| > 0 && s.ts[0] == Outside
    && (forall i :: 1 <= i < |s.ts| ==> s.ts[i] == Entering)
    && s.now == EMPTY_ROUND && s.rounds == []
  }

  predicate WorkerSleeps(ts: seq<Pc>, i: nat) {
    1 <= i < |ts| && ts[i].Sleeping?
  }

  predicate Enabled(s: State, e: Event) {
    && |s.ts| > 0
    && match e
       case Call => s.ts[0].Outside?
       case Add(cs, woken) =>
         && s.ts[0].Outside?
         && (|cs| == 1 && (exists i :: 0 <= i < |s.ts| && WorkerSleeps(s.ts, i)) ==> WorkerSleeps(s.ts, woken))
       case Critical(i) =>
         && i < |s.ts| && !s.ts[i].Outside? && !s.ts[i].Sleeping?
         && (s.ts[i].Running? ==> s.ts[i].rest == [])
       case Execute(i) => i < |s.ts| && s.ts[i].Running? && s.ts[i].rest != []
       case Spurious(i) => i < |s.ts| && s.ts[i].Sleeping?
  }

  /** Notifying condWorker after `n` checks were added: one worker for one check, else all. */
  function WakeWorkers(ts: seq<Pc>, n: nat, woken: nat): (r: seq<Pc>)
    ensures |r| == |ts|
  {
    if n == 0 then ts
    else if n == 1 then if WorkerSleeps(ts, woken) then ts[woken := Notified] else ts
    else seq(|ts|, i requires 0 <= i < |ts| => if WorkerSleeps(ts, i) then Notified else ts[i])
  }

  /** Notifying condMaster. */
  function WakeMaster(ts: seq<Pc>): seq<Pc> {
    if |ts| > 0 && ts[0].Sleeping? then ts[0 := Notified] else ts
  }

  function Apply(s: State, e: Event): State
    requires Enabled(s, e)
  {
    match e
    case Call => s.(ts := s.ts[0 := Entering])
    case Add(cs, woken) =>
      State(Enqueue(s.sh, cs), WakeWorkers(s.ts, |cs|, woken),
            s.now.(added := s.now.added + multiset(cs)), s.rounds)
    case Critical(i) => ApplyCritical(s, i)
    case Execute(i) =>
      var Running(n, live, rest) := s.ts[i];
      if live then
        s.(ts := s.ts[i := Running(n, rest[0].passes, rest[1..])],
           now := s.now.(evaluated := s.now.evaluated + multiset{rest[0]}))
      else
        s.(ts := s.ts[i := Running(n, live, rest[1..])],
           now := s.now.(skipped := s.now.skipped + multiset{rest[0]}))
    case Spurious(i) => s.(ts := s.ts[i := Notified])
  }

  function ApplyCritical(s: State, i: nat): State
    requires i < |s.ts|
  {
    var (sh, outcome) := Decide(Arrive(s.sh, s.ts[i]), i == 0);
    var ts := if WakesMaster(s.sh, i == 0, s.ts[i]) then WakeMaster(s.ts) else s.ts;
    match outcome
    case Block => State(sh, ts[i := Sleeping], s.now, s.rounds)
    case Batch(taken, live) => State(sh, ts[i := Running(|taken|, live, taken)], s.now, s.rounds)
    case Return(verdict) =>
      if i == 0 then
        State(sh, ts[i := Outside], EMPTY_ROUND, s.rounds + [s.now.(verdict := verdict)])
      else
        State(sh, ts[i := Outside], s.now, s.rounds)
  }

  /** The event after which the master has a verdict in its hands. */
  predicate MasterReturns(s: State, e: Event) {
    && e == Critical(0) && Enabled(s, e)
    && Arrive(s.sh, s.ts[0]).queue == [] && Arrive(s.sh, s.ts[0]).nTodo == 0
  }

  // ---- Sums over the threads

  /** Per-thread amounts, added up over all threads: threads inside cond.wait, threads inside
      `Loop`, checks not yet reported, checks not yet looked at, those of them that would still
      be called, threads yet to enter, and threads woken. */
  datatype Tally = Tally(
    idle: nat,
    registered: nat,
    unreported: nat,
    ahead: nat,
    live: nat,
    entering: nat,
    woken: nat)

  const ZERO := Tally(0, 0, 0, 0, 0, 0, 0)

  function Plus(a: Tally, b: Tally): Tally {
    Tally(a.idle + b.idle, a.registered + b.registered, a.unreported + b.unreported,
          a.ahead + b.ahead, a.live + b.live, a.entering + b.entering, a.woken + b.woken)
  }

  function Weigh(pc: Pc): Tally {
    match pc
    case Outside => ZERO
    case Entering => ZERO.(entering := 1)
    case Sleeping => ZERO.(idle := 1, registered := 1)
    case Notified => ZERO.(idle := 1, registered := 1, woken := 1)
    case Running(n, ok, rest) =>
      ZERO.(registered := 1, unreported := n, ahead := |rest|, live := if ok then |rest| else 0)
  }

  function Total(ts: seq<Pc>): Tally {
    if ts == [] then ZERO else Plus(Total(ts[..|ts| - 1]), Weigh(ts[|ts| - 1]))
  }

  lemma {:induction false} TotalUpdate(ts: seq<Pc>, i: nat, pc: Pc)
    requires i < |ts|
    ensures Plus(Total(ts[i := pc]), Weigh(ts[i])) == Plus(Total(ts), Weigh(pc))
  {
    var n := |ts| - 1;
    var us := ts[i := pc];
    if i == n {
      assert us[..n] == ts[..n];
    } else {
      TotalUpdate(ts[..n], i, pc);
      assert us[..n] == ts[..n][i := pc];
      PlusSwap(Total(us[..n]), Weigh(ts[n]), Weigh(ts[i]));
      PlusSwap(Total(ts[..n]), Weigh(ts[n]), Weigh(pc));
    }
  }

  lemma PlusSwap(a: Tally, b: Tally, c: Tally)
    ensures Plus(Plus(a, b), c) == Plus(Plus(a, c), b)
  {
  }

  /** `a` is componentwise part of `b`. */
  predicate Within(a: Tally, b: Tally) {
    && a.idle <= b.idle && a.registered <= b.registered && a.unreported <= b.unreported
    && a.ahead <= b.ahead && a.live <= b.live && a.entering <= b.entering && a.woken <= b.woken
  }

  lemma PlusCovers(a: Tally, b: Tally, c: Tally)
    requires Within(c, a) || c == b
    ensures Within(c, Plus(a, b))
  {
  }

  /** Every thread's share is part of the total. */
  lemma {:induction false} TotalCovers(ts: seq<Pc>, i: nat)
    requires i < |ts|
    ensures Within(Weigh(ts[i]), Total(ts))
  {
    var n := |ts| - 1;
    if i < n {
      TotalCovers(ts[..n], i);
      assert ts[..n][i] == ts[i];
    }
    PlusCovers(Total(ts[..n]), Weigh(ts[n]), Weigh(ts[i]));
  }

  /** If checks are unreported, some thread holds them. */
  lemma {:induction false} UnreportedHolder(ts: seq<Pc>) returns (i: nat)
    requires Total(ts).unreported > 0
    ensures i < |ts| && ts[i].Running? && ts[i].nNow > 0
  {
    var n := |ts| - 1;
    if ts[n].Running? && ts[n].nNow > 0 {
      i := n;
    } else {
      i := UnreportedHolder(ts[..n]);
    }
  }

  /** Equal but for a higher number of woken threads. */
  predicate MoreWoken(a: Tally, b: Tally) {
    a.(woken := b.woken) == b && a.woken >= b.woken
  }

  lemma PlusMoreWoken(a: Tally, b: Tally, c: Tally, d: Tally)
    requires MoreWoken(a, b) && MoreWoken(c, d)
    ensures MoreWoken(Plus(a, c), Plus(b, d))
  {
  }

  predicate SameButWoken(us: seq<Pc>, ts: seq<Pc>) {
    && |us| == |ts|
    && forall i :: 0 <= i < |ts| ==> us[i] == ts[i] || (ts[i].Sleeping? && us[i].Notified?)
  }

  /** Waking threads changes nothing but the number of woken ones. */
  lemma {:induction false} TotalOfWoken(us: seq<Pc>, ts: seq<Pc>)
    requires SameButWoken(us, ts)
    ensures MoreWoken(Total(us), Total(ts))
  {
    if ts != [] {
      var n := |ts| - 1;
      TotalOfWoken(us[..n], ts[..n]);
      PlusMoreWoken(Total(us[..n]), Total(ts[..n]), Weigh(us[n]), Weigh(ts[n]));
    }
  }

  /** The checks of a thread's batch that it has not looked at. */
  function Ahead(pc: Pc): multiset<Check> {
    if pc.Running? then multiset(pc.rest) else multiset{}
  }

  function InHand(ts: seq<Pc>): multiset<Check> {
    if ts == [] then multiset{} else InHand(ts[..|ts| - 1]) + Ahead(ts[|ts| - 1])
  }

  lemma {:induction false} InHandUpdate(ts: seq<Pc>, i: nat, pc: Pc)
    requires i < |ts|
    ensures InHand(ts[i := pc]) + Ahead(ts[i]) == InHand(ts) + Ahead(pc)
  {
    hide Ahead;
    var n := |ts| - 1;
    var us := ts[i := pc];
    if i == n {
      assert us[..n] == ts[..n];
      MultisetSwap(InHand(ts[..n]), Ahead(pc), Ahead(ts[n]));
    } else {
      InHandUpdate(ts[..n], i, pc);
      assert us[..n] == ts[..n][i := pc];
      MultisetSwap(InHand(us[..n]), Ahead(ts[n]), Ahead(ts[i]));
      MultisetSwap(InHand(ts[..n]), Ahead(ts[n]), Ahead(pc));
    }
  }

  lemma MultisetSwap(a: multiset<Check>, b: multiset<Check>, c: multiset<Check>)
    ensures (a + b) + c == (a + c) + b
  {
  }

  lemma {:induction false} InHandOfWoken(us: seq<Pc>, ts: seq<Pc>)
    requires SameButWoken(us, ts)
    ensures InHand(us) == InHand(ts)
  {
    if ts != [] {
      InHandOfWoken(us[..|ts| - 1], ts[..|ts| - 1]);
    }
  }

  // ---- Runs

  ghost predicate Steps(ss: seq<State>, es: seq<Event>) {
    && |ss| == |es| + 1
    && forall k :: 0 <= k < |es| ==> Enabled(ss[k], es[k]) && ss[k + 1] == Apply(ss[k], es[k])
  }

  ghost predicate Run(ss: seq<State>, es: seq<Event>) {
    Steps(ss, es) && Init(ss[0])
  }

  /** The number of the first event after the last return of the master, before event `k`. */
  function RoundStart(ss: seq<State>, es: seq<Event>, k: nat): (j: nat)
    requires k <= |es| && |ss| == |es| + 1
    ensures j <= k
  {
    if k == 0 || MasterReturns(ss[k - 1], es[k - 1]) then k else RoundStart(ss, es, k - 1)
  }

  /** The checks that events `from` to `to` add. */
  function AddedBetween(es: seq<Event>, from: nat, to: nat): multiset<Check>
    requires from <= to <= |es|
  {
    if from == to then multiset{}
    else AddedBetween(es, from, to - 1) + if es[to - 1].Add? then multiset(es[to - 1].cs) else multiset{}
  }
}
