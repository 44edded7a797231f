/** The queue object under any interleaving: each critical section and each Add of a run is one
    method call, and what the calls return is what the run says. */
module CheckQueueReplay {
  import opened CheckQueueModel
  import opened CheckQueueThreads
  import opened CheckQueueSafety
  import opened CheckQueues

  /** Thread i may call CriticalSection with the counters it finds. */
  lemma CountersAllow(s: State, i: nat)
    requires CountInv(s) && i < |s.ts|
    ensures 0 <= s.sh.nTotal && 0 <= s.sh.nIdle
    ensures s.ts[i].Notified? ==> 0 < s.sh.nIdle && 0 < s.sh.nTotal
    ensures s.ts[i].Running? ==> 0 < s.sh.nTotal
  {
    hide Wrap, Total;
    TotalCovers(s.ts, i);
  }

  /** One event on the object.  `returned` is what the master's `Wait` returns, if it does. */
  method Perform(q: CheckQueue, s: State, e: Event) returns (returned: seq<bool>)
    requires q.View() == s.sh && CountInv(s) && Enabled(s, e)
    modifies q
    ensures q.View() == Apply(s, e).sh
    ensures MasterReturns(s, e) ==>
              |returned| == 1 && Apply(s, e).rounds == s.rounds + [s.now.(verdict := returned[0])]
    ensures !MasterReturns(s, e) ==> returned == [] && Apply(s, e).rounds == s.rounds
  {
    hide Wrap, Total, BatchSize, Reverse;
    returned := [];
    match e {
      case Add(cs, _) =>
        var vChecks := new Check[|cs|](k requires 0 <= k < |cs| => cs[k]);
        assert vChecks[..] == cs;
        var _, _ := q.Add(vChecks);
      case Critical(i) =>
        CountersAllow(s, i);
        var outcome, _ := q.CriticalSection(i == 0, s.ts[i]);
        if i == 0 && outcome.Return? {
          returned := [outcome.fRet];
        }
      case _ =>
    }
  }

  /** Any run, on a new object: the object ends up in the run's state, and returns on the way, round
      by round, the run's verdicts - the right ones while the returns fit. */
  method Replay(ss: seq<State>, es: seq<Event>) returns (q: CheckQueue, verdicts: seq<bool>)
    requires Run(ss, es)
    ensures fresh(q) && q.View() == ss[|es|].sh
    ensures |verdicts| == |ss[|es|].rounds|
    ensures forall n :: 0 <= n < |verdicts| ==> verdicts[n] == ss[|es|].rounds[n].verdict
    ensures ReturnsFit(ss, es, |es|) ==>
              forall n :: 0 <= n < |verdicts| ==> verdicts[n] == !Failed(ss[|es|].rounds[n].added)
  {
    q := new CheckQueue(ss[0].sh.nBatchSize);
    verdicts := [];
    for k := 0 to |es|
      invariant fresh(q) && q.View() == ss[k].sh
      invariant |verdicts| == |ss[k].rounds|
      invariant forall n :: 0 <= n < |verdicts| ==> verdicts[n] == ss[k].rounds[n].verdict
    {
      RunCounts(ss, es, k);
      var returned := Perform(q, ss[k], es[k]);
      verdicts := verdicts + returned;
    }
    if ReturnsFit(ss, es, |es|) {
      RunKeeps(ss, es, |es|);
    }
  }
}
