/** The lock-order detector: the recorded pairs, the scan that push_lock makes, and the object
    that holds them.  A lock is its address. */
module LockOrder {
  type Lock = nat
  type ThreadId = nat
  type LockStack = seq<Lock>
  type Pair = (Lock, Lock)

  datatype Option<T> = None | Some(value: T)

  function ButLast(stack: LockStack): LockStack {
    if stack == [] then [] else stack[..|stack| - 1]
  }

  /** lockorders maps "a before b" to the stack it was seen on; invlockorders indexes the pairs by
      their second lock. */
  datatype Orders = Orders(lockorders: map<Pair, LockStack>, invlockorders: set<Pair>)

  /** The locks below the first `c`. */
  function Below(stack: LockStack, c: Lock): (r: LockStack)
    ensures r <= stack && c !in r
    ensures r == stack || stack[|r|] == c
  {
    if stack == [] || stack[0] == c then [] else [stack[0]] + Below(stack[1..], c)
  }

  // ---- push_lock

  /** What potential_deadlock_detected is called with before it stops the run. */
  datatype Report = Report(mismatch: Pair, s1: LockStack, s2: LockStack)

  /** The loop of push_lock from position `k` of the stack, on which `c` is already pushed.  It ends
      with a report if a reversed pair stops the run. */
  function Scan(o: Orders, stack: LockStack, c: Lock, k: nat): (Orders, Option<Report>)
    requires k <= |stack|
    decreases |stack| - k
  {
    if k == |stack| || stack[k] == c then (o, None)
    else
      var p1, p2 := (stack[k], c), (c, stack[k]);
      if p1 in o.lockorders then Scan(o, stack, c, k + 1)
      else
        var o' := Record(o, stack, stack[k], c);
        if p2 in o'.lockorders then (o', Some(Report(p1, o'.lockorders[p2], o'.lockorders[p1])))
        else Scan(o', stack, c, k + 1)
  }

  function Record(o: Orders, stack: LockStack, a: Lock, c: Lock): Orders {
    Orders(o.lockorders[(a, c) := stack], o.invlockorders + {(c, a)})
  }

  /** The index is the exact transpose of the map. */
  ghost predicate Transposed(o: Orders) {
    forall a, b :: (a, b) in o.lockorders <==> (b, a) in o.invlockorders
  }

  /** No lock comes before itself, and no two locks before each other. */
  ghost predicate Antisymmetric(o: Orders) {
    && (forall a :: (a, a) !in o.lockorders)
    && (forall a, b :: (a, b) in o.lockorders ==> (b, a) !in o.lockorders)
  }

  /** A stored stack ends in b and has a below its first b. */
  ghost predicate Witness(stack: LockStack, a: Lock, b: Lock) {
    stack != [] && stack[|stack| - 1] == b && a in Below(stack, b)
  }

  ghost predicate Witnessed(o: Orders) {
    forall a, b :: (a, b) in o.lockorders ==> Witness(o.lockorders[(a, b)], a, b)
  }

  ghost predicate Sound(o: Orders) {
    Transposed(o) && Antisymmetric(o) && Witnessed(o)
  }

  /** A lock below the first c that is recorded the other way round. */
  ghost predicate Conflict(o: Orders, stack: LockStack, c: Lock) {
    exists a :: a in Below(stack, c) && (c, a) in o.lockorders
  }

  lemma {:induction false} BelowIs(stack: LockStack, c: Lock, k: nat)
    requires k < |stack|
    ensures k < |Below(stack, c)| <==> c !in stack[..k + 1]
    ensures k < |Below(stack, c)| ==> Below(stack, c)[k] == stack[k]
  {
    if stack[0] != c && k > 0 {
      BelowIs(stack[1..], c, k - 1);
      assert stack[..k + 1] == [stack[0]] + stack[1..][..k];
    }
  }

  /** What is left of the scan from position `k`: the pairs it adds, and when it stops the run. */
  lemma {:induction false} ScanRecords(o: Orders, stack: LockStack, c: Lock, k: nat)
    requires Sound(o) && stack != [] && stack[|stack| - 1] == c && k <= |Below(stack, c)|
    ensures var (o', report) := Scan(o, stack, c, k);
            && Transposed(o') && Witnessed(o')
            && (report.Some? <==> exists j :: k <= j < |Below(stack, c)| && (c, Below(stack, c)[j]) in o.lockorders)
            && (!report.Some? ==> Antisymmetric(o') && Extended(o, o', stack, c, k))
    decreases |stack| - k
  {
    hide Below, Record, Transposed, Witnessed;
    var below := Below(stack, c);
    if k < |stack| {
      BelowIs(stack, c, k);
    }
    if k < |below| {
      var a := stack[k];
      assert a == below[k];
      if (a, c) in o.lockorders {
        ScanRecords(o, stack, c, k + 1);
      } else {
        RecordIsSound(o, stack, a, c);
        if (c, a) !in o.lockorders {
          ScanRecords(Record(o, stack, a, c), stack, c, k + 1);
          if !Scan(o, stack, c, k).1.Some? {
            ExtendedFurther(o, Scan(o, stack, c, k).0, stack, c, k);
          }
        }
      }
    }
  }

  lemma ExtendedFurther(o: Orders, o': Orders, stack: LockStack, c: Lock, k: nat)
    requires k < |Below(stack, c)| && (Below(stack, c)[k], c) !in o.lockorders
    requires Extended(Record(o, stack, Below(stack, c)[k], c), o', stack, c, k + 1)
    ensures Extended(o, o', stack, c, k)
  {
    hide Below, Record, Keeps;
    var below := Below(stack, c);
    HeadOrTail(below, k);
    RecordAdds(o, stack, below[k], c);
    KeepsFurther(o, Record(o, stack, below[k], c), o', stack);
  }

  lemma HeadOrTail(stack: LockStack, k: nat)
    requires k < |stack|
    ensures forall x :: x in stack[k..] <==> x == stack[k] || x in stack[k + 1..]
  {
    assert stack[k..] == [stack[k]] + stack[k + 1..];
  }

  lemma RecordAdds(o: Orders, stack: LockStack, a: Lock, c: Lock)
    requires (a, c) !in o.lockorders
    ensures forall x, y :: (x, y) in Record(o, stack, a, c).lockorders <==>
                             (x, y) in o.lockorders || (x == a && y == c)
    ensures Keeps(o, Record(o, stack, a, c), stack)
  {
  }

  lemma KeepsFurther(o: Orders, o1: Orders, o': Orders, stack: LockStack)
    requires Keeps(o, o1, stack) && Keeps(o1, o', stack)
    requires forall a, b :: (a, b) in o.lockorders ==> (a, b) in o1.lockorders
    ensures Keeps(o, o', stack)
  {
    forall p | p in o'.lockorders
      ensures o'.lockorders[p] == if p in o.lockorders then o.lockorders[p] else stack
    {
      assert p == (p.0, p.1);
    }
  }

  /** Recording one more pair, seen on a stack that ends in c. */
  lemma RecordIsSound(o: Orders, stack: LockStack, a: Lock, c: Lock)
    requires Sound(o) && Witness(stack, a, c)
    ensures var o' := Record(o, stack, a, c);
            && Transposed(o') && Witnessed(o')
            && ((c, a) !in o.lockorders ==> Antisymmetric(o'))
            && a != c
            && forall x, y :: (x, y) in o'.lockorders <==> (x, y) in o.lockorders || (x == a && y == c)
  {
  }

  /** `o'` has the pairs of `o`, each with its stack, and those of the locks below c from `k` on,
      the new ones with the present stack. */
  ghost predicate Extended(o: Orders, o': Orders, stack: LockStack, c: Lock, k: nat)
    requires k <= |Below(stack, c)|
  {
    && (forall a, b :: (a, b) in o'.lockorders <==>
                         (a, b) in o.lockorders || (b == c && a in Below(stack, c)[k..]))
    && Keeps(o, o', stack)
  }

  /** What was recorded keeps the stack it was first seen on; what is new has the present one. */
  ghost predicate Keeps(o: Orders, o': Orders, stack: LockStack) {
    forall p :: p in o'.lockorders ==>
                  o'.lockorders[p] == if p in o.lockorders then o.lockorders[p] else stack
  }

  /** push_lock stops the run exactly when some lock below the first c has the reverse pair
      recorded; if it does not, it records exactly the pairs of those locks with c, and overwrites
      no stack. */
  lemma PushRecords(o: Orders, held: LockStack, c: Lock)
    requires Sound(o)
    ensures var (o', report) := Scan(o, held + [c], c, 0);
            && (report.Some? <==> Conflict(o, held + [c], c))
            && Transposed(o') && Witnessed(o')
            && (!report.Some? ==>
                  && Sound(o') && Keeps(o, o', held + [c])
                  && forall a, b :: (a, b) in o'.lockorders <==>
                       (a, b) in o.lockorders || (b == c && a in Below(held + [c], c)))
  {
    var stack := held + [c];
    ScanRecords(o, stack, c, 0);
    assert Below(stack, c)[0..] == Below(stack, c);
    if Conflict(o, stack, c) {
      var a :| a in Below(stack, c) && (c, a) in o.lockorders;
      var j :| 0 <= j < |Below(stack, c)| && Below(stack, c)[j] == a;
    }
  }

  /** Position `j` below the first c is the first, from `k` on, with the reverse pair recorded. */
  ghost predicate FirstConflict(o: Orders, stack: LockStack, c: Lock, k: nat, j: nat) {
    && k <= j < |Below(stack, c)| && (c, Below(stack, c)[j]) in o.lockorders
    && forall i :: k <= i < j ==> (c, Below(stack, c)[i]) !in o.lockorders
  }

  /** The report is about the lowest lock in conflict with c.  Its stacks are the one stored earlier
      for that pair and the present one, and they show the two locks in opposite orders. */
  lemma {:induction false} ReportShowsOppositeOrders(o: Orders, stack: LockStack, c: Lock, k: nat) returns (j: nat)
    requires Sound(o) && stack != [] && stack[|stack| - 1] == c && k <= |Below(stack, c)|
    requires Scan(o, stack, c, k).1.Some?
    ensures FirstConflict(o, stack, c, k, j)
    ensures var a := Below(stack, c)[j];
            && Scan(o, stack, c, k).1.value == Report((a, c), o.lockorders[(c, a)], stack)
            && Witness(o.lockorders[(c, a)], c, a) && Witness(stack, a, c)
    decreases |stack| - k
  {
    hide Below, Record, Transposed;
    if k < |stack| {
      BelowIs(stack, c, k);
    }
    var a := stack[k];
    assert a == Below(stack, c)[k];
    if (a, c) in o.lockorders {
      j := ReportShowsOppositeOrders(o, stack, c, k + 1);
    } else {
      var o1 := Record(o, stack, a, c);
      RecordIsSound(o, stack, a, c);
      RecordKeeps(o, stack, a, c);
      if (c, a) in o1.lockorders {
        j := k;
      } else {
        j := ReportShowsOppositeOrders(o1, stack, c, k + 1);
      }
    }
  }

  lemma RecordKeeps(o: Orders, stack: LockStack, a: Lock, c: Lock)
    ensures Record(o, stack, a, c).lockorders[(a, c)] == stack
    ensures forall x :: x != c && (c, x) in o.lockorders ==>
              Record(o, stack, a, c).lockorders[(c, x)] == o.lockorders[(c, x)]
    ensures forall x :: x != c && (c, x) in Record(o, stack, a, c).lockorders ==> (c, x) in o.lockorders
  {
  }

  // ---- DeleteLock

  predicate Mentions(p: Pair, c: Lock) {
    p.0 == c || p.1 == c
  }

  /** Without the pairs that mention c. */
  function Without(o: Orders, c: Lock): Orders {
    Orders(map p | p in o.lockorders && !Mentions(p, c) :: o.lockorders[p],
           set p | p in o.invlockorders && !Mentions(p, c))
  }

  lemma WithoutSound(o: Orders, c: Lock)
    requires Sound(o)
    ensures Sound(Without(o, c))
  {
  }

  // ---- Ordered containers

  /** The order of std::pair. */
  predicate Before(p: Pair, q: Pair) {
    p.0 < q.0 || (p.0 == q.0 && p.1 < q.1)
  }

  predicate IsLeast(p: Pair, keys: set<Pair>) {
    p in keys && forall q :: q in keys && q != p ==> Before(p, q)
  }

  lemma {:induction false} LeastExists(keys: set<Pair>)
    requires keys != {}
    ensures exists p :: IsLeast(p, keys)
    decreases |keys|
  {
    var p :| p in keys;
    var rest := keys - {p};
    assert forall x :: x in keys ==> x == p || x in rest;
    if rest == {} {
      assert IsLeast(p, keys);
    } else {
      LeastExists(rest);
      var q :| IsLeast(q, rest);
      assert IsLeast(if Before(p, q) then p else q, keys);
    }
  }

  /** lower_bound: the least key that is not before `item`; `None` is end(). */
  function LowerBound(keys: set<Pair>, item: Pair): (r: Option<Pair>)
    ensures r.None? ==> forall q :: q in keys ==> Before(q, item)
    ensures r.Some? ==> r.value in keys && !Before(r.value, item)
    ensures r.Some? ==> forall q :: q in keys && Before(q, r.value) ==> Before(q, item)
  {
    var above := set q | q in keys && !Before(q, item);
    if above == {} then
      assert forall q :: q in keys ==> Before(q, item) by {
        assert forall q :: q in keys && !Before(q, item) ==> q in above;
      }
      None
    else
      LeastExists(above);
      var p :| IsLeast(p, above);
      assert forall q :: q in keys && !Before(q, item) ==> q in above;
      Some(p)
  }

  /** Incrementing an iterator at `p`: the least key after it. */
  function Next(keys: set<Pair>, p: Pair): Option<Pair> {
    LowerBound(keys, (p.0, p.1 + 1))
  }

  /** A loop that erases what it visits always stands at the least remaining key. */
  lemma NextIsLowerBound(keys: set<Pair>, item: Pair, p: Pair)
    requires LowerBound(keys, item) == Some(p)
    ensures Next(keys, p) == LowerBound(keys - {p}, item)
  {
    var a, b := Next(keys, p), LowerBound(keys - {p}, item);
    assert forall q :: q in keys - {p} && !Before(q, item) <==> q in keys && !Before(q, (p.0, p.1 + 1));
  }

  // ---- The detector object

  class LockData {
    var lockorders: map<Pair, LockStack>
    var invlockorders: set<Pair>
    /** The thread-specific stacks; a thread without an entry has not locked anything yet. */
    var lockstacks: map<ThreadId, LockStack>
    /** Set when assert(false) has stopped the run. */
    var halted: bool

    constructor ()
      ensures View() == Orders(map[], {}) && lockstacks == map[] && !halted
    {
      lockorders, invlockorders, lockstacks, halted := map[], {}, map[], false;
    }

    function View(): Orders
      reads this
    {
      Orders(lockorders, invlockorders)
    }

    function Stack(t: ThreadId): LockStack
      reads this
    {
      if t in lockstacks then lockstacks[t] else []
    }

    /** The call that stops the run is reported. */
    method PushLock(t: ThreadId, c: Lock) returns (report: Option<Report>)
      requires !halted
      modifies this
      ensures lockstacks == old(lockstacks)[t := old(Stack(t)) + [c]]
      ensures (View(), report) == Scan(old(View()), Stack(t), c, 0) && halted == report.Some?
      ensures Stack(t) == old(Stack(t)) + [c] && forall u :: u != t ==> Stack(u) == old(Stack(u))
    {
      if t !in lockstacks {
        lockstacks := lockstacks[t := []];
      }
      lockstacks := lockstacks[t := lockstacks[t] + [c]];
      var stack := lockstacks[t];
      var k := 0;
      while k < |stack| && stack[k] != c
        modifies this`lockorders, this`invlockorders, this`halted
        invariant k <= |stack| && !halted
        invariant Scan(View(), stack, c, k) == Scan(old(View()), stack, c, 0)
      {
        var p1 := (stack[k], c);
        if p1 !in lockorders {
          lockorders := lockorders[p1 := stack];
          var p2 := (c, stack[k]);
          invlockorders := invlockorders + {p2};
          if p2 in lockorders {
            halted := true;
            return Some(Report(p1, lockorders[p2], lockorders[p1]));
          }
        }
        k := k + 1;
      }
      report := None;
    }

    /** Popping an empty vector is undefined, so a caller owes a lock on the stack. */
    method PopLock(t: ThreadId)
      requires Stack(t) != []
      modifies this`lockstacks
      ensures lockstacks == old(lockstacks)[t := ButLast(old(Stack(t)))]
      ensures Stack(t) == ButLast(old(Stack(t))) && forall u :: u != t ==> Stack(u) == old(Stack(u))
    {
      lockstacks := lockstacks[t := lockstacks[t][..|lockstacks[t]| - 1]];
    }

    /** Removes from both containers exactly the pairs that mention cs. */
    method DeleteLock(cs: Lock)
      requires Transposed(View())
      modifies this`lockorders, this`invlockorders
      ensures View() == Without(old(View()), cs)
    {
      EraseFirst(cs);
      EraseSecond(cs);
      assert lockorders == Without(old(View()), cs).lockorders;
      TransposeDetermined(View(), Without(old(View()), cs));
    }

    /** The loop over lockorders: the pairs with cs first. */
    method EraseFirst(cs: Lock)
      requires Transposed(View())
      modifies this`lockorders, this`invlockorders
      ensures Transposed(View())
      ensures lockorders == map p | p in old(lockorders) && p.0 != cs :: old(lockorders)[p]
    {
      hide LowerBound, Next, Transposed;
      ghost var o := lockorders;
      var item := (cs, 0);
      var it := LowerBound(lockorders.Keys, item);
      while it.Some? && it.value.0 == cs
        invariant it == LowerBound(lockorders.Keys, item)
        invariant Transposed(View())
        invariant forall p :: p in lockorders ==> p in o && lockorders[p] == o[p]
        invariant forall p :: p in o && p.0 != cs ==> p in lockorders
        decreases |lockorders|
      {
        var p := it.value;
        EraseKeepsTransposed(View(), p);
        invlockorders := invlockorders - {(p.1, p.0)};
        NextIsLowerBound(lockorders.Keys, item, p);
        it := Next(lockorders.Keys, p);
        ShrinkMap(lockorders, p);
        lockorders := lockorders - {p};
      }
    }

    /** The loop over invlockorders: the pairs with cs second. */
    method EraseSecond(cs: Lock)
      requires Transposed(View())
      modifies this`lockorders, this`invlockorders
      ensures Transposed(View())
      ensures lockorders == map p | p in old(lockorders) && p.1 != cs :: old(lockorders)[p]
    {
      hide LowerBound, Next, Transposed;
      ghost var o := lockorders;
      var item := (cs, 0);
      var invit := LowerBound(invlockorders, item);
      while invit.Some? && invit.value.0 == cs
        invariant invit == LowerBound(invlockorders, item)
        invariant Transposed(View())
        invariant forall p :: p in lockorders ==> p in o && lockorders[p] == o[p]
        invariant forall p :: p in o && p.1 != cs ==> p in lockorders
        decreases |invlockorders|
      {
        var p := invit.value;
        EraseKeepsTransposed(View(), (p.1, p.0));
        lockorders := lockorders - {(p.1, p.0)};
        NextIsLowerBound(invlockorders, item, p);
        invit := Next(invlockorders, p);
        invlockorders := invlockorders - {p};
      }
      SecondIsIndexed(View(), cs);
    }
  }

  lemma EraseKeepsTransposed(o: Orders, p: Pair)
    requires Transposed(o)
    ensures Transposed(Orders(o.lockorders - {p}, o.invlockorders - {(p.1, p.0)}))
  {
  }

  lemma TransposeDetermined(o: Orders, o': Orders)
    requires Transposed(o) && Transposed(o') && o.lockorders == o'.lockorders
    ensures o == o'
  {
    forall p: Pair ensures p in o.invlockorders <==> p in o'.invlockorders {
      assert p == (p.0, p.1);
      assert (p.0, p.1) in o.invlockorders <==> (p.1, p.0) in o.lockorders;
      assert (p.0, p.1) in o'.invlockorders <==> (p.1, p.0) in o'.lockorders;
    }
  }

  lemma SecondIsIndexed(o: Orders, cs: Lock)
    requires Transposed(o) && forall q :: q in o.invlockorders ==> q.0 != cs
    ensures forall p :: p in o.lockorders ==> p.1 != cs
  {
    forall p | p in o.lockorders ensures p.1 != cs {
      assert (p.0, p.1) in o.lockorders;
      assert (p.1, p.0) in o.invlockorders;
    }
  }

  lemma ShrinkMap(m: map<Pair, LockStack>, p: Pair)
    requires p in m
    ensures (m - {p}).Keys == m.Keys - {p} && |m - {p}| < |m|
  {
    assert (m - {p}).Keys == m.Keys - {p};
    assert |(m - {p}).Keys| < |m.Keys|;
  }
}
