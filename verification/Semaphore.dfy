/** The counting semaphore and its grants as objects, and a pool of them that any program may
    use in any order. */
module Semaphore {

  /** Taking a unit if there is one. */
  function Take(value: int): (int, bool) {
    if value < 1 then (value, false) else (value - 1, true)
  }

  /** One call of `wait` is a sequence of attempts with sleeps between them; `WaitAttempt` is the
      code from locking the mutex, or from waking up with it, to the next sleep or the return. */
  class CSemaphore {
    var value: int

    constructor (init: int)
      ensures value == init
    {
      value := init;
    }

    method WaitAttempt() returns (acquired: bool)
      modifies this
      ensures (value, acquired) == Take(old(value))
      ensures acquired == (old(value) >= 1) && value == old(value) - (if acquired then 1 else 0)
    {
      if value < 1 {
        return false;
      }
      value := value - 1;
      return true;
    }

    method TryWait() returns (acquired: bool)
      modifies this
      ensures (value, acquired) == Take(old(value))
      ensures acquired == (old(value) >= 1) && value == old(value) - (if acquired then 1 else 0)
    {
      if value < 1 {
        return false;
      }
      value := value - 1;
      return true;
    }

    method Post()
      modifies this
      ensures value == old(value) + 1
    {
      value := value + 1;
    }
  }

  class CSemaphoreGrant {
    var sem: CSemaphore?
    var fHaveGrant: bool

    /** A grant is used with a semaphore, unless it holds nothing. */
    predicate Valid()
      reads this
    {
      fHaveGrant ==> sem != null
    }

    constructor Empty()
      ensures sem == null && !fHaveGrant
    {
      sem, fHaveGrant := null, false;
    }

    constructor (sema: CSemaphore)
      ensures sem == sema && !fHaveGrant
    {
      sem, fHaveGrant := sema, false;
    }

    /** `blocked` means that the call would sleep here: it has changed nothing so far. */
    method Acquire() returns (blocked: bool)
      requires Valid() && (fHaveGrant || sem != null)
      modifies this`fHaveGrant, sem
      ensures sem == old(sem) && Valid()
      ensures blocked == (!old(fHaveGrant) && old(sem.value) < 1)
      ensures fHaveGrant == !blocked
      ensures sem.value == old(sem.value) - (if !old(fHaveGrant) && !blocked then 1 else 0)
    {
      if fHaveGrant {
        return false;
      }
      var acquired := sem.WaitAttempt();
      if !acquired {
        return true;
      }
      fHaveGrant := true;
      return false;
    }

    method Release()
      requires Valid()
      modifies this`fHaveGrant, sem
      ensures sem == old(sem) && !fHaveGrant
      ensures sem != null ==> sem.value == old(sem.value) + (if old(fHaveGrant) then 1 else 0)
    {
      if !fHaveGrant {
        return;
      }
      sem.Post();
      fHaveGrant := false;
    }

    method TryAcquire() returns (have: bool)
      requires Valid() && (fHaveGrant || sem != null)
      modifies this`fHaveGrant, sem
      ensures sem == old(sem) && Valid()
      ensures have == fHaveGrant == (old(fHaveGrant) || old(sem.value) >= 1)
      ensures sem.value == old(sem.value) - (if have && !old(fHaveGrant) then 1 else 0)
    {
      if !fHaveGrant {
        var acquired := sem.TryWait();
        if acquired {
          fHaveGrant := true;
        }
      }
      return fHaveGrant;
    }

    /** Hands this grant over; what the other grant held is released first.  Moved onto itself,
        a grant is released. */
    method MoveTo(grant: CSemaphoreGrant)
      requires Valid() && grant.Valid()
      modifies this, grant, grant.sem
      ensures sem == old(sem) && grant.sem == old(sem)
      ensures !fHaveGrant || grant == this
      ensures grant != this ==> grant.fHaveGrant == old(fHaveGrant)
      ensures grant == this ==> !fHaveGrant
      ensures old(grant.sem) != null ==>
                old(grant.sem).value == old(grant.sem.value) + (if old(grant.fHaveGrant) then 1 else 0)
    {
      grant.Release();
      grant.sem := sem;
      grant.fHaveGrant := fHaveGrant;
      fHaveGrant := false;
    }
  }

  // ---- Conservation

  /** What a grant says about itself. */
  datatype Slot = Slot(sem: CSemaphore?, have: bool)

  /** The number of grants that hold a unit of `s`. */
  function Units(slots: seq<Slot>, s: CSemaphore): nat {
    if slots == [] then 0
    else Units(slots[..|slots| - 1], s) + Unit(slots[|slots| - 1], s)
  }

  function Unit(slot: Slot, s: CSemaphore): nat {
    if slot == Slot(s, true) then 1 else 0
  }

  lemma {:induction false} UnitsUpdate(slots: seq<Slot>, i: nat, slot: Slot, s: CSemaphore)
    requires i < |slots|
    ensures Units(slots[i := slot], s) == Units(slots, s) - Unit(slots[i], s) + Unit(slot, s)
  {
    var n := |slots| - 1;
    if i == n {
      assert slots[i := slot][..n] == slots[..n];
    } else {
      assert slots[i := slot][..n] == slots[..n][i := slot];
      UnitsUpdate(slots[..n], i, slot, s);
    }
  }

  /** What is free plus what is held is what there was, and nothing is overdrawn. */
  ghost predicate Balanced(sems: seq<CSemaphore>, initial: seq<int>, values: seq<int>, slots: seq<Slot>) {
    && |values| == |initial| == |sems|
    && forall k :: 0 <= k < |sems| ==> values[k] >= 0 && values[k] + Units(slots, sems[k]) == initial[k]
  }

  lemma AcquireBalances(sems: seq<CSemaphore>, initial: seq<int>, values: seq<int>, slots: seq<Slot>, i: nat, k: nat)
    requires Balanced(sems, initial, values, slots)
    requires forall a, b :: 0 <= a < b < |sems| ==> sems[a] != sems[b]
    requires i < |slots| && k < |sems| && slots[i] == Slot(sems[k], false) && values[k] >= 1
    ensures Balanced(sems, initial, values[k := values[k] - 1], slots[i := Slot(sems[k], true)])
  {
    forall m | 0 <= m < |sems|
      ensures var n := Units(slots[i := Slot(sems[k], true)], sems[m]);
              n == Units(slots, sems[m]) + if m == k then 1 else 0
    {
      UnitsUpdate(slots, i, Slot(sems[k], true), sems[m]);
    }
  }

  /** The slots after slot i was moved to slot j; onto itself, it is released. */
  function Moved(slots: seq<Slot>, i: nat, j: nat): seq<Slot>
    requires i < |slots| && j < |slots|
  {
    if i == j then slots[i := Slot(slots[i].sem, false)]
    else slots[j := slots[i]][i := Slot(slots[i].sem, false)]
  }

  /** A move gives back what the target held, and nothing else. */
  lemma MoveBalances(sems: seq<CSemaphore>, initial: seq<int>, values: seq<int>, slots: seq<Slot>,
                     i: nat, j: nat, after: seq<int>)
    requires Balanced(sems, initial, values, slots) && i < |slots| && j < |slots|
    requires |after| == |sems|
    requires forall k :: 0 <= k < |sems| ==> after[k] == values[k] + Unit(slots[j], sems[k])
    ensures Balanced(sems, initial, after, Moved(slots, i, j))
  {
    forall k | 0 <= k < |sems|
      ensures after[k] + Units(Moved(slots, i, j), sems[k]) == initial[k]
    {
      var none := Slot(slots[i].sem, false);
      if i == j {
        UnitsUpdate(slots, i, none, sems[k]);
      } else {
        UnitsUpdate(slots, j, slots[i], sems[k]);
        UnitsUpdate(slots[j := slots[i]], i, none, sems[k]);
      }
    }
  }

  lemma EmptySlotBalances(sems: seq<CSemaphore>, initial: seq<int>, values: seq<int>, slots: seq<Slot>, slot: Slot)
    requires Balanced(sems, initial, values, slots) && !slot.have
    ensures Balanced(sems, initial, values, slots + [slot])
  {
    assert (slots + [slot])[..|slots|] == slots;
  }

  datatype Op =
    | New(s: nat, fTry: bool)
    | NewEmpty
    | Acquire(g: nat)
    | TryAcquire(g: nat)
    | Release(g: nat)
    | MoveTo(g: nat, to: nat)
    | Destroy(g: nat)

  predicate Names(op: Op, i: nat) {
    !op.New? && !op.NewEmpty? && (op.g == i || (op.MoveTo? && op.to == i))
  }

  /** Some unit of `s` is not held by any grant. */
  ghost predicate Spare(sems: seq<CSemaphore>, initial: seq<int>, slots: seq<Slot>, s: CSemaphore?)
    requires |initial| == |sems|
  {
    exists k :: 0 <= k < |sems| && sems[k] == s && Units(slots, sems[k]) < initial[k]
  }

  ghost function Taken(sems: seq<CSemaphore>, initial: seq<int>, slots: seq<Slot>, i: nat): seq<Slot>
    requires |initial| == |sems| && i < |slots|
  {
    if Spare(sems, initial, slots, slots[i].sem) then slots[i := Slot(slots[i].sem, true)] else slots
  }

  /** The grants after an operation, without looking at any semaphore's value: an acquisition
      succeeds when a unit is spare. */
  ghost function After(sems: seq<CSemaphore>, initial: seq<int>, slots: seq<Slot>, op: Op): seq<Slot>
    requires |initial| == |sems|
  {
    match op
    case New(s, fTry) =>
      if s < |sems| && (fTry || Spare(sems, initial, slots, sems[s])) then
        Taken(sems, initial, slots + [Slot(sems[s], false)], |slots|)
      else slots
    case NewEmpty => slots + [Slot(null, false)]
    case Acquire(i) => if i < |slots| then Taken(sems, initial, slots, i) else slots
    case TryAcquire(i) => if i < |slots| then Taken(sems, initial, slots, i) else slots
    case Release(i) => if i < |slots| then Moved(slots, i, i) else slots
    case MoveTo(i, j) => if i < |slots| && j < |slots| then Moved(slots, i, j) else slots
    case Destroy(i) => if i < |slots| then Moved(slots, i, i) else slots
  }

  /** An operation does nothing to grants it does not name. */
  lemma OthersStay(sems: seq<CSemaphore>, initial: seq<int>, slots: seq<Slot>, op: Op, i: nat)
    requires |initial| == |sems| && i < |slots| && !Names(op, i)
    ensures |slots| <= |After(sems, initial, slots, op)| <= |slots| + 1
    ensures After(sems, initial, slots, op)[i] == slots[i]
  {
  }

  ghost function AfterAll(sems: seq<CSemaphore>, initial: seq<int>, slots: seq<Slot>, ops: seq<Op>): seq<Slot>
    requires |initial| == |sems|
  {
    if ops == [] then slots
    else After(sems, initial, AfterAll(sems, initial, slots, ops[..|ops| - 1]), ops[|ops| - 1])
  }

  /** The last operations destroy grants 0 to n-1. */
  predicate EndsInDestruction(ops: seq<Op>, n: nat) {
    n <= |ops| && forall i :: 0 <= i < n ==> ops[|ops| - n + i] == Destroy(i)
  }

  /** After the destruction of every grant none holds anything. */
  lemma {:induction false} DestroyedHoldNothing(
      sems: seq<CSemaphore>, initial: seq<int>, slots: seq<Slot>, ops: seq<Op>, n: nat, i: nat)
    requires |initial| == |sems| && EndsInDestruction(ops, n) && i <= n
    requires |AfterAll(sems, initial, slots, ops)| == n
    ensures var later := AfterAll(sems, initial, slots, ops[..|ops| - n + i]);
            |later| == n && forall j :: 0 <= j < i ==> !later[j].have
  {
    LengthKept(sems, initial, slots, ops, n, i);
    if i > 0 {
      DestroyedHoldNothing(sems, initial, slots, ops, n, i - 1);
      LastOp(ops, n, i - 1);
    }
  }

  lemma {:induction false} LengthKept(
      sems: seq<CSemaphore>, initial: seq<int>, slots: seq<Slot>, ops: seq<Op>, n: nat, i: nat)
    requires |initial| == |sems| && EndsInDestruction(ops, n) && i <= n
    ensures |AfterAll(sems, initial, slots, ops[..|ops| - n + i])| == |AfterAll(sems, initial, slots, ops)|
    decreases n - i
  {
    var m := |ops| - n + i;
    if i == n {
      assert ops[..m] == ops;
    } else {
      LengthKept(sems, initial, slots, ops, n, i + 1);
      LastOp(ops, n, i);
    }
  }

  lemma LastOp(ops: seq<Op>, n: nat, i: nat)
    requires EndsInDestruction(ops, n) && i < n
    ensures var m := |ops| - n + i;
            ops[..m + 1] != [] && ops[..m + 1][..|ops[..m + 1]| - 1] == ops[..m] && ops[..m + 1][m] == Destroy(i)
  {
  }

  lemma {:induction false} NoUnits(slots: seq<Slot>, s: CSemaphore)
    requires forall i :: 0 <= i < |slots| ==> !slots[i].have
    ensures Units(slots, s) == 0
  {
    if slots != [] {
      NoUnits(slots[..|slots| - 1], s);
    }
  }

  /** Semaphores whose units are taken and returned through grants only. */
  class GrantPool {
    const sems: seq<CSemaphore>
    ghost const initial: seq<int>
    /** Every grant made so far, destroyed ones included. */
    var grants: seq<CSemaphoreGrant>

    constructor (sems: seq<CSemaphore>)
      requires forall a, b :: 0 <= a < b < |sems| ==> sems[a] != sems[b]
      requires forall k :: 0 <= k < |sems| ==> sems[k].value >= 0
      ensures this.sems == sems && grants == [] && Valid()
      ensures |initial| == |sems| && forall k :: 0 <= k < |sems| ==> initial[k] == sems[k].value
    {
      this.sems, grants := sems, [];
      initial := seq(|sems|, k requires 0 <= k < |sems| reads sems => sems[k].value);
    }

    ghost function Slots(): (r: seq<Slot>)
      reads this, grants
      ensures |r| == |grants|
    {
      seq(|grants|, i requires 0 <= i < |grants| reads this, grants => Slot(grants[i].sem, grants[i].fHaveGrant))
    }

    ghost function Values(): (r: seq<int>)
      reads this, sems
      ensures |r| == |sems|
    {
      seq(|sems|, k requires 0 <= k < |sems| reads this, sems => sems[k].value)
    }

    ghost predicate Shape()
      reads this, grants
    {
      && (forall a, b :: 0 <= a < b < |sems| ==> sems[a] != sems[b])
      && (forall i, j :: 0 <= i < j < |grants| ==> grants[i] != grants[j])
      && (forall i :: 0 <= i < |grants| ==> grants[i].Valid() && (grants[i].sem != null ==> grants[i].sem in sems))
    }

    ghost predicate Valid()
      reads this, sems, grants
    {
      Shape() && Balanced(sems, initial, Values(), Slots())
    }

    ghost function IndexOf(s: CSemaphore): (k: nat)
      requires s in sems
      ensures k < |sems| && sems[k] == s
    {
      var k :| 0 <= k < |sems| && sems[k] == s; k
    }

    /** Acquire or TryAcquire on the grant with number i.  A call of Acquire that would sleep has
        not happened yet. */
    method AcquireAt(g: CSemaphoreGrant, ghost i: nat, fTry: bool)
      requires Valid() && i < |grants| && grants[i] == g && (g.fHaveGrant || g.sem != null)
      modifies g`fHaveGrant, g.sem
      ensures Valid() && Slots() == Taken(sems, initial, old(Slots()), i)
      ensures GetsUnit(g)
    {
      ghost var k := IndexOf(g.sem);
      ghost var values, slots := Values(), Slots();
      ghost var takes := !g.fHaveGrant && g.sem.value >= 1;
      assert Spare(sems, initial, slots, g.sem) <==> values[k] >= 1;
      if fTry {
        var _ := g.TryAcquire();
      } else {
        var _ := g.Acquire();
      }
      if takes {
        AcquireBalances(sems, initial, values, slots, i, k);
        assert Values() == values[k := values[k] - 1];
        assert Slots() == slots[i := Slot(sems[k], true)];
      } else {
        assert Values() == values && Slots() == slots;
      }
    }

    method ReleaseAt(g: CSemaphoreGrant, ghost i: nat)
      requires Valid() && i < |grants| && grants[i] == g
      modifies g`fHaveGrant, g.sem
      ensures Valid() && Slots() == Moved(old(Slots()), i, i)
      ensures GivesBack(g)
    {
      ghost var values, slots := Values(), Slots();
      g.Release();
      assert Slots() == Moved(slots, i, i);
      MoveBalances(sems, initial, values, slots, i, i, Values());
    }

    /** MoveTo between any two grants, or from one onto itself. */
    method MoveAt(g: CSemaphoreGrant, ghost i: nat, to: CSemaphoreGrant, ghost j: nat)
      requires Valid() && i < |grants| && grants[i] == g && j < |grants| && grants[j] == to
      modifies g, to, to.sem
      ensures Valid() && Slots() == Moved(old(Slots()), i, j)
      ensures HandsOver(g, to, old(to.sem))
    {
      ghost var values, slots := Values(), Slots();
      g.MoveTo(to);
      assert i == j <==> g == to;
      assert Slots() == Moved(slots, i, j);
      MoveBalances(sems, initial, values, slots, i, j, Values());
    }

    /** A new grant, without a unit yet. */
    method NewGrant(g: CSemaphoreGrant)
      requires Valid() && g !in grants && !g.fHaveGrant && (g.sem == null || g.sem in sems)
      modifies this`grants
      ensures Valid() && grants == old(grants) + [g]
      ensures Slots() == old(Slots()) + [Slot(g.sem, false)]
    {
      ghost var slots := Slots();
      EmptySlotBalances(sems, initial, Values(), slots, Slot(g.sem, false));
      grants := grants + [g];
      assert Slots() == slots + [Slot(g.sem, false)];
    }

    /** CSemaphoreGrant(sema, fTry).  A constructor that would sleep has not made a grant yet. */
    method MakeGrant(s: nat, fTry: bool)
      requires Valid() && s < |sems|
      modifies this`grants, sems
      ensures Valid() && old(grants) <= grants
      ensures |grants| == |old(grants)| + (if fTry || old(sems[s].value) >= 1 then 1 else 0)
      ensures forall m :: |old(grants)| <= m < |grants| ==> fresh(grants[m])
      ensures Slots() == After(sems, initial, old(Slots()), New(s, fTry))
      ensures sems[s].value == old(sems[s].value) - (if old(sems[s].value) >= 1 then 1 else 0)
      ensures |grants| > |old(grants)| ==> Slots()[|old(grants)|] == Slot(sems[s], old(sems[s].value) >= 1)
    {
      hide Units, Balanced;
      SpareIsFree(s);
      if !fTry && sems[s].value < 1 {
        return;
      }
      var g := new CSemaphoreGrant(sems[s]);
      NewGrant(g);
      AcquireAt(g, |grants| - 1, fTry);
    }

    /** A unit is spare exactly when the value is positive. */
    lemma SpareIsFree(s: nat)
      requires Valid() && s < |sems|
      ensures Spare(sems, initial, Slots(), sems[s]) <==> sems[s].value >= 1
    {
      assert Values()[s] == sems[s].value;
      assert Values()[s] + Units(Slots(), sems[s]) == initial[s];
    }

    /** CSemaphoreGrant(). */
    method MakeEmptyGrant()
      requires Valid()
      modifies this`grants
      ensures Valid() && |grants| == |old(grants)| + 1 && old(grants) <= grants
      ensures fresh(grants[|old(grants)|])
      ensures Slots() == After(sems, initial, old(Slots()), NewEmpty) == old(Slots()) + [Slot(null, false)]
    {
      var g := new CSemaphoreGrant.Empty();
      NewGrant(g);
    }

    /** A release, by whichever operation: the grant holds nothing afterwards, and its semaphore has
        one unit more if and only if it held one. */
    twostate predicate GivesBack(g: CSemaphoreGrant)
      reads g, g.sem
    {
      && g.sem == old(g.sem) && !g.fHaveGrant
      && (g.sem != null ==> g.sem.value == old(g.sem.value) + (if old(g.fHaveGrant) then 1 else 0))
    }

    /** An acquisition: the grant holds a unit afterwards if it did before or there was one. */
    twostate predicate GetsUnit(g: CSemaphoreGrant)
      reads g, g.sem
    {
      && g.sem == old(g.sem)
      && (g.sem == null ==> g.fHaveGrant == old(g.fHaveGrant))
      && (g.sem != null ==>
            && g.fHaveGrant == (old(g.fHaveGrant) || old(g.sem.value) >= 1)
            && g.sem.value == old(g.sem.value) - (if g.fHaveGrant && !old(g.fHaveGrant) then 1 else 0))
    }

    /** A move: the target has what the other grant had, and the unit that the target may have held
        of `was` is given back. */
    twostate predicate HandsOver(g: CSemaphoreGrant, to: CSemaphoreGrant, was: CSemaphore?)
      reads g, to, was
    {
      && g.sem == to.sem == old(g.sem) && !g.fHaveGrant
      && (g != to ==> to.fHaveGrant == old(g.fHaveGrant))
      && (was != null ==> was.value == old(was.value) + (if old(to.fHaveGrant) then 1 else 0))
    }

    /** One operation; one that names no grant or semaphore does nothing. */
    method Perform(op: Op)
      requires Valid()
      modifies this`grants, sems, grants
      ensures Valid() && old(grants) <= grants
      ensures Slots() == After(sems, initial, old(Slots()), op)
      ensures forall m :: |old(grants)| <= m < |grants| ==> fresh(grants[m])
      ensures (op.Release? || op.Destroy?) && op.g < |old(grants)| ==> GivesBack(old(grants)[op.g])
      ensures (op.Acquire? || op.TryAcquire?) && op.g < |old(grants)| ==> GetsUnit(old(grants)[op.g])
      ensures op.MoveTo? && op.g < |old(grants)| && op.to < |old(grants)| ==>
                HandsOver(old(grants)[op.g], old(grants)[op.to], old(grants[op.to].sem))
      ensures op.New? && op.s < |sems| ==>
                var unit := old(sems[op.s].value) >= 1;
                && |grants| == |old(grants)| + (if op.fTry || unit then 1 else 0)
                && sems[op.s].value == old(sems[op.s].value) - (if unit then 1 else 0)
                && (op.fTry || unit ==> Slots()[|old(grants)|] == Slot(sems[op.s], unit))
      ensures op.NewEmpty? ==> Slots() == old(Slots()) + [Slot(null, false)]
    {
      match op {
        case New(s, fTry) =>
          if s < |sems| {
            MakeGrant(s, fTry);
          }
        case NewEmpty => MakeEmptyGrant();
        case Acquire(i) =>
          if i < |grants| && grants[i].sem != null {
            AcquireAt(grants[i], i, false);
          }
        case TryAcquire(i) =>
          if i < |grants| && grants[i].sem != null {
            AcquireAt(grants[i], i, true);
          }
        case Release(i) =>
          if i < |grants| {
            ReleaseAt(grants[i], i);
          }
        case MoveTo(i, j) =>
          if i < |grants| && j < |grants| {
            MoveAt(grants[i], i, grants[j], j);
          }
        case Destroy(i) =>
          if i < |grants| {
            ReleaseAt(grants[i], i);
          }
      }
    }

    /** When no grant holds anything, every semaphore is back at its initial value. */
    lemma AllFree()
      requires Valid() && forall i :: 0 <= i < |grants| ==> !Slots()[i].have
      ensures Values() == initial
    {
      forall k | 0 <= k < |sems| ensures Values()[k] == initial[k] {
        NoUnits(Slots(), sems[k]);
      }
    }

    /** Conservation over any run: each semaphore keeps its value plus the units held by grants
        equal to what it began with, its value is never negative, and once every grant is destroyed
        it is the initial value again. */
    method Run(ops: seq<Op>)
      requires Valid()
      modifies this`grants, sems, grants
      ensures Valid() && Slots() == AfterAll(sems, initial, old(Slots()), ops)
      ensures EndsInDestruction(ops, |grants|) ==> Values() == initial
    {
      for k := 0 to |ops|
        modifies this`grants, sems, grants
        invariant Valid() && old(grants) <= grants
        invariant Slots() == AfterAll(sems, initial, old(Slots()), ops[..k])
        invariant forall m :: |old(grants)| <= m < |grants| ==> fresh(grants[m])
      {
        assert ops[..k + 1][..k] == ops[..k];
        Perform(ops[k]);
      }
      assert ops[..|ops|] == ops;
      if EndsInDestruction(ops, |grants|) {
        DestroyedHoldNothing(sems, initial, old(Slots()), ops, |grants|, |grants|);
        AllFree();
      }
    }
  }
}
