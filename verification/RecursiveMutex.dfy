/** The recursive mutex of hurd/rmutex.h, on top of the futex mutex that guards
    its fields: one access per step, any number of threads. */
module RecursiveMutex {
  import F = FutexMutex

  const NIL := -1

  /** Where a thread is; the inner mutex has program counters of its own. */
  datatype Pc =
    | Out                      // not in a call
    | Locking                  // lock: acquiring the inner mutex
    | Check                    // reading the owner
    | Inc                      // already ours: count one more
    | Take                     // free: about to store count
    | Own                      // about to store owner
    | LockDone                 // releasing the inner mutex, then return
    | Mark                     // someone else's: note that there are waiters
    | MarkDone(c: int)         // releasing the inner mutex, then wait
    | WaitOn(c: int)           // about to call futex_wait on count
    | Sleeping
    | Unlocking                // unlock: acquiring the inner mutex
    | Dec                      // about to count one less
    | Disown(wake: bool)       // count reached 0: about to clear owner
    | UnlockDone(wake: bool)   // releasing the inner mutex
    | WakeOne                  // about to call futex_wake

  /** held[i]: lock calls of thread i that have returned, minus unlock calls it
      has started. */
  datatype State = State(inner: F.State, count: int, owner: int, pcs: seq<Pc>, held: seq<nat>)

  ghost function Init(n: nat): State {
    State(F.Init(n), 0, NIL, seq(n, _ => Out), seq(n, _ => 0))
  }

  function At(s: State, i: nat, p: Pc): State
    requires i < |s.pcs|
  {
    s.(pcs := s.pcs[i := p])
  }

  /** Thread i works on the inner mutex until its inner program counter is goal. */
  ghost predicate InnerStep(s: State, s': State, i: nat, k: nat, goal: F.Pc, after: Pc)
    requires i < |s.pcs| == |s.inner.pcs|
  {
    if s.inner.pcs[i] == goal then s' == At(s, i, after)
    else F.Step(s.inner, s'.inner, i, k) && s' == s.(inner := s'.inner)
  }

  ghost predicate Step(s: State, s': State, i: nat, k: nat)
    requires i < |s.pcs| == |s.inner.pcs| == |s.held|
  {
    match s.pcs[i]
    case Out =>
      || s' == At(s, i, Locking)
      || (s.held[i] > 0 && s' == At(s, i, Unlocking).(held := s.held[i := s.held[i] - 1]))
    case Locking => InnerStep(s, s', i, k, F.Held, Check)
    case Check => s' == At(s, i, if s.owner == i then Inc else if s.owner == NIL then Take else Mark)
    case Inc => s' == At(s, i, LockDone).(count := if s.count > 0 then s.count + 1 else s.count - 1)
    case Take => s' == At(s, i, Own).(count := 1)
    case Own => s' == At(s, i, LockDone).(owner := i)
    case LockDone =>
      if s.inner.pcs[i] == F.Idle then s' == At(s, i, Out).(held := s.held[i := s.held[i] + 1])
      else InnerStep(s, s', i, k, F.Idle, Out)
    case Mark =>
      var c := if s.count > 0 then -s.count else s.count;
      s' == At(s, i, MarkDone(c)).(count := c)
    case MarkDone(c) => InnerStep(s, s', i, k, F.Idle, WaitOn(c))
    case WaitOn(c) => s' == At(s, i, if s.count == c then Sleeping else Locking)
    case Sleeping => s' == At(s, i, Locking)
    case Unlocking => InnerStep(s, s', i, k, F.Held, Dec)
    case Dec =>
      var c := if s.count > 0 then s.count - 1 else s.count + 1;
      s' == At(s, i, if c == 0 then Disown(s.count < 0) else UnlockDone(false)).(count := c)
    case Disown(w) => s' == At(s, i, UnlockDone(w)).(owner := NIL)
    case UnlockDone(w) => InnerStep(s, s', i, k, F.Idle, if w then WakeOne else Out)
    case WakeOne =>
      if exists j :: 0 <= j < |s.pcs| && s.pcs[j] == Sleeping then
        k < |s.pcs| && s.pcs[k] == Sleeping && s' == s.(pcs := s.pcs[k := Locking][i := Out])
      else s' == At(s, i, Out)
  }

  ghost predicate Sized(s: State, n: nat) { |s.pcs| == n && |s.inner.pcs| == n && |s.held| == n }

  ghost predicate Next(s: State, s': State) {
    Sized(s, |s.pcs|) && exists i: nat, k: nat :: i < |s.pcs| && Step(s, s', i, k)
  }

  ghost predicate Run(trace: seq<State>, n: nat) {
    && |trace| > 0 && trace[0] == Init(n)
    && forall t :: 0 <= t < |trace| - 1 ==> Next(trace[t], trace[t + 1])
  }

  ghost predicate Reachable(s: State, n: nat) {
    exists trace: seq<State> :: Run(trace, n) && trace[|trace| - 1] == s
  }

  // ----- the invariant -----

  /** Inside the inner critical section. */
  predicate Body(p: Pc) { p.Check? || p.Inc? || p.Take? || p.Own? || p.Mark? || p.Dec? || p.Disown? }

  predicate Acquiring(p: Pc) { p.Locking? || p.Unlocking? }

  predicate Releasing(p: Pc) { p.LockDone? || p.MarkDone? || p.UnlockDone? }

  /** The two program counters of a thread agree. */
  ghost predicate Linked(s: State, i: int) {
    0 <= i < |s.pcs| && i < |s.inner.pcs| ==>
      var q := s.inner.pcs[i];
      if Body(s.pcs[i]) then q.Held?
      else if Acquiring(s.pcs[i]) then !q.Store? && !q.Wake?
      else if Releasing(s.pcs[i]) then q.Held? || q.Store? || q.Wake? || q.Idle?
      else q.Idle?
  }

  /** Nesting depth: completed locks, plus one that has counted but not
      returned, plus one whose unlock has not counted yet. */
  function Depth(s: State, i: int): int
    requires 0 <= i < |s.pcs| && i < |s.held|
  {
    s.held[i] + if s.pcs[i].Own? || s.pcs[i].LockDone? || s.pcs[i].Unlocking? || s.pcs[i].Dec? then 1 else 0
  }

  function Abs(x: int): int { if x < 0 then -x else x }

  ghost predicate Owner(s: State, i: int) { 0 <= i < |s.pcs| && i < |s.held| && Depth(s, i) > 0 }

  /** What thread i's position says about the fields. */
  ghost predicate Fields(s: State, i: int) {
    0 <= i < |s.pcs| && i < |s.held| ==>
      && (Depth(s, i) > 0 ==> Abs(s.count) == Depth(s, i))
      && (s.pcs[i].Own? ==> s.owner == NIL && s.count == 1)
      && (Depth(s, i) > 0 && !s.pcs[i].Own? ==> s.owner == i)
      && (s.pcs[i].Disown? ==> s.owner == i && s.count == 0)
      && (s.pcs[i].Inc? ==> s.owner == i)
      && (s.pcs[i].Take? ==> s.owner == NIL)
      && (s.pcs[i].Mark? ==> s.owner != i && s.owner != NIL)
      && (s.pcs[i].MarkDone? ==> s.pcs[i].c < 0)
      && (s.pcs[i].WaitOn? ==> s.pcs[i].c < 0)
  }

  /** A thread between its two stores to count and owner. */
  predicate Between(p: Pc) { p.Own? || p.Disown? }

  ghost predicate BetweenAt(s: State, i: int) { 0 <= i < |s.pcs| && Between(s.pcs[i]) }

  ghost predicate Inv(s: State) {
    && Sized(s, |s.pcs|) && F.Inv(s.inner)
    && (forall i {:trigger Linked(s, i)} :: Linked(s, i))
    && (forall i {:trigger Fields(s, i)} :: Fields(s, i))
    && (s.count != 0 ==> exists i :: Owner(s, i))
    && ((exists i :: BetweenAt(s, i)) || (s.owner == NIL <==> s.count == 0))
    && (s.owner != NIL ==> Owner(s, s.owner) || BetweenAt(s, s.owner))
  }

  lemma OneBody(s: State, i: int, j: int)
    requires Sized(s, |s.pcs|) && F.Inv(s.inner) && Linked(s, i) && Linked(s, j)
    requires 0 <= i < |s.pcs| && 0 <= j < |s.pcs| && Body(s.pcs[i]) && Body(s.pcs[j])
    ensures i == j
  {
    assert F.OwnerIs(s.inner, i) && F.OwnerIs(s.inner, j);
  }

  lemma InitInv(n: nat)
    ensures Inv(Init(n)) && Sized(Init(n), n)
  {
    F.InitInv(n);
  }

  /** The inner mutex only makes steps of its own protocol. */
  lemma StepInner(s: State, s': State, i: nat, k: nat)
    requires Inv(s) && i < |s.pcs| && Step(s, s', i, k)
    ensures Sized(s', |s.pcs|) && F.Inv(s'.inner)
    ensures s'.inner == s.inner ||
      (F.Step(s.inner, s'.inner, i, k) && s' == s.(inner := s'.inner) && (Acquiring(s.pcs[i]) || Releasing(s.pcs[i])))
  {
    if s'.inner != s.inner { F.StepInv(s.inner, s'.inner, i, k); }
  }

  lemma StepLinked(s: State, s': State, i: nat, k: nat, j: int)
    requires Inv(s) && i < |s.pcs| && Step(s, s', i, k)
    ensures Linked(s', j)
  {
    StepInner(s, s', i, k);
    assert Linked(s, i) && Linked(s, j);
    if s'.inner != s.inner {
      F.StepLocal(s.inner, s'.inner, i, k);
    } else if j == i {
      OwnLinked(s, s', i, k);
    }
  }

  lemma OwnLinked(s: State, s': State, i: nat, k: nat)
    requires Sized(s, |s.pcs|) && i < |s.pcs| && Linked(s, i) && Step(s, s', i, k) && s'.inner == s.inner
    ensures Linked(s', i)
  {
    if Acquiring(s.pcs[i]) && s.inner.pcs[i] != F.Held { F.StepMoves(s.inner, s'.inner, i, k); }
    if Releasing(s.pcs[i]) && s.inner.pcs[i] != F.Idle { F.StepMoves(s.inner, s'.inner, i, k); }
  }

  /** What a thread inside the inner critical section may rely on. */
  lemma InBody(s: State, i: int)
    requires Inv(s) && 0 <= i < |s.pcs| && Body(s.pcs[i])
    ensures forall j :: 0 <= j < |s.pcs| && j != i ==> !Body(s.pcs[j])
    ensures !Between(s.pcs[i]) ==> (s.owner == NIL <==> s.count == 0)
    ensures s.owner == i && !s.pcs[i].Disown? ==> Depth(s, i) > 0
    ensures s.owner != NIL && s.owner != i ==> Owner(s, s.owner)
  {
    forall j | 0 <= j < |s.pcs| && j != i ensures !Body(s.pcs[j]) {
      assert Linked(s, i) && Linked(s, j);
      if Body(s.pcs[j]) { OneBody(s, i, j); }
    }
    if b :| BetweenAt(s, b) { assert b == i; }
  }

  ghost predicate Outside(s: State, s': State, i: nat, k: nat) {
    Sized(s, |s.pcs|) && i < |s.pcs| && Step(s, s', i, k) && !Body(s.pcs[i])
  }

  lemma OutsideOwn(s: State, s': State, i: nat, k: nat)
    requires Outside(s, s', i, k)
    ensures |s'.pcs| == |s'.held| == |s.pcs| && s'.count == s.count && s'.owner == s.owner
    ensures !Between(s'.pcs[i]) && Depth(s', i) == Depth(s, i)
    ensures s'.pcs[i].Inc? || s'.pcs[i].Take? || s'.pcs[i].Mark? || s'.pcs[i].MarkDone? ==> s'.pcs[i] == s.pcs[i]
    ensures s'.pcs[i].WaitOn? ==> (s.pcs[i].MarkDone? && s'.pcs[i].c == s.pcs[i].c) || s'.pcs[i] == s.pcs[i]
  {
  }

  lemma OutsideOther(s: State, s': State, i: nat, k: nat, j: int)
    requires Outside(s, s', i, k) && 0 <= j < |s.pcs| && j != i
    ensures |s'.pcs| == |s'.held| == |s.pcs| && Depth(s', j) == Depth(s, j)
    ensures s'.pcs[j] == s.pcs[j] || (s.pcs[j].Sleeping? && s'.pcs[j].Locking?)
  {
  }

  /** Outside the inner critical section a step changes neither field nor any depth. */
  lemma OutsideBody(s: State, s': State, i: nat, k: nat)
    requires Inv(s) && Outside(s, s', i, k)
    ensures Sized(s', |s.pcs|) && s'.count == s.count && s'.owner == s.owner && !Between(s'.pcs[i])
    ensures forall j :: 0 <= j < |s.pcs| ==> Depth(s', j) == Depth(s, j)
    ensures forall j :: 0 <= j < |s.pcs| && j != i ==>
              s'.pcs[j] == s.pcs[j] || (s.pcs[j].Sleeping? && s'.pcs[j].Locking?)
    ensures s'.pcs[i].Inc? || s'.pcs[i].Take? || s'.pcs[i].Mark? || s'.pcs[i].MarkDone? ==> s'.pcs[i] == s.pcs[i]
    ensures s'.pcs[i].WaitOn? ==> (s.pcs[i].MarkDone? && s'.pcs[i].c == s.pcs[i].c) || s'.pcs[i] == s.pcs[i]
  {
    StepInner(s, s', i, k);
    OutsideOwn(s, s', i, k);
    forall j | 0 <= j < |s.pcs| && j != i
      ensures Depth(s', j) == Depth(s, j)
      ensures s'.pcs[j] == s.pcs[j] || (s.pcs[j].Sleeping? && s'.pcs[j].Locking?)
    {
      OutsideOther(s, s', i, k, j);
    }
  }

  lemma FieldsOutside(s: State, s': State, i: nat, k: nat, j: int)
    requires Inv(s) && Outside(s, s', i, k)
    ensures Fields(s', j)
  {
    OutsideBody(s, s', i, k);
    assert Fields(s, i) && Fields(s, j);
  }

  /** Inside it only the fields and this thread's position and depth change. */
  lemma FieldsInside(s: State, s': State, i: nat, k: nat, j: int)
    requires Inv(s) && i < |s.pcs| && Step(s, s', i, k) && Body(s.pcs[i])
    ensures Fields(s', j)
  {
    assert Fields(s, i) && Fields(s, j);
    InBody(s, i);
  }

  lemma RestOutside(s: State, s': State, i: nat, k: nat)
    requires Inv(s) && Outside(s, s', i, k)
    ensures s'.count != 0 ==> exists j :: Owner(s', j)
    ensures (exists j :: BetweenAt(s', j)) || (s'.owner == NIL <==> s'.count == 0)
    ensures s'.owner != NIL ==> Owner(s', s'.owner) || BetweenAt(s', s'.owner)
  {
    OutsideBody(s, s', i, k);
    if o :| Owner(s, o) { assert Owner(s', o); }
    if b :| BetweenAt(s, b) { assert BetweenAt(s', b); }
    if s.owner != NIL { assert Owner(s, s.owner) ==> Owner(s', s.owner); }
  }

  lemma RestInside(s: State, s': State, i: nat, k: nat)
    requires Inv(s) && i < |s.pcs| && Step(s, s', i, k) && Body(s.pcs[i])
    ensures s'.count != 0 ==> exists j :: Owner(s', j)
    ensures (exists j :: BetweenAt(s', j)) || (s'.owner == NIL <==> s'.count == 0)
    ensures s'.owner != NIL ==> Owner(s', s'.owner) || BetweenAt(s', s'.owner)
  {
    assert Fields(s, i);
    InBody(s, i);
    if o :| Owner(s, o) { assert Fields(s, o); assert o != i ==> Owner(s', o); }
    assert Depth(s', i) > 0 ==> Owner(s', i);
    assert Between(s'.pcs[i]) ==> BetweenAt(s', i);
    assert s.owner != NIL && s.owner != i ==> Owner(s', s.owner);
  }

  lemma StepInv(s: State, s': State, i: nat, k: nat)
    requires Inv(s) && i < |s.pcs| && Step(s, s', i, k)
    ensures Inv(s') && |s'.pcs| == |s.pcs|
  {
    StepInner(s, s', i, k);
    forall j ensures Linked(s', j) { StepLinked(s, s', i, k, j); }
    if Body(s.pcs[i]) {
      forall j ensures Fields(s', j) { FieldsInside(s, s', i, k, j); }
      RestInside(s, s', i, k);
    } else {
      forall j ensures Fields(s', j) { FieldsOutside(s, s', i, k, j); }
      RestOutside(s, s', i, k);
    }
  }

  lemma NextInv(s: State, s': State)
    requires Inv(s) && Next(s, s')
    ensures Inv(s') && |s'.pcs| == |s.pcs|
  {
    var i: nat, k: nat :| i < |s.pcs| && Step(s, s', i, k);
    StepInv(s, s', i, k);
  }

  lemma {:induction false} RunInv(trace: seq<State>, n: nat, t: nat)
    requires Run(trace, n) && t < |trace|
    ensures Inv(trace[t]) && |trace[t].pcs| == n
    decreases t
  {
    if t == 0 {
      InitInv(n);
    } else {
      RunInv(trace, n, t - 1);
      RunNext(trace, n, t);
      NextInv(trace[t - 1], trace[t]);
    }
  }

  lemma ReachableInv(s: State, n: nat)
    requires Reachable(s, n)
    ensures Inv(s) && Sized(s, n)
  {
    var trace :| Run(trace, n) && trace[|trace| - 1] == s;
    RunInv(trace, n, |trace| - 1);
  }

  // ----- ownership, for any number of threads -----

  /** Two threads never both have the mutex. */
  lemma MutualExclusion(s: State, n: nat, i: nat, j: nat)
    requires Reachable(s, n) && i < n && j < n
    ensures Sized(s, n) && (Depth(s, i) > 0 && Depth(s, j) > 0 ==> i == j)
  {
    ReachableInv(s, n);
    assert Fields(s, i) && Fields(s, j) && Linked(s, i) && Linked(s, j);
    if s.pcs[i].Own? && s.pcs[j].Own? { OneBody(s, i, j); }
  }

  /** Outside the inner critical section: owner is nil exactly if count is 0, and
      otherwise |count| is the nesting depth of the owner. */
  lemma OwnerAndCount(s: State, n: nat)
    requires Reachable(s, n) && forall i :: 0 <= i < |s.pcs| ==> !Body(s.pcs[i])
    ensures Sized(s, n) && (s.owner == NIL <==> s.count == 0)
    ensures s.owner != NIL ==> 0 <= s.owner < n && Abs(s.count) == Depth(s, s.owner) > 0
  {
    ReachableInv(s, n);
    forall i ensures !BetweenAt(s, i) { }
    assert Fields(s, s.owner);
  }

  /** The assertions in both functions hold wherever they are reached. */
  lemma AssertionsHold(s: State, n: nat, i: nat)
    requires Reachable(s, n) && i < n
    ensures Sized(s, n)
    ensures s.pcs[i].Inc? || s.pcs[i].Mark? ==> s.count != 0
    ensures s.pcs[i].Take? ==> s.count == 0
    ensures s.pcs[i].Dec? ==> s.owner == i && s.count != 0
  {
    ReachableInv(s, n);
    assert Fields(s, i);
    if Body(s.pcs[i]) { InBody(s, i); }
  }

  /** Only the owner, or the thread that takes a free mutex, changes |count|; a
      contender only turns a positive count negative. */
  lemma CountDiscipline(s: State, s': State, n: nat, i: nat, k: nat)
    requires Reachable(s, n) && Sized(s, n) && i < n && Step(s, s', i, k) && s'.count != s.count
    ensures Abs(s'.count) != Abs(s.count) ==> s.owner == i || (s.owner == NIL && s.count == 0 && s'.count == 1)
    ensures s.owner != i && s.owner != NIL ==> s.count > 0 && s'.count == -s.count
    ensures s.owner == i ==> Abs(s'.count) == Abs(s.count) + 1 || Abs(s'.count) == Abs(s.count) - 1
  {
    ReachableInv(s, n);
    assert Fields(s, i);
    if Body(s.pcs[i]) { InBody(s, i); } else { OutsideBody(s, s', i, k); }
  }

  // ----- no lost wake-up, for up to two threads -----

  predicate Owes(p: Pc) { p == Disown(true) || p == UnlockDone(true) || p == WakeOne }

  ghost predicate Sleeper(s: State, i: int) { 0 <= i < |s.pcs| && s.pcs[i].Sleeping? }

  ghost predicate WakeDue(s: State, j: int) { 0 <= j < |s.pcs| && Owes(s.pcs[j]) }

  /** Whoever sleeps on count will be woken: it is negative or a releaser still owes it. */
  ghost predicate CountersWoken(s: State) {
    forall i :: Sleeper(s, i) ==> s.count < 0 || exists j :: WakeDue(s, j)
  }

  /** No sleeper is lost, neither one on count nor one on the inner futex. */
  ghost predicate NoneLost(s: State) { CountersWoken(s) && F.NoneLost(s.inner) }

  /** With one sleeper about, a wake-up that is owed stays owed until it has woken it. */
  lemma OwesUntilWake(s: State, s': State, i: nat, k: nat, m: int)
    requires |s.pcs| <= 2 && Outside(s, s', i, k) && Sleeper(s, m) && m != i && Owes(s.pcs[i])
    ensures Sleeper(s', m) ==> WakeDue(s', i)
  {
    assert s.pcs[m] == Sleeping;
  }

  /** The other thread's step leaves a sleeper asleep only with a wake-up due. */
  lemma SleeperKept(s: State, s': State, i: nat, k: nat, m: int)
    requires |s.pcs| <= 2 && Inv(s) && CountersWoken(s) && i < |s.pcs| && Step(s, s', i, k)
    requires Sleeper(s, m) && Sleeper(s', m) && m != i
    ensures s'.count < 0 || WakeDue(s', i)
  {
    if j :| WakeDue(s, j) { assert j == i; }
    if Body(s.pcs[i]) {
      MarksKept(s, s', i, k);
    } else {
      OutsideOwn(s, s', i, k);
      if Owes(s.pcs[i]) { OwesUntilWake(s, s', i, k, m); }
    }
  }

  /** In the critical section a mark of waiters is kept or turned into a wake-up. */
  lemma MarksKept(s: State, s': State, i: nat, k: nat)
    requires Inv(s) && i < |s.pcs| && Step(s, s', i, k) && Body(s.pcs[i]) && (s.count < 0 || Owes(s.pcs[i]))
    ensures s'.count < 0 || WakeDue(s', i)
  {
    assert Fields(s, i);
    InBody(s, i);
  }

  lemma StillSleeper(s: State, s': State, i: nat, k: nat, m: int)
    requires Sized(s, |s.pcs|) && i < |s.pcs| && Step(s, s', i, k) && Sleeper(s', m) && m != i
    ensures Sleeper(s, m)
  {
  }

  lemma StepCounters(s: State, s': State, i: nat, k: nat)
    requires |s.pcs| <= 2 && Inv(s) && CountersWoken(s) && i < |s.pcs| && Step(s, s', i, k)
    ensures CountersWoken(s')
  {
    assert Fields(s, i);
    forall m | Sleeper(s', m) ensures s'.count < 0 || exists j :: WakeDue(s', j) {
      if m != i {
        StillSleeper(s, s', i, k, m);
        SleeperKept(s, s', i, k, m);
      }
    }
  }

  lemma StepNoneLost(s: State, s': State, i: nat, k: nat)
    requires |s.pcs| <= 2 && Inv(s) && NoneLost(s) && i < |s.pcs| && Step(s, s', i, k)
    ensures NoneLost(s')
  {
    StepCounters(s, s', i, k);
    StepInner(s, s', i, k);
    if s'.inner != s.inner { F.StepNoneLost(s.inner, s'.inner, i, k); }
  }

  lemma NextNoneLost(s: State, s': State)
    requires |s.pcs| <= 2 && Inv(s) && NoneLost(s) && Next(s, s')
    ensures NoneLost(s')
  {
    var i: nat, k: nat :| i < |s.pcs| && Step(s, s', i, k);
    StepNoneLost(s, s', i, k);
  }

  lemma InitNoneLost(n: nat)
    ensures NoneLost(Init(n))
  {
  }

  lemma RunNext(trace: seq<State>, n: nat, t: nat)
    requires Run(trace, n) && 0 < t < |trace|
    ensures Next(trace[t - 1], trace[t])
  {
    assert Next(trace[t - 1], trace[t - 1 + 1]);
  }

  lemma {:induction false} RunNoneLost(trace: seq<State>, n: nat, t: nat)
    requires Run(trace, n) && t < |trace| && n <= 2
    ensures NoneLost(trace[t])
    decreases t
  {
    if t == 0 {
      InitNoneLost(n);
    } else {
      RunNoneLost(trace, n, t - 1);
      RunInv(trace, n, t - 1);
      RunNext(trace, n, t);
      NextNoneLost(trace[t - 1], trace[t]);
    }
  }

  // ----- three threads can lose one -----

  lemma Go(s: State, s': State, i: nat, k: nat, n: nat)
    requires Reachable(s, n) && Sized(s, n) && i < n && Step(s, s', i, k)
    ensures Reachable(s', n)
  {
    var trace :| Run(trace, n) && trace[|trace| - 1] == s;
    var trace' := trace + [s'];
    assert Next(s, s');
    forall t | 0 <= t < |trace'| - 1 ensures Next(trace'[t], trace'[t + 1]) {
      if t < |trace| - 1 { assert Next(trace[t], trace[t + 1]); }
    }
    assert Run(trace', n) && trace'[|trace'| - 1] == s';
  }

  /** The inner mutex with thread i at p and all others idle. */
  ghost function Alone(n: nat, w: int, i: nat, p: F.Pc): F.State
    requires i < n
  {
    F.State(w, F.Init(n).pcs[i := p])
  }

  ghost predicate Quiet(s: State, n: nat) { Reachable(s, n) && Sized(s, n) && s.inner == F.Init(n) }

  ghost predicate InnerGo(s: State, n: nat, i: nat, w: int, p: F.Pc, w': int, p': F.Pc) {
    && i < n && Reachable(s, n) && Sized(s, n) && s.inner == Alone(n, w, i, p)
    && F.Step(Alone(n, w, i, p), Alone(n, w', i, p'), i, 0)
    && ((Acquiring(s.pcs[i]) && p != F.Held) || (Releasing(s.pcs[i]) && p != F.Idle))
  }

  lemma InnerMove(s: State, n: nat, i: nat, w: int, p: F.Pc, w': int, p': F.Pc)
    requires InnerGo(s, n, i, w, p, w', p')
    ensures Reachable(s.(inner := Alone(n, w', i, p')), n)
  {
    Go(s, s.(inner := Alone(n, w', i, p')), i, 0, n);
  }

  /** An uncontended acquisition of the inner mutex. */
  lemma Acquire(s: State, n: nat, i: nat)
    requires Quiet(s, n) && i < n && Acquiring(s.pcs[i])
    ensures Reachable(s.(inner := Alone(n, 1, i, F.Held)), n)
  {
    assert s.inner == Alone(n, 0, i, F.Idle);
    InnerMove(s, n, i, 0, F.Idle, 0, F.Load);
    InnerMove(s.(inner := Alone(n, 0, i, F.Load)), n, i, 0, F.Load, 0, F.TryTake);
    InnerMove(s.(inner := Alone(n, 0, i, F.TryTake)), n, i, 0, F.TryTake, 1, F.Held);
  }

  /** And its release. */
  lemma Release(s: State, n: nat, i: nat)
    requires i < n && Reachable(s, n) && Sized(s, n) && s.inner == Alone(n, 1, i, F.Held) && Releasing(s.pcs[i])
    ensures Quiet(s.(inner := F.Init(n)), n)
  {
    InnerMove(s, n, i, 1, F.Held, 0, F.Idle);
    assert Alone(n, 0, i, F.Idle) == F.Init(n);
  }

  /** Locking a free mutex. */
  lemma LockFree(s: State, n: nat, i: nat)
    requires Quiet(s, n) && i < n && s.pcs[i] == Locking && s.owner == NIL && s.count == 0
    ensures Quiet(At(s, i, Out).(count := 1, owner := i, held := s.held[i := s.held[i] + 1]), n)
  {
    Acquire(s, n, i);
    var s1 := s.(inner := Alone(n, 1, i, F.Held));
    Go(s1, At(s1, i, Check), i, 0, n);
    Go(At(s1, i, Check), At(s1, i, Take), i, 0, n);
    LockFreeBody(At(s1, i, Take), n, i);
    var s2 := At(s1, i, LockDone).(count := 1, owner := i);
    Release(s2, n, i);
    var s3 := s2.(inner := F.Init(n));
    Go(s3, At(s3, i, Out).(held := s.held[i := s.held[i] + 1]), i, 0, n);
    assert At(s3, i, Out).(held := s.held[i := s.held[i] + 1])
        == At(s, i, Out).(count := 1, owner := i, held := s.held[i := s.held[i] + 1]);
  }

  lemma LockFreeBody(s: State, n: nat, i: nat)
    requires Reachable(s, n) && Sized(s, n) && i < n && s.pcs[i] == Take
    ensures Reachable(At(s, i, LockDone).(count := 1, owner := i), n)
  {
    var s1 := At(s, i, Own).(count := 1);
    Go(s, s1, i, 0, n);
    Go(s1, At(s1, i, LockDone).(owner := i), i, 0, n);
    assert At(s1, i, LockDone).(owner := i) == At(s, i, LockDone).(count := 1, owner := i);
  }

  /** Running into someone else's mutex: mark it and sleep. */
  lemma LockBusy(s: State, n: nat, i: nat)
    requires Quiet(s, n) && i < n && s.pcs[i] == Locking && s.owner != NIL && s.owner != i && s.count != 0
    ensures Quiet(At(s, i, Sleeping).(count := -Abs(s.count)), n)
  {
    Acquire(s, n, i);
    var s1 := s.(inner := Alone(n, 1, i, F.Held));
    Go(s1, At(s1, i, Check), i, 0, n);
    Go(At(s1, i, Check), At(s1, i, Mark), i, 0, n);
    var c := -Abs(s.count);
    var s2 := At(s1, i, MarkDone(c)).(count := c);
    Go(At(s1, i, Mark), s2, i, 0, n);
    Release(s2, n, i);
    LockBusyWait(s2.(inner := F.Init(n)), n, i, c);
    assert At(s2.(inner := F.Init(n)), i, Sleeping) == At(s, i, Sleeping).(count := c);
  }

  lemma LockBusyWait(s: State, n: nat, i: nat, c: int)
    requires Quiet(s, n) && i < n && s.pcs[i] == MarkDone(c) && s.count == c
    ensures Quiet(At(s, i, Sleeping), n)
  {
    Go(s, At(s, i, WaitOn(c)), i, 0, n);
    Go(At(s, i, WaitOn(c)), At(s, i, Sleeping), i, 0, n);
  }

  /** The last unlock. */
  lemma UnlockLast(s: State, n: nat, i: nat)
    requires Quiet(s, n) && i < n && s.pcs[i] == Unlocking && (s.count == 1 || s.count == -1)
    ensures Quiet(At(s, i, if s.count < 0 then WakeOne else Out).(count := 0, owner := NIL), n)
  {
    Acquire(s, n, i);
    var s1, w := s.(inner := Alone(n, 1, i, F.Held)), s.count < 0;
    Go(s1, At(s1, i, Dec), i, 0, n);
    UnlockLastBody(At(s1, i, Dec), n, i);
    var s2 := At(s1, i, UnlockDone(w)).(count := 0, owner := NIL);
    Release(s2, n, i);
    var s3 := s2.(inner := F.Init(n));
    Go(s3, At(s3, i, if w then WakeOne else Out), i, 0, n);
    assert At(s3, i, if w then WakeOne else Out) == At(s, i, if w then WakeOne else Out).(count := 0, owner := NIL);
  }

  lemma UnlockLastBody(s: State, n: nat, i: nat)
    requires Reachable(s, n) && Sized(s, n) && i < n && s.pcs[i] == Dec && (s.count == 1 || s.count == -1)
    ensures Reachable(At(s, i, UnlockDone(s.count < 0)).(count := 0, owner := NIL), n)
  {
    var s1 := At(s, i, Disown(s.count < 0)).(count := 0);
    Go(s, s1, i, 0, n);
    Go(s1, At(s1, i, UnlockDone(s.count < 0)).(owner := NIL), i, 0, n);
    assert At(s1, i, UnlockDone(s.count < 0)).(owner := NIL) ==
      At(s, i, UnlockDone(s.count < 0)).(count := 0, owner := NIL);
  }

  /** Threads 0, 1 and 2 at a, b and c with h0 and h1 locks held, the rest out. */
  ghost function Three(n: nat, count: int, owner: int, a: Pc, b: Pc, c: Pc, h0: nat, h1: nat): State
    requires n >= 3
  {
    State(F.Init(n), count, owner, [a, b, c] + seq(n - 3, _ => Out), [h0, h1, 0] + seq(n - 3, _ => 0))
  }

  lemma FirstCall(n: nat)
    requires n >= 3
    ensures Quiet(Three(n, 0, NIL, Locking, Out, Out, 0, 0), n)
  {
    assert Run([Init(n)], n);
    var s := Three(n, 0, NIL, Out, Out, Out, 0, 0);
    assert Init(n) == s;
    Go(s, Three(n, 0, NIL, Locking, Out, Out, 0, 0), 0, 0, n);
  }

  lemma OneHolds(n: nat)
    requires n >= 3
    ensures Quiet(Three(n, 1, 0, Out, Out, Out, 1, 0), n)
  {
    FirstCall(n);
    var s := Three(n, 0, NIL, Locking, Out, Out, 0, 0);
    LockFree(s, n, 0);
    var s1 := Three(n, 1, 0, Out, Out, Out, 1, 0);
    assert s.held[0 := 1] == s1.held;
    assert At(s, 0, Out).(count := 1, owner := 0, held := s.held[0 := 1]) == s1;
  }

  lemma TwoSleep(n: nat)
    requires n >= 3
    ensures Quiet(Three(n, -1, 0, Out, Sleeping, Sleeping, 1, 0), n)
  {
    OneHolds(n);
    Go(Three(n, 1, 0, Out, Out, Out, 1, 0), Three(n, 1, 0, Out, Locking, Out, 1, 0), 1, 0, n);
    LockBusy(Three(n, 1, 0, Out, Locking, Out, 1, 0), n, 1);
    assert At(Three(n, 1, 0, Out, Locking, Out, 1, 0), 1, Sleeping).(count := -1) ==
      Three(n, -1, 0, Out, Sleeping, Out, 1, 0);
    Go(Three(n, -1, 0, Out, Sleeping, Out, 1, 0), Three(n, -1, 0, Out, Sleeping, Locking, 1, 0), 2, 0, n);
    LockBusy(Three(n, -1, 0, Out, Sleeping, Locking, 1, 0), n, 2);
    assert At(Three(n, -1, 0, Out, Sleeping, Locking, 1, 0), 2, Sleeping).(count := -1) ==
      Three(n, -1, 0, Out, Sleeping, Sleeping, 1, 0);
  }

  lemma OneWakes(n: nat)
    requires n >= 3
    ensures Quiet(Three(n, 0, NIL, Out, Locking, Sleeping, 0, 0), n)
  {
    TwoSleep(n);
    var s := Three(n, -1, 0, Out, Sleeping, Sleeping, 1, 0);
    var s1 := Three(n, -1, 0, Unlocking, Sleeping, Sleeping, 0, 0);
    assert s.held[0 := 0] == s1.held;
    Go(s, s1, 0, 0, n);
    UnlockLast(s1, n, 0);
    assert At(s1, 0, WakeOne).(count := 0, owner := NIL) == Three(n, 0, NIL, WakeOne, Sleeping, Sleeping, 0, 0);
    WakeFirst(n);
  }

  lemma WakeFirst(n: nat)
    requires n >= 3 && Quiet(Three(n, 0, NIL, WakeOne, Sleeping, Sleeping, 0, 0), n)
    ensures Quiet(Three(n, 0, NIL, Out, Locking, Sleeping, 0, 0), n)
  {
    var s := Three(n, 0, NIL, WakeOne, Sleeping, Sleeping, 0, 0);
    assert s.pcs[1] == Sleeping;
    Go(s, Three(n, 0, NIL, Out, Locking, Sleeping, 0, 0), 0, 1, n);
  }

  /** The woken thread takes the mutex with a positive count, so its unlock wakes
      nobody: the other sleeper is stranded while the mutex is free. */
  lemma OneStranded(n: nat)
    requires n >= 3
    ensures Reachable(Three(n, 0, NIL, Out, Out, Sleeping, 0, 0), n)
  {
    OneWakes(n);
    var s := Three(n, 0, NIL, Out, Locking, Sleeping, 0, 0);
    LockFree(s, n, 1);
    var s1 := Three(n, 1, 1, Out, Out, Sleeping, 0, 1);
    assert s.held[1 := 1] == s1.held;
    assert At(s, 1, Out).(count := 1, owner := 1, held := s.held[1 := 1]) == s1;
    var s2 := Three(n, 1, 1, Out, Unlocking, Sleeping, 0, 0);
    assert s1.held[1 := 0] == s2.held;
    Go(s1, s2, 1, 0, n);
    UnlockLast(s2, n, 1);
    assert At(s2, 1, Out).(count := 0, owner := NIL) == Three(n, 0, NIL, Out, Out, Sleeping, 0, 0);
  }

  /** The protocol loses no wake-up exactly if at most two threads use it. */
  lemma WakeupsKept(n: nat)
    ensures (forall s :: Reachable(s, n) ==> NoneLost(s)) <==> n <= 2
  {
    if n <= 2 {
      forall s | Reachable(s, n) ensures NoneLost(s) {
        var trace :| Run(trace, n) && trace[|trace| - 1] == s;
        RunNoneLost(trace, n, |trace| - 1);
      }
    } else {
      OneStranded(n);
      var s := Three(n, 0, NIL, Out, Out, Sleeping, 0, 0);
      assert Sleeper(s, 2);
      forall j ensures !WakeDue(s, j) { }
    }
  }
}
