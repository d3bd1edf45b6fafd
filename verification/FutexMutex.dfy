/** The futex mutex of hurd/mutex.h as a transition system: any number of
    threads, one atomic access per step, any interleaving. */
module FutexMutex {
  const UNLOCKED := 0
  const LOCKED := 1
  const WAITERS := 2

  /** Where a thread is. Idle and Held lie outside the two functions; Load to
      Asleep are in ss_mutex_lock, Store and Wake in ss_mutex_unlock. */
  datatype Pc =
    | Idle
    | Load     // about to read the word
    | TryTake  // it looked free: about to swap UNLOCKED for LOCKED
    | TryMark  // it was LOCKED: about to swap LOCKED for WAITERS
    | Wait     // about to call futex_wait for WAITERS
    | Asleep
    | Held     // owns the mutex
    | Store    // the decrement found WAITERS: about to store 0
    | Wake     // about to call futex_wake

  datatype State = State(word: int, pcs: seq<Pc>)

  ghost function Init(n: nat): State { State(UNLOCKED, seq(n, _ => Idle)) }

  function At(s: State, w: int, i: nat, p: Pc): State
    requires i < |s.pcs|
  {
    State(w, s.pcs[i := p])
  }

  /** One step of thread i; k is the sleeper that a wake-up picks. */
  ghost predicate Step(s: State, s': State, i: nat, k: nat)
    requires i < |s.pcs|
  {
    var w := s.word;
    match s.pcs[i]
    case Idle => s' == At(s, w, i, Load)
    case Load => s' == At(s, w, i, if w == UNLOCKED then TryTake else if w == LOCKED then TryMark else Wait)
    case TryTake => s' == if w == UNLOCKED then At(s, LOCKED, i, Held)
      else At(s, w, i, if w == LOCKED then TryMark else Wait)
    case TryMark => s' == if w == LOCKED then At(s, WAITERS, i, Wait)
      else At(s, w, i, if w == UNLOCKED then Load else Wait)
    case Wait => s' == At(s, w, i, if w == WAITERS then Asleep else Load)
    case Asleep => s' == At(s, w, i, Load)
    case Held => s' == At(s, w - 1, i, if w == WAITERS then Store else Idle)
    case Store => s' == At(s, UNLOCKED, i, Wake)
    case Wake =>
      if exists j :: 0 <= j < |s.pcs| && s.pcs[j] == Asleep then
        k < |s.pcs| && s.pcs[k] == Asleep && s' == State(w, s.pcs[k := Load][i := Idle])
      else s' == At(s, w, i, Idle)
  }

  ghost predicate Next(s: State, s': State) {
    exists i: nat, k: nat :: i < |s.pcs| && Step(s, s', i, k)
  }

  ghost predicate Run(trace: seq<State>, n: nat) {
    && |trace| > 0 && trace[0] == Init(n)
    && forall t :: 0 <= t < |trace| - 1 ==> Next(trace[t], trace[t + 1])
  }

  ghost predicate Reachable(s: State, n: nat) {
    exists trace: seq<State> :: Run(trace, n) && trace[|trace| - 1] == s
  }

  // ----- mutual exclusion, for any number of threads -----

  /** Holds the mutex, or is midway through the two-step release. */
  predicate Owns(p: Pc) { p.Held? || p.Store? }

  ghost predicate OwnerIs(s: State, i: int) { 0 <= i < |s.pcs| && Owns(s.pcs[i]) }

  /** The word is 0, 1 or 2; it is nonzero exactly if some thread owns the
      mutex; two threads never do. */
  ghost predicate Inv(s: State) {
    && s.word in {UNLOCKED, LOCKED, WAITERS}
    && (s.word != UNLOCKED <==> exists i :: OwnerIs(s, i))
    && (forall i, j :: OwnerIs(s, i) && OwnerIs(s, j) ==> i == j)
  }

  lemma InitInv(n: nat)
    ensures Inv(Init(n))
  {
  }

  lemma StepInv(s: State, s': State, i: nat, k: nat)
    requires Inv(s) && i < |s.pcs| && Step(s, s', i, k)
    ensures Inv(s') && |s'.pcs| == |s.pcs|
  {
    assert Owns(s.pcs[i]) ==> OwnerIs(s, i);
    if o :| OwnerIs(s, o) {
      assert o != i ==> OwnerIs(s', o);
      forall j | OwnerIs(s', j) && j != i ensures OwnerIs(s, j) { }
    } else {
      forall j | OwnerIs(s', j) ensures j == i { if j != i { assert OwnerIs(s, j); } }
    }
    if Owns(s'.pcs[i]) { assert OwnerIs(s', i); }
  }

  /** What a step does to the other threads and to its own direction. */
  lemma StepLocal(s: State, s': State, i: nat, k: nat)
    requires i < |s.pcs| && Step(s, s', i, k)
    ensures |s'.pcs| == |s.pcs|
    ensures forall j :: 0 <= j < |s.pcs| && j != i ==> s'.pcs[j] == s.pcs[j] || (s.pcs[j].Asleep? && s'.pcs[j].Load?)
    ensures s.pcs[i].Held? || s.pcs[i].Store? || s.pcs[i].Wake? ==>
      s'.pcs[i].Store? || s'.pcs[i].Wake? || s'.pcs[i].Idle?
    ensures !(s.pcs[i].Held? || s.pcs[i].Store? || s.pcs[i].Wake?) ==> !s'.pcs[i].Store? && !s'.pcs[i].Wake?
  {
  }

  lemma StepMoves(s: State, s': State, i: nat, k: nat)
    requires i < |s.pcs| && Step(s, s', i, k)
    ensures s' != s
  {
  }

  lemma {:induction false} RunInv(trace: seq<State>, n: nat, t: nat)
    requires Run(trace, n) && t < |trace|
    ensures Inv(trace[t]) && |trace[t].pcs| == n
    decreases t
  {
    if t == 0 {
      InitInv(n);
    } else {
      RunInv(trace, n, t - 1);
      assert Next(trace[t - 1], trace[t - 1 + 1]);
      var i: nat, k: nat :| i < |trace[t - 1].pcs| && Step(trace[t - 1], trace[t], i, k);
      StepInv(trace[t - 1], trace[t], i, k);
    }
  }

  lemma ReachableInv(s: State, n: nat)
    requires Reachable(s, n)
    ensures Inv(s) && |s.pcs| == n
  {
    var trace :| Run(trace, n) && trace[|trace| - 1] == s;
    RunInv(trace, n, |trace| - 1);
  }

  /** Never two owners; a thread that is about to store 0 overwrites nobody's
      acquisition; and the assertions in both functions hold. */
  lemma MutualExclusion(s: State, n: nat, i: nat, j: nat)
    requires Reachable(s, n) && i < n && j < n
    ensures |s.pcs| == n && s.word in {UNLOCKED, LOCKED, WAITERS}
    ensures s.pcs[i].Held? && s.pcs[j].Held? ==> i == j
    ensures s.pcs[i].Store? && Owns(s.pcs[j]) ==> i == j
    ensures s.pcs[i].Held? ==> s.word == LOCKED || s.word == WAITERS
    ensures s.word == UNLOCKED ==> !s.pcs[i].Held? && !s.pcs[i].Store?
  {
    ReachableInv(s, n);
    assert Owns(s.pcs[i]) ==> OwnerIs(s, i);
    assert Owns(s.pcs[j]) ==> OwnerIs(s, j);
  }

  // ----- no lost wake-up, for up to two threads -----

  /** A releaser that still owes a futex_wake. */
  predicate Owes(p: Pc) { p.Store? || p.Wake? }

  ghost predicate Sleeper(s: State, i: int) { 0 <= i < |s.pcs| && s.pcs[i].Asleep? }

  ghost predicate WakeDue(s: State, j: int) { 0 <= j < |s.pcs| && Owes(s.pcs[j]) }

  /** Whoever sleeps will be woken: the word says so or a releaser still will. */
  ghost predicate NoneLost(s: State) {
    forall i :: Sleeper(s, i) ==> s.word == WAITERS || exists j :: WakeDue(s, j)
  }

  lemma StepNoneLost(s: State, s': State, i: nat, k: nat)
    requires |s.pcs| <= 2 && Inv(s) && NoneLost(s) && i < |s.pcs| && Step(s, s', i, k)
    ensures NoneLost(s')
  {
    forall m | Sleeper(s', m) ensures s'.word == WAITERS || exists j :: WakeDue(s', j) {
      if m != i {
        assert Sleeper(s, m);
        if j :| WakeDue(s, j) { assert j == i; }
        if Owns(s.pcs[i]) { assert OwnerIs(s, i); }
        if Owes(s'.pcs[i]) { assert WakeDue(s', i); }
        if o :| OwnerIs(s, o) { assert o == i; }
      }
    }
  }

  lemma {:induction false} RunNoneLost(trace: seq<State>, n: nat, t: nat)
    requires Run(trace, n) && t < |trace| && n <= 2
    ensures NoneLost(trace[t])
    decreases t
  {
    if t > 0 {
      RunNoneLost(trace, n, t - 1);
      RunInv(trace, n, t - 1);
      assert Next(trace[t - 1], trace[t - 1 + 1]);
      var i: nat, k: nat :| i < |trace[t - 1].pcs| && Step(trace[t - 1], trace[t], i, k);
      StepNoneLost(trace[t - 1], trace[t], i, k);
    }
  }

  // ----- three threads can lose one -----

  lemma Go(s: State, s': State, i: nat, k: nat, n: nat)
    requires Reachable(s, n) && i < |s.pcs| && Step(s, s', i, k)
    ensures Reachable(s', n)
  {
    var trace :| Run(trace, n) && trace[|trace| - 1] == s;
    var trace' := trace + [s'];
    assert Next(s, s');
    forall t | 0 <= t < |trace'| - 1 ensures Next(trace'[t], trace'[t + 1]) {
      if t < |trace| - 1 { assert Next(trace[t], trace[t + 1]); }
    }
    assert Run(trace', n) && trace'[|trace'| - 1] == s';
  }

  /** Threads 0, 1 and 2 at a, b and c, all others idle. */
  function Three(n: nat, w: int, a: Pc, b: Pc, c: Pc): State
    requires n >= 3
  {
    State(w, [a, b, c] + seq(n - 3, _ => Idle))
  }

  lemma Move(n: nat, w: int, a: Pc, b: Pc, c: Pc, i: nat, k: nat, w': int, a': Pc, b': Pc, c': Pc)
    requires n >= 3 && i < 3 && Reachable(Three(n, w, a, b, c), n)
    requires Step(Three(n, w, a, b, c), Three(n, w', a', b', c'), i, k)
    ensures Reachable(Three(n, w', a', b', c'), n)
  {
    Go(Three(n, w, a, b, c), Three(n, w', a', b', c'), i, k, n);
  }

  lemma InitReachable(n: nat)
    ensures Reachable(Init(n), n)
  {
    assert Run([Init(n)], n);
  }

  lemma OneHolds(n: nat)
    requires n >= 3
    ensures Reachable(Three(n, LOCKED, Held, Idle, Idle), n)
  {
    InitReachable(n);
    assert Init(n) == Three(n, 0, Idle, Idle, Idle);
    Move(n, 0, Idle, Idle, Idle, 0, 0, 0, Load, Idle, Idle);
    Move(n, 0, Load, Idle, Idle, 0, 0, 0, TryTake, Idle, Idle);
    Move(n, 0, TryTake, Idle, Idle, 0, 0, 1, Held, Idle, Idle);
  }

  /** One thread holds the mutex, one sleeps. */
  lemma OneSleeps(n: nat)
    requires n >= 3
    ensures Reachable(Three(n, WAITERS, Held, Asleep, Idle), n)
  {
    OneHolds(n);
    Move(n, 1, Held, Idle, Idle, 1, 0, 1, Held, Load, Idle);
    Move(n, 1, Held, Load, Idle, 1, 0, 1, Held, TryMark, Idle);
    Move(n, 1, Held, TryMark, Idle, 1, 0, 2, Held, Wait, Idle);
    Move(n, 2, Held, Wait, Idle, 1, 0, 2, Held, Asleep, Idle);
  }

  /** One thread holds the mutex, two sleep. */
  lemma TwoSleep(n: nat)
    requires n >= 3
    ensures Reachable(Three(n, WAITERS, Held, Asleep, Asleep), n)
  {
    OneSleeps(n);
    Move(n, 2, Held, Asleep, Idle, 2, 0, 2, Held, Asleep, Load);
    Move(n, 2, Held, Asleep, Load, 2, 0, 2, Held, Asleep, Wait);
    Move(n, 2, Held, Asleep, Wait, 2, 0, 2, Held, Asleep, Asleep);
  }

  lemma OneWakes(n: nat)
    requires n >= 3
    ensures Reachable(Three(n, UNLOCKED, Idle, Load, Asleep), n)
  {
    TwoSleep(n);
    Move(n, 2, Held, Asleep, Asleep, 0, 0, 1, Store, Asleep, Asleep);
    Move(n, 1, Store, Asleep, Asleep, 0, 0, 0, Wake, Asleep, Asleep);
    assert Three(n, 0, Wake, Asleep, Asleep).pcs[1] == Asleep;
    Move(n, 0, Wake, Asleep, Asleep, 0, 1, 0, Idle, Load, Asleep);
  }

  /** The release wakes one sleeper, which takes the mutex as LOCKED and so
      releases it without a wake-up: the other sleeper is stranded while the
      mutex is free and nobody else is in either function. */
  lemma OneStranded(n: nat)
    requires n >= 3
    ensures Reachable(Three(n, UNLOCKED, Idle, Idle, Asleep), n)
  {
    OneWakes(n);
    Move(n, 0, Idle, Load, Asleep, 1, 0, 0, Idle, TryTake, Asleep);
    Move(n, 0, Idle, TryTake, Asleep, 1, 0, 1, Idle, Held, Asleep);
    Move(n, 1, Idle, Held, Asleep, 1, 0, 0, Idle, Idle, Asleep);
  }

  /** The protocol loses no wake-up exactly if at most two threads use it. */
  lemma WakeupsKept(n: nat)
    ensures (forall s :: Reachable(s, n) ==> NoneLost(s)) <==> n <= 2
  {
    if n <= 2 {
      forall s | Reachable(s, n) ensures NoneLost(s) {
        var trace :| Run(trace, n) && trace[|trace| - 1] == s;
        RunNoneLost(trace, n, |trace| - 1);
      }
    } else {
      OneStranded(n);
      var s := Three(n, UNLOCKED, Idle, Idle, Asleep);
      assert Sleeper(s, 2);
      forall j ensures !WakeDue(s, j) { }
    }
  }
}
