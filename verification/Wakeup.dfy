/**
 The progress signal, one shared access per step, under a most general client:
 any number of threads that at any time may wait on a snapshot, notify, cancel
 or switch notifications on.  Spurious wakeups are allowed.
 */
module Wakeup {
  import opened Basics

  datatype Thread =
    | Free
    // `wait_for_change(seen)`
    | Entering(seen: nat)           // about to register as a waiter
    | Peeking(seen: nat)            // about to load the generation without the lock
    | PeekingCancel(seen: nat)      // generation matched; about to load the cancel flag
    | Acquiring(seen: nat)          // about to take the wait lock
    | Checking(seen: nat)           // holds the lock; about to load the generation
    | CheckingCancel(seen: nat)     // holds the lock, generation matched
    | Committed(seen: nat)          // holds the lock, both checks passed; about to sleep
    | Asleep(seen: nat, woken: bool)
    | Leaving                       // about to unregister
    // `notify_progress`
    | Flagging                      // about to load `progress_notifications`
    | Bumping                       // about to advance the generation
    | Counting                      // about to load the waiter count
    | Locking                       // about to take the wait lock
    | Waking                        // holds the lock; about to `notify_all`
    | Unlocking                     // holds the lock; about to release it

  datatype Signal = Signal(
    threads: seq<Thread>,
    generation: nat,
    waiters: nat,
    lock: Option<nat>,
    cancelled: bool,
    notifyOn: bool)

  /** What a free thread may start, and what may happen to a sleeping one. */
  datatype Act = Proceed | Wait | Notify | Cancel | SwitchOn | Spurious

  predicate HoldsLock(t: Thread) {
    t.Checking? || t.CheckingCancel? || t.Committed? || t.Waking? || t.Unlocking?
  }

  predicate Registered(t: Thread) {
    t.Peeking? || t.PeekingCancel? || t.Acquiring? || t.Checking? || t.CheckingCancel? || t.Committed? || t.Asleep? || t.Leaving?
  }

  /** Between making a change and waking the waiters. */
  predicate Announcing(t: Thread) { t.Flagging? || t.Bumping? || t.Counting? || t.Locking? || t.Waking? }

  /** Past the generation bump, before the wakeup. */
  predicate Alerting(t: Thread) { t.Counting? || t.Locking? || t.Waking? }

  predicate Enabled(s: Signal, i: nat, a: Act)
    requires i < |s.threads|
  {
    match s.threads[i]
    case Free => a == Notify || a == Cancel || a == SwitchOn || (a == Wait && s.notifyOn)
    case Asleep(_, woken) => (a == Proceed && woken) || a == Spurious
    case Acquiring(_) => a == Proceed && s.lock == None
    case Locking => a == Proceed && s.lock == None
    case _ => a == Proceed
  }

  function WakeAll(ts: seq<Thread>): (r: seq<Thread>)
    ensures |r| == |ts|
  {
    seq(|ts|, i requires 0 <= i < |ts| => if ts[i].Asleep? then Asleep(ts[i].seen, true) else ts[i])
  }

  function Set(s: Signal, i: nat, t: Thread): Signal
    requires i < |s.threads|
  {
    s.(threads := s.threads[i := t])
  }

  function Step(s: Signal, i: nat, a: Act): Signal
    requires i < |s.threads| && Enabled(s, i, a)
  {
    match s.threads[i]
    case Free =>
      (match a
       case Wait => Set(s, i, Entering(s.generation))     // the snapshot is taken with notifications on
       case Cancel => Set(s.(cancelled := true), i, Flagging)
       case SwitchOn => s.(notifyOn := true)
       case _ => Set(s, i, Flagging))
    case Entering(g) => Set(s.(waiters := s.waiters + 1), i, Peeking(g))
    case Peeking(g) => Set(s, i, if s.generation == g then PeekingCancel(g) else Leaving)
    case PeekingCancel(g) => Set(s, i, if s.cancelled then Leaving else Acquiring(g))
    case Acquiring(g) => Set(s.(lock := Some(i)), i, Checking(g))
    case Checking(g) =>
      if s.generation == g then Set(s, i, CheckingCancel(g)) else Set(s.(lock := None), i, Leaving)
    case CheckingCancel(g) =>
      if s.cancelled then Set(s.(lock := None), i, Leaving) else Set(s, i, Committed(g))
    case Committed(g) => Set(s.(lock := None), i, Asleep(g, false))
    case Asleep(g, woken) => Set(s, i, if a == Spurious then Asleep(g, true) else Acquiring(g))
    case Leaving => Set(s.(waiters := if s.waiters == 0 then 0 else s.waiters - 1), i, Free)
    case Flagging => Set(s, i, if s.notifyOn then Bumping else Free)
    case Bumping => Set(s.(generation := s.generation + 1), i, Counting)
    case Counting => Set(s, i, if s.waiters == 0 then Free else Locking)
    case Locking => Set(s.(lock := Some(i)), i, Waking)
    case Waking => s.(threads := WakeAll(s.threads)[i := Unlocking])
    case Unlocking => Set(s.(lock := None), i, Free)
  }

  // ---------------------------------------------------------------- invariant

  function RegisteredCount(ts: seq<Thread>): nat {
    if ts == [] then 0 else RegisteredCount(ts[..|ts| - 1]) + if Registered(ts[|ts| - 1]) then 1 else 0
  }

  ghost predicate SomeAnnouncing(ts: seq<Thread>) { exists j :: 0 <= j < |ts| && Announcing(ts[j]) }

  ghost predicate SomeAlerting(ts: seq<Thread>) { exists j :: 0 <= j < |ts| && Alerting(ts[j]) }

  /** One waiter: a change it has not seen is about to be announced to it. */
  ghost predicate WaiterInv(s: Signal, t: Thread) {
    && (t.CheckingCancel? || t.Committed? || (t.Asleep? && !t.woken) ==>
          s.notifyOn && t.seen <= s.generation && (s.generation != t.seen ==> SomeAlerting(s.threads)))
    && (t.Committed? || (t.Asleep? && !t.woken) ==>
          (s.cancelled ==> SomeAnnouncing(s.threads)))
    && (t.Entering? || t.Peeking? || t.PeekingCancel? || t.Acquiring? || t.Checking? || t.Asleep? ==>
          s.notifyOn && t.seen <= s.generation)
  }

  ghost predicate Inv(s: Signal) {
    && s.waiters == RegisteredCount(s.threads)
    && (forall i :: 0 <= i < |s.threads| ==> (HoldsLock(s.threads[i]) <==> s.lock == Some(i)))
    && (s.lock.Some? ==> s.lock.value < |s.threads|)
    && forall i :: 0 <= i < |s.threads| ==> WaiterInv(s, s.threads[i])
  }

  lemma {:induction false} RegisteredUpdate(ts: seq<Thread>, i: nat, t: Thread)
    requires i < |ts|
    ensures RegisteredCount(ts[i := t]) + (if Registered(ts[i]) then 1 else 0)
            == RegisteredCount(ts) + (if Registered(t) then 1 else 0)
  {
    var n := |ts| - 1;
    if i == n {
      assert ts[i := t][..n] == ts[..n];
    } else {
      assert ts[i := t][..n] == ts[..n][i := t];
      RegisteredUpdate(ts[..n], i, t);
    }
  }

  lemma {:induction false} RegisteredHas(ts: seq<Thread>, i: nat)
    requires i < |ts| && Registered(ts[i])
    ensures RegisteredCount(ts) >= 1
  {
    if i < |ts| - 1 {
      RegisteredHas(ts[..|ts| - 1], i);
    }
  }

  lemma {:induction false} WakeAllRegistered(ts: seq<Thread>)
    ensures RegisteredCount(WakeAll(ts)) == RegisteredCount(ts)
  {
    if ts != [] {
      assert WakeAll(ts)[..|ts| - 1] == WakeAll(ts[..|ts| - 1]);
      WakeAllRegistered(ts[..|ts| - 1]);
    }
  }

  /** An announcer other than the stepping thread is still there afterwards. */
  lemma OthersPersist(s: Signal, i: nat, a: Act, j: nat)
    requires i < |s.threads| && Enabled(s, i, a) && j < |s.threads| && j != i
    ensures |Step(s, i, a).threads| == |s.threads|
    ensures Announcing(s.threads[j]) ==> Step(s, i, a).threads[j] == s.threads[j]
    ensures HoldsLock(Step(s, i, a).threads[j]) == HoldsLock(s.threads[j])
  {
  }

  /** The waiter count follows the stepping thread. */
  lemma StepRegisters(s: Signal, i: nat, a: Act)
    requires i < |s.threads| && Enabled(s, i, a) && !s.threads[i].Waking?
    requires s.threads[i].Leaving? ==> s.waiters >= 1
    ensures var s' := Step(s, i, a);
            && |s'.threads| == |s.threads| && s'.threads == s.threads[i := s'.threads[i]]
            && s'.waiters + (if Registered(s.threads[i]) then 1 else 0)
               == s.waiters + (if Registered(s'.threads[i]) then 1 else 0)
  {
  }

  lemma KeepsCount(s: Signal, s': Signal, i: nat, a: Act)
    requires s.waiters == RegisteredCount(s.threads) && i < |s.threads| && Enabled(s, i, a)
    requires s' == Step(s, i, a)
    ensures s'.waiters == RegisteredCount(s'.threads)
    ensures s.threads[i].Leaving? ==> s.waiters >= 1      // the count never underflows
  {
    if s.threads[i].Waking? {
      WakeAllRegistered(s.threads);
      RegisteredUpdate(WakeAll(s.threads), i, Unlocking);
    } else {
      if Registered(s.threads[i]) {
        RegisteredHas(s.threads, i);
      }
      StepRegisters(s, i, a);
      RegisteredUpdate(s.threads, i, s'.threads[i]);
    }
  }

  /** Only the stepping thread can gain or lose the lock. */
  lemma KeepsLock(s: Signal, i: nat, a: Act)
    requires Inv(s) && i < |s.threads| && Enabled(s, i, a)
    ensures var s' := Step(s, i, a);
            && |s'.threads| == |s.threads|
            && (forall j :: 0 <= j < |s'.threads| ==> (HoldsLock(s'.threads[j]) <==> s'.lock == Some(j)))
            && (s'.lock.Some? ==> s'.lock.value < |s'.threads|)
  {
    var s' := Step(s, i, a);
    assert HoldsLock(s.threads[i]) <==> s.lock == Some(i);
    LockOfStepper(s, i, a);
    forall j | 0 <= j < |s'.threads| ensures HoldsLock(s'.threads[j]) <==> s'.lock == Some(j) {
      if j != i {
        OthersPersist(s, i, a, j);
      }
    }
  }

  lemma LockOfStepper(s: Signal, i: nat, a: Act)
    requires i < |s.threads| && Enabled(s, i, a) && (HoldsLock(s.threads[i]) <==> s.lock == Some(i))
    ensures var s' := Step(s, i, a);
            && |s'.threads| == |s.threads|
            && (HoldsLock(s'.threads[i]) <==> s'.lock == Some(i))
            && (s'.lock == s.lock || (s.lock == None && s'.lock == Some(i)) || (s.lock == Some(i) && s'.lock == None))
  {
  }

  /** While `w` is registered and unwoken, an announcement under way is not abandoned. */
  lemma AnnouncementsPersist(s: Signal, i: nat, a: Act, w: nat)
    requires Inv(s) && i < |s.threads| && Enabled(s, i, a)
    requires w < |s.threads| && w != i
    requires var t := s.threads[w]; t.CheckingCancel? || t.Committed? || (t.Asleep? && !t.woken)
    requires var t := Step(s, i, a).threads[w]; t.CheckingCancel? || t.Committed? || (t.Asleep? && !t.woken)
    ensures SomeAlerting(s.threads) ==> SomeAlerting(Step(s, i, a).threads)
    ensures SomeAnnouncing(s.threads) ==> SomeAnnouncing(Step(s, i, a).threads)
  {
    var s' := Step(s, i, a);
    RegisteredHas(s.threads, w);
    assert WaiterInv(s, s.threads[w]);
    assert !s.threads[i].Waking? by {
      assert HoldsLock(s.threads[w]) <==> s.lock == Some(w);
      assert HoldsLock(s.threads[i]) <==> s.lock == Some(i);
    }
    if SomeAlerting(s.threads) {
      var j :| 0 <= j < |s.threads| && Alerting(s.threads[j]);
      assert Alerting(s'.threads[j]);
    }
    if SomeAnnouncing(s.threads) {
      var j :| 0 <= j < |s.threads| && Announcing(s.threads[j]);
      assert Announcing(s'.threads[j]);
    }
  }

  lemma KeepsOtherWaiter(s: Signal, i: nat, a: Act, w: nat)
    requires Inv(s) && i < |s.threads| && Enabled(s, i, a) && w < |s.threads| && w != i
    requires |Step(s, i, a).threads| == |s.threads|
    ensures WaiterInv(Step(s, i, a), Step(s, i, a).threads[w])
  {
    var s' := Step(s, i, a);
    assert WaiterInv(s, s.threads[w]);
    var t' := s'.threads[w];
    if t'.CheckingCancel? || t'.Committed? || (t'.Asleep? && !t'.woken) {
      AnnouncementsPersist(s, i, a, w);
      assert s'.generation != s.generation ==> Alerting(s'.threads[i]);
      assert s'.cancelled != s.cancelled ==> Announcing(s'.threads[i]);
    }
  }

  lemma KeepsOwnWaiter(s: Signal, i: nat, a: Act)
    requires Inv(s) && i < |s.threads| && Enabled(s, i, a)
    requires |Step(s, i, a).threads| == |s.threads|
    ensures WaiterInv(Step(s, i, a), Step(s, i, a).threads[i])
  {
    var s' := Step(s, i, a);
    assert WaiterInv(s, s.threads[i]);
    if s.threads[i].CheckingCancel? || s.threads[i].Committed? {
      if SomeAlerting(s.threads) {
        var j :| 0 <= j < |s.threads| && Alerting(s.threads[j]);
        assert Alerting(s'.threads[j]);
      }
      if SomeAnnouncing(s.threads) {
        var j :| 0 <= j < |s.threads| && Announcing(s.threads[j]);
        assert Announcing(s'.threads[j]);
      }
    }
  }

  lemma StepKeepsInv(s: Signal, i: nat, a: Act)
    requires Inv(s) && i < |s.threads| && Enabled(s, i, a)
    ensures Inv(Step(s, i, a))
  {
    KeepsCount(s, Step(s, i, a), i, a);
    KeepsLock(s, i, a);
    forall w | 0 <= w < |s.threads| ensures WaiterInv(Step(s, i, a), Step(s, i, a).threads[w]) {
      if w == i {
        KeepsOwnWaiter(s, i, a);
      } else {
        KeepsOtherWaiter(s, i, a, w);
      }
    }
  }

  // ---------------------------------------------------------------- runs

  datatype Move = Move(thread: nat, act: Act)

  function Start(threads: nat, on: bool): Signal {
    Signal(seq(threads, _ => Free), 0, 0, None, false, on)
  }

  ghost predicate IsRun(n: nat, on: bool, ss: seq<Signal>, ms: seq<Move>) {
    && |ss| == |ms| + 1
    && ss[0] == Start(n, on)
    && forall j :: 0 <= j < |ms| ==>
         && ms[j].thread < |ss[j].threads| && Enabled(ss[j], ms[j].thread, ms[j].act)
         && ss[j + 1] == Step(ss[j], ms[j].thread, ms[j].act)
  }

  lemma {:induction false} NoneRegistered(n: nat)
    ensures RegisteredCount(seq(n, _ => Free)) == 0
  {
    if n > 0 {
      assert seq(n, _ => Free)[..n - 1] == seq(n - 1, _ => Free);
      NoneRegistered(n - 1);
    }
  }

  lemma {:induction false} RunInv(n: nat, on: bool, ss: seq<Signal>, ms: seq<Move>)
    requires IsRun(n, on, ss, ms)
    ensures Inv(ss[|ss| - 1])
    decreases |ms|
  {
    if ms == [] {
      NoneRegistered(n);
    } else {
      var k := |ms| - 1;
      assert IsRun(n, on, ss[..k + 1], ms[..k]);
      RunInv(n, on, ss[..k + 1], ms[..k]);
      StepKeepsInv(ss[k], ms[k].thread, ms[k].act);
    }
  }

  /**
   No lost wakeup.  In every reachable state, a thread asleep on a snapshot that
   has gone stale, or in a cancelled run, has another thread on its way to wake
   it: past its change, and bound to reach `notify_all`.
   */
  lemma NoLostWakeup(n: nat, on: bool, ss: seq<Signal>, ms: seq<Move>, w: nat)
    requires IsRun(n, on, ss, ms)
    requires var s := ss[|ss| - 1]; w < |s.threads| && s.threads[w].Asleep? && !s.threads[w].woken
    requires var s := ss[|ss| - 1]; s.generation != s.threads[w].seen || s.cancelled
    ensures var s := ss[|ss| - 1];
            && s.notifyOn && s.waiters >= 1
            && (s.generation != s.threads[w].seen ==> SomeAlerting(s.threads))
            && SomeAnnouncing(s.threads)
  {
    RunInv(n, on, ss, ms);
    var s := ss[|ss| - 1];
    assert WaiterInv(s, s.threads[w]);
    RegisteredHas(s.threads, w);
    if SomeAlerting(s.threads) {
      var j :| 0 <= j < |s.threads| && Alerting(s.threads[j]);
      assert Announcing(s.threads[j]);
    }
  }

  /** The announcer is never stuck: it can step, or the holder of the wait lock can. */
  lemma AnnouncerNotStuck(s: Signal, j: nat)
    requires Inv(s) && j < |s.threads| && Announcing(s.threads[j])
    ensures Enabled(s, j, Proceed) || (s.lock.Some? && s.lock.value < |s.threads| && Enabled(s, s.lock.value, Proceed))
  {
    if s.lock.Some? {
      assert HoldsLock(s.threads[s.lock.value]);
    }
  }

  /**
   Quiescence: when no thread is announcing, every sleeper's snapshot is current and the
   run is not cancelled, so it is right to sleep.
   */
  lemma QuiescentSleepersAreCurrent(n: nat, on: bool, ss: seq<Signal>, ms: seq<Move>, w: nat)
    requires IsRun(n, on, ss, ms)
    requires var s := ss[|ss| - 1]; !SomeAnnouncing(s.threads)
    requires var s := ss[|ss| - 1]; w < |s.threads| && s.threads[w].Asleep? && !s.threads[w].woken
    ensures var s := ss[|ss| - 1]; s.generation == s.threads[w].seen && !s.cancelled
  {
    RunInv(n, on, ss, ms);
    var s := ss[|ss| - 1];
    assert WaiterInv(s, s.threads[w]);
    assert forall j :: 0 <= j < |s.threads| ==> !Alerting(s.threads[j]) || Announcing(s.threads[j]);
  }

  /** Announcements move forward: with a registered waiter, the next step is closer to the wakeup, which reaches it. */
  function Distance(t: Thread): nat
    requires Announcing(t)
  {
    match t
    case Flagging => 5
    case Bumping => 4
    case Counting => 3
    case Locking => 2
    case Waking => 1
  }

  lemma AnnouncementAdvances(s: Signal, j: nat, w: nat)
    requires Inv(s) && j < |s.threads| && Announcing(s.threads[j]) && Enabled(s, j, Proceed)
    requires w < |s.threads| && s.threads[w].Asleep? && !s.threads[w].woken
    ensures var s' := Step(s, j, Proceed);
            if s.threads[j].Waking? then |s'.threads| == |s.threads| && s'.threads[w] == Asleep(s.threads[w].seen, true)
            else Announcing(s'.threads[j]) && Distance(s'.threads[j]) < Distance(s.threads[j])
  {
    RegisteredHas(s.threads, w);
    assert WaiterInv(s, s.threads[w]);
  }
}
