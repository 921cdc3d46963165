/**
 What the scheduler is for, with no threads: the plain in-order loop, and the
 window-by-window loop.  Both deliver each row group's own data, in order.
 */
module SchedulerSpec {
  import opened Basics
  import opened Scheduler

  /** What an observer of a run sees: the callback invocations and the verdict. */
  datatype Effect = Effect(calls: seq<Call>, verdict: Verdict)

  /** The call an owned in-order reader would make for ordinal `k`. */
  function OwnCall(c: Config, k: nat): Call
    requires k < |c.outcomes| && !Fails(c, k)
  {
    Call(k, Filled(c.outcomes[k].value))
  }

  /** The in-order loop from ordinal `k`, after `calls`. */
  function Sequential(c: Config, k: nat, calls: seq<Call>): Effect
    requires k <= |c.outcomes|
    decreases |c.outcomes| - k
  {
    if k == |c.outcomes| then Effect(calls, Finished(false))
    else if Fails(c, k) then Effect(calls, Failed(ErrorOf(c.outcomes[k])))
    else
      var calls' := calls + [OwnCall(c, k)];
      match c.commit(calls')
      case Refuse(code) => Effect(calls', Failed(CommitError(code)))
      case Stop => Effect(calls', Finished(true))
      case Continue => Sequential(c, k + 1, calls')
  }

  predicate AllGood(c: Config, from: nat, end: nat)
    requires end <= |c.outcomes|
  {
    forall k :: from <= k < end ==> !Fails(c, k)
  }

  /** Smallest failing ordinal in a range that has one. */
  function SmallestFailing(c: Config, from: nat, end: nat): (k: nat)
    requires from <= end <= |c.outcomes| && !AllGood(c, from, end)
    ensures from <= k < end && Fails(c, k) && AllGood(c, from, k)
    decreases end - from
  {
    if Fails(c, from) then from else SmallestFailing(c, from + 1, end)
  }

  function EndOfWindow(c: Config, start: nat): nat
    requires start <= |c.outcomes|
  {
    if start + c.maxInFlight <= |c.outcomes| then start + c.maxInFlight else |c.outcomes|
  }

  /** The window loop: a window with any failure commits nothing at all. */
  function Windows(c: Config, start: nat, calls: seq<Call>): Effect
    requires start <= |c.outcomes| && 1 <= c.maxInFlight
    decreases |c.outcomes| - start, 1
  {
    if start == |c.outcomes| then Effect(calls, Finished(false))
    else
      var end := EndOfWindow(c, start);
      if !AllGood(c, start, end) then Effect(calls, Failed(ErrorOf(c.outcomes[SmallestFailing(c, start, end)])))
      else InWindow(c, start, end, calls)
  }

  /** Commit the rest of an all-good window in order, then go on to the next window. */
  function InWindow(c: Config, k: nat, end: nat, calls: seq<Call>): Effect
    requires k <= end <= |c.outcomes| && 1 <= c.maxInFlight
    requires AllGood(c, k, end)
    decreases |c.outcomes| - k, if k < end then 0 else 2
  {
    if k == end then Windows(c, end, calls)
    else
      var calls' := calls + [OwnCall(c, k)];
      match c.commit(calls')
      case Refuse(code) => Effect(calls', Failed(CommitError(code)))
      case Stop => Effect(calls', Finished(true))
      case Continue => InWindow(c, k + 1, end, calls')
  }

  /** The effect the configured mode promises. */
  function Promise(c: Config): Effect
    requires 1 <= c.maxInFlight
  {
    if c.windowed then Windows(c, 0, []) else Sequential(c, 0, [])
  }

  /** Windows of one row group each are exactly the in-order loop. */
  lemma {:induction false} WindowsOfOne(c: Config, k: nat, calls: seq<Call>)
    requires k <= |c.outcomes| && c.maxInFlight == 1
    ensures Windows(c, k, calls) == Sequential(c, k, calls)
    decreases |c.outcomes| - k
  {
    if k < |c.outcomes| && !Fails(c, k) {
      assert EndOfWindow(c, k) == k + 1;
      var calls' := calls + [OwnCall(c, k)];
      assert InWindow(c, k, k + 1, calls) ==
        match c.commit(calls')
        case Refuse(code) => Effect(calls', Failed(CommitError(code)))
        case Stop => Effect(calls', Finished(true))
        case Continue => InWindow(c, k + 1, k + 1, calls');
      WindowsOfOne(c, k + 1, calls');
    }
  }

  /** Calls only grow along the in-order loop. */
  lemma {:induction false} SequentialExtends(c: Config, k: nat, calls: seq<Call>)
    requires k <= |c.outcomes|
    ensures calls <= Sequential(c, k, calls).calls
    decreases |c.outcomes| - k
  {
    if k < |c.outcomes| && !Fails(c, k) {
      SequentialExtends(c, k + 1, calls + [OwnCall(c, k)]);
    }
  }

  /** Calls only grow along the window loop. */
  lemma {:induction false} WindowsExtends(c: Config, start: nat, calls: seq<Call>)
    requires start <= |c.outcomes| && 1 <= c.maxInFlight
    ensures calls <= Windows(c, start, calls).calls
    decreases |c.outcomes| - start, 1
  {
    if start < |c.outcomes| && AllGood(c, start, EndOfWindow(c, start)) {
      InWindowExtends(c, start, EndOfWindow(c, start), calls);
    }
  }

  lemma {:induction false} InWindowExtends(c: Config, k: nat, end: nat, calls: seq<Call>)
    requires k <= end <= |c.outcomes| && 1 <= c.maxInFlight && AllGood(c, k, end)
    ensures calls <= InWindow(c, k, end, calls).calls
    decreases |c.outcomes| - k, if k < end then 0 else 2
  {
    if k == end {
      WindowsExtends(c, end, calls);
    } else {
      InWindowExtends(c, k + 1, end, calls + [OwnCall(c, k)]);
    }
  }

  /**
   How the modes differ, for every window size: windowed delivery is a prefix of
   in-order delivery, and the verdicts agree unless a task failure cuts a window
   short, in which case the windowed run reports a task failure too.
   */
  lemma {:induction false} WindowsVersusSequential(c: Config, start: nat, calls: seq<Call>)
    requires start <= |c.outcomes| && 1 <= c.maxInFlight
    ensures Windows(c, start, calls).calls <= Sequential(c, start, calls).calls
    ensures Windows(c, start, calls) == Sequential(c, start, calls)
            || (Windows(c, start, calls).verdict.Failed? && Windows(c, start, calls).verdict.error.TaskError?)
    decreases |c.outcomes| - start, 1
  {
    if start < |c.outcomes| {
      var end := EndOfWindow(c, start);
      if AllGood(c, start, end) {
        InWindowVersusSequential(c, start, end, calls);
      } else {
        SequentialExtends(c, start, calls);
      }
    }
  }

  lemma {:induction false} InWindowVersusSequential(c: Config, k: nat, end: nat, calls: seq<Call>)
    requires k <= end <= |c.outcomes| && 1 <= c.maxInFlight && AllGood(c, k, end)
    ensures InWindow(c, k, end, calls).calls <= Sequential(c, k, calls).calls
    ensures InWindow(c, k, end, calls) == Sequential(c, k, calls)
            || (InWindow(c, k, end, calls).verdict.Failed? && InWindow(c, k, end, calls).verdict.error.TaskError?)
    decreases |c.outcomes| - k, if k < end then 0 else 2
  {
    if k == end {
      WindowsVersusSequential(c, end, calls);
    } else {
      InWindowVersusSequential(c, k + 1, end, calls + [OwnCall(c, k)]);
    }
  }

  /** With no failing task the two modes are indistinguishable. */
  lemma {:induction false} NoFailureSameEffect(c: Config, start: nat, calls: seq<Call>)
    requires start <= |c.outcomes| && 1 <= c.maxInFlight
    requires AllGood(c, start, |c.outcomes|)
    ensures Windows(c, start, calls) == Sequential(c, start, calls)
    decreases |c.outcomes| - start, 1
  {
    if start < |c.outcomes| {
      NoFailureInWindow(c, start, EndOfWindow(c, start), calls);
    }
  }

  lemma {:induction false} NoFailureInWindow(c: Config, k: nat, end: nat, calls: seq<Call>)
    requires k <= end <= |c.outcomes| && 1 <= c.maxInFlight
    requires AllGood(c, k, |c.outcomes|)
    ensures InWindow(c, k, end, calls) == Sequential(c, k, calls)
    decreases |c.outcomes| - k, if k < end then 0 else 2
  {
    if k == end {
      NoFailureSameEffect(c, end, calls);
    } else {
      NoFailureInWindow(c, k + 1, end, calls + [OwnCall(c, k)]);
    }
  }

  // ---------------------------------------------------------------- when the modes agree

  /** A failure at the head of its window: nothing before it is withheld. */
  lemma {:induction false} AlignedAgree(c: Config, start: nat, f: nat, calls: seq<Call>)
    requires start <= f < |c.outcomes| && 1 <= c.maxInFlight && (f - start) % c.maxInFlight == 0
    requires Fails(c, f) && AllGood(c, start, f)
    ensures Windows(c, start, calls) == Sequential(c, start, calls)
    decreases |c.outcomes| - start, 1
  {
    if start < f {
      WholeWindow(f - start, c.maxInFlight);
      AlignedInWindow(c, start, EndOfWindow(c, start), f, calls);
    }
  }

  lemma {:induction false} AlignedInWindow(c: Config, k: nat, end: nat, f: nat, calls: seq<Call>)
    requires k <= end <= f < |c.outcomes| && 1 <= c.maxInFlight && (f - end) % c.maxInFlight == 0
    requires Fails(c, f) && AllGood(c, k, f)
    ensures InWindow(c, k, end, calls) == Sequential(c, k, calls)
    decreases |c.outcomes| - k, if k < end then 0 else 2
  {
    if k == end {
      AlignedAgree(c, end, f, calls);
    } else {
      AlignedInWindow(c, k + 1, end, f, calls + [OwnCall(c, k)]);
    }
  }

  /** A positive multiple of the window size covers a whole window. */
  lemma WholeWindow(n: nat, m: nat)
    requires 1 <= m && 0 < n && n % m == 0
    ensures m <= n && (n - m) % m == 0
  {
    if n >= m {
      ModStep(n, m);
    }
  }

  lemma ModStep(n: nat, m: nat)
    requires 1 <= m <= n
    ensures (n - m) % m == n % m
  {
    var q, r := n / m, n % m;
    assert n - m == (q - 1) * m + r;
    ModUnique(n - m, q - 1, r, m);
  }

  lemma ModUnique(n: nat, q: int, r: nat, m: nat)
    requires 1 <= m && r < m && n == q * m + r
    ensures n % m == r
  {
    var d := n / m - q;
    assert n % m - r == -d * m;
    MulAtLeast(-d, m);
  }

  lemma MulAtLeast(d: int, m: int)
    requires 0 <= m
    ensures d >= 1 ==> d * m >= m
    ensures d <= -1 ==> d * m <= -m
  {
    if d >= 1 {
      assert (d - 1) * m >= 0;
    } else if d <= -1 {
      assert (-d - 1) * m >= 0;
    }
  }

  function Continuing(calls: seq<Call>): Answer { Continue }

  /** A callback that never stops sees every ordinal before the failure in order ... */
  lemma {:induction false} SequentialReaches(c: Config, k: nat, f: nat, calls: seq<Call>)
    requires k <= f < |c.outcomes| && Fails(c, f) && AllGood(c, k, f) && c.commit == Continuing
    ensures |Sequential(c, k, calls).calls| == |calls| + f - k
    decreases f - k
  {
    if k < f {
      SequentialReaches(c, k + 1, f, calls + [OwnCall(c, k)]);
    }
  }

  /** ... or, windowed, every ordinal before the failing window. */
  lemma {:induction false} WindowsReach(c: Config, start: nat, f: nat, calls: seq<Call>)
    requires start <= f < |c.outcomes| && 1 <= c.maxInFlight && Fails(c, f) && AllGood(c, start, f)
    requires c.commit == Continuing
    ensures |Windows(c, start, calls).calls| == |calls| + (f - start) - (f - start) % c.maxInFlight
    decreases |c.outcomes| - start, 1
  {
    var end := EndOfWindow(c, start);
    if f < end {
      ModUnique(f - start, 0, f - start, c.maxInFlight);
    } else {
      ModStep(f - start, c.maxInFlight);
      InWindowReaches(c, start, end, f, calls);
    }
  }

  lemma {:induction false} InWindowReaches(c: Config, k: nat, end: nat, f: nat, calls: seq<Call>)
    requires k <= end <= f < |c.outcomes| && 1 <= c.maxInFlight && Fails(c, f) && AllGood(c, k, f)
    requires c.commit == Continuing
    ensures |InWindow(c, k, end, calls).calls| == |calls| + (f - k) - (f - end) % c.maxInFlight
    decreases |c.outcomes| - k, if k < end then 0 else 2
  {
    if k == end {
      WindowsReach(c, end, f, calls);
    } else {
      InWindowReaches(c, k + 1, end, f, calls + [OwnCall(c, k)]);
    }
  }

  /** The modes have the same effect for the callback `commit`. */
  ghost predicate Alike(c: Config, commit: seq<Call> -> Answer)
    requires 1 <= c.maxInFlight
  {
    Windows(c.(commit := commit), 0, []) == Sequential(c.(commit := commit), 0, [])
  }

  /**
   Exactly when the modes agree.  When some row group fails, they have the same effect
   for every callback if and only if the first failing ordinal heads its window; else a
   callback that always continues is called `f % maxInFlight` times fewer.
   */
  lemma ModesAgreeIff(c: Config)
    requires 1 <= c.maxInFlight && !AllGood(c, 0, |c.outcomes|)
    ensures var f := SmallestFailing(c, 0, |c.outcomes|);
            && ((forall commit :: Alike(c, commit)) <==> f % c.maxInFlight == 0)
            && |Sequential(c.(commit := Continuing), 0, []).calls| == f
            && |Windows(c.(commit := Continuing), 0, []).calls| == f - f % c.maxInFlight
  {
    var f := SmallestFailing(c, 0, |c.outcomes|);
    ContinuingReaches(c, f);
    if f % c.maxInFlight == 0 {
      forall commit ensures Alike(c, commit) {
        AlignedAlike(c, f, commit);
      }
    } else {
      assert !Alike(c, Continuing);
    }
  }

  /** Failures do not depend on the callback. */
  lemma SameFailures(c: Config, f: nat, commit: seq<Call> -> Answer)
    requires f < |c.outcomes| && Fails(c, f) && AllGood(c, 0, f)
    ensures Fails(c.(commit := commit), f) && AllGood(c.(commit := commit), 0, f)
  {
    forall k | 0 <= k < f ensures !Fails(c.(commit := commit), k) {
      assert !Fails(c, k);
    }
  }

  lemma AlignedAlike(c: Config, f: nat, commit: seq<Call> -> Answer)
    requires f < |c.outcomes| && 1 <= c.maxInFlight && f % c.maxInFlight == 0 && Fails(c, f) && AllGood(c, 0, f)
    ensures Alike(c, commit)
  {
    var d := c.(commit := commit);
    SameFailures(c, f, commit);
    AlignedAgree(d, 0, f, []);
  }

  lemma ContinuingReaches(c: Config, f: nat)
    requires f < |c.outcomes| && 1 <= c.maxInFlight && Fails(c, f) && AllGood(c, 0, f)
    ensures |Sequential(c.(commit := Continuing), 0, []).calls| == f
    ensures |Windows(c.(commit := Continuing), 0, []).calls| == f - f % c.maxInFlight
  {
    var d := c.(commit := Continuing);
    SameFailures(c, f, Continuing);
    SequentialReaches(d, 0, f, []);
    WindowsReach(d, 0, f, []);
  }

  /** Two row groups, one window, the second fails: in order the first is delivered, windowed nothing is. */
  lemma WindowWithholds(c: Config)
    requires c.maxInFlight == 2 && c.outcomes == [Good(7), ReadFailed(1)] && c.commit == Continuing
    ensures Sequential(c, 0, []) == Effect([Call(0, Filled(7))], Failed(TaskError(1)))
    ensures Windows(c, 0, []) == Effect([], Failed(TaskError(1)))
  {
    assert !Fails(c, 0) && Fails(c, 1);
    assert Sequential(c, 0, []) == Sequential(c, 1, [OwnCall(c, 0)]);
    assert SmallestFailing(c, 0, 2) == 1;
  }
}
