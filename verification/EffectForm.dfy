/**
 The effect of a run in closed form: which calls are made, with which data, and which
 verdict follows, read off the outcomes and the callback's answers alone.
 */
module EffectForm {
  import opened Basics
  import opened Scheduler
  import opened SchedulerSpec
  import opened SchedulerTheorems

  /** Row groups delivered from the first on, each with its own data, while the callback continued. */
  ghost predicate Delivered(c: Config, calls: seq<Call>) {
    && |calls| <= |c.outcomes|
    && (forall i :: 0 <= i < |calls| ==> c.outcomes[i].Good? && calls[i] == Call(i, Filled(c.outcomes[i].value)))
    && (forall i :: 0 < i < |calls| ==> c.commit(calls[..i]) == Continue)
  }

  /** The verdict is the error of this very outcome. */
  predicate FailsWith(o: Outcome, v: Verdict) {
    match o
    case Good(_) => false
    case PrepareFailed(code) => v == Failed(TaskError(code))
    case ReadFailed(code) => v == Failed(TaskError(code))
  }

  /** The callback's last answer decides the verdict. */
  ghost predicate Answered(c: Config, e: Effect) {
    && e.calls != []
    && match c.commit(e.calls) {
         case Stop => e.verdict == Finished(true)
         case Refuse(code) => e.verdict == Failed(CommitError(code))
         case Continue => false
       }
  }

  /** The callback has not stopped the run. */
  ghost predicate Unanswered(c: Config, calls: seq<Call>) { calls == [] || c.commit(calls) == Continue }

  /** In order: deliver until the callback ends it, the row groups end, or the next one fails. */
  ghost predicate EndsInOrder(c: Config, e: Effect) {
    && Delivered(c, e.calls)
    && var n := |e.calls|;
       || Answered(c, e)
       || (Unanswered(c, e.calls) && n == |c.outcomes| && e.verdict == Finished(false))
       || (Unanswered(c, e.calls) && n < |c.outcomes| && FailsWith(c.outcomes[n], e.verdict))
  }

  /** Every window that was begun is good throughout. */
  ghost predicate BegunAreGood(c: Config, n: nat)
    requires 1 <= c.maxInFlight
  {
    forall k :: 0 <= k < |c.outcomes| && k - k % c.maxInFlight < n ==> c.outcomes[k].Good?
  }

  /** The first failure of the window that starts at `n`. */
  ghost predicate FirstOfWindow(c: Config, n: nat, f: nat) {
    && n <= f < |c.outcomes| && f < n + c.maxInFlight && !c.outcomes[f].Good?
    && forall k :: n <= k < f ==> c.outcomes[k].Good?
  }

  /** Window by window: the same, but a window is begun only if it is good throughout. */
  ghost predicate EndsInWindows(c: Config, e: Effect)
    requires 1 <= c.maxInFlight
  {
    && Delivered(c, e.calls) && BegunAreGood(c, |e.calls|)
    && var n := |e.calls|;
       || Answered(c, e)
       || (Unanswered(c, e.calls) && n == |c.outcomes| && e.verdict == Finished(false))
       || (Unanswered(c, e.calls) && n % c.maxInFlight == 0
           && exists f: nat :: FirstOfWindow(c, n, f) && FailsWith(c.outcomes[f], e.verdict))
  }

  // ---------------------------------------------------------------- the loops have these forms

  lemma DeliveredNext(c: Config, calls: seq<Call>, call: Call)
    requires Delivered(c, calls) && Unanswered(c, calls) && |calls| < |c.outcomes| && c.outcomes[|calls|].Good?
    requires call == Call(|calls|, Filled(c.outcomes[|calls|].value))
    ensures Delivered(c, calls + [call])
  {
    var more := calls + [call];
    forall i | 0 < i < |more| ensures c.commit(more[..i]) == Continue {
      assert more[..i] == if i < |calls| then calls[..i] else calls;
    }
  }

  lemma {:induction false} SequentialForm(c: Config, calls: seq<Call>)
    requires Delivered(c, calls) && Unanswered(c, calls)
    ensures EndsInOrder(c, Sequential(c, |calls|, calls))
    decreases |c.outcomes| - |calls|
  {
    var k := |calls|;
    if k < |c.outcomes| && !Fails(c, k) {
      DeliveredNext(c, calls, OwnCall(c, k));
      if c.commit(calls + [OwnCall(c, k)]) == Continue {
        SequentialForm(c, calls + [OwnCall(c, k)]);
      }
    }
  }

  lemma MultipleBelow(a: nat, w: nat, m: nat)
    requires 1 <= m && a % m == 0 && w % m == 0 && a < w + m
    ensures a <= w
  {
    var p, q := a / m, w / m;
    assert a == p * m && w == q * m;
    MulAtLeast(p - q, m);
    assert (p - q) * m == a - w;
  }

  lemma DownToMultiple(k: nat, m: nat)
    requires 1 <= m
    ensures k % m <= k && (k - k % m) % m == 0 && k < (k - k % m) + m
  {
    var q := k / m;
    assert k - k % m == q * m;
    ModUnique(q * m, q, 0, m);
  }

  /** Stopping inside a good window, nothing beyond it was begun. */
  lemma BegunWithin(c: Config, w: nat, n: nat)
    requires 1 <= c.maxInFlight && w % c.maxInFlight == 0 && n <= w + c.maxInFlight
    requires forall k :: 0 <= k < |c.outcomes| && k < w + c.maxInFlight ==> c.outcomes[k].Good?
    ensures BegunAreGood(c, n)
  {
    var m := c.maxInFlight;
    forall k | 0 <= k < |c.outcomes| && k - k % m < n ensures c.outcomes[k].Good? {
      DownToMultiple(k, m);
      MultipleBelow(k - k % m, w, m);
    }
  }

  lemma BegunBefore(c: Config, w: nat)
    requires 1 <= c.maxInFlight && w % c.maxInFlight == 0
    requires forall k :: 0 <= k < |c.outcomes| && k < w ==> c.outcomes[k].Good?
    ensures BegunAreGood(c, w)
  {
    var m := c.maxInFlight;
    forall k | 0 <= k < |c.outcomes| && k - k % m < w ensures c.outcomes[k].Good? {
      DownToMultiple(k, m);
      MultiplesApart(k - k % m, w, m);
    }
  }

  lemma MultiplesApart(a: nat, w: nat, m: nat)
    requires 1 <= m && a % m == 0 && w % m == 0 && a < w
    ensures a + m <= w
  {
    var p, q := a / m, w / m;
    assert a == p * m && w == q * m;
    MulAtLeast(q - p, m);
    MulAtLeast(p - q, m);
    assert (q - p) * m == w - a;
  }

  lemma {:induction false} WindowsForm(c: Config, calls: seq<Call>)
    requires 1 <= c.maxInFlight && Delivered(c, calls) && Unanswered(c, calls) && |calls| % c.maxInFlight == 0
    ensures EndsInWindows(c, Windows(c, |calls|, calls))
    decreases |c.outcomes| - |calls|, 1
  {
    var start := |calls|;
    BegunBefore(c, start);
    if start < |c.outcomes| {
      var end := EndOfWindow(c, start);
      if AllGood(c, start, end) {
        GoodUpTo(c, start, end);
        InWindowForm(c, start, calls);
      } else {
        FailingWindow(c, start, end);
      }
    }
  }

  lemma GoodUpTo(c: Config, start: nat, end: nat)
    requires start <= end <= |c.outcomes| && AllGood(c, start, end)
    requires forall k :: 0 <= k < start ==> c.outcomes[k].Good?
    ensures forall k :: 0 <= k < end ==> c.outcomes[k].Good?
  {
    forall k | 0 <= k < end ensures c.outcomes[k].Good? {
      assert k >= start ==> !Fails(c, k);
    }
  }

  lemma FailingWindow(c: Config, start: nat, end: nat)
    requires start < |c.outcomes| && 1 <= c.maxInFlight && end == EndOfWindow(c, start) && !AllGood(c, start, end)
    ensures var f := SmallestFailing(c, start, end);
            FirstOfWindow(c, start, f) && FailsWith(c.outcomes[f], Failed(ErrorOf(c.outcomes[f])))
  {
    var f := SmallestFailing(c, start, end);
    forall k | start <= k < f ensures c.outcomes[k].Good? {
      assert !Fails(c, k);
    }
  }

  lemma {:induction false} InWindowForm(c: Config, w: nat, calls: seq<Call>)
    requires 1 <= c.maxInFlight && w % c.maxInFlight == 0 && w < |c.outcomes|
    requires Delivered(c, calls) && Unanswered(c, calls) && w <= |calls| <= EndOfWindow(c, w)
    requires forall k :: 0 <= k < EndOfWindow(c, w) ==> c.outcomes[k].Good?
    ensures AllGood(c, |calls|, EndOfWindow(c, w))
    ensures EndsInWindows(c, InWindow(c, |calls|, EndOfWindow(c, w), calls))
    decreases |c.outcomes| - |calls|, if |calls| < EndOfWindow(c, w) then 0 else 2
  {
    var k, end := |calls|, EndOfWindow(c, w);
    if k == |c.outcomes| {
      BegunWithin(c, w, k);
    } else if k == end {
      ModUnique(w + c.maxInFlight, w / c.maxInFlight + 1, 0, c.maxInFlight);
      WindowsForm(c, calls);
    } else {
      var more := calls + [OwnCall(c, k)];
      DeliveredNext(c, calls, OwnCall(c, k));
      if c.commit(more) == Continue {
        InWindowForm(c, w, more);
      } else {
        BegunWithin(c, w, k + 1);
      }
    }
  }

  // ---------------------------------------------------------------- the forms are exact

  lemma SameCalls(c: Config, a: seq<Call>, b: seq<Call>)
    requires Delivered(c, a) && Delivered(c, b) && |a| <= |b|
    ensures a == b[..|a|] && (|a| == |b| ==> a == b)
  {
  }

  /** A delivery that another one goes beyond was not stopped by the callback. */
  lemma ShorterUnanswered(c: Config, a: seq<Call>, b: seq<Call>)
    requires Delivered(c, a) && Delivered(c, b) && |a| < |b|
    ensures Unanswered(c, a) && c.outcomes[|a|].Good?
  {
    SameCalls(c, a, b);
  }

  lemma InOrderUnique(c: Config, e: Effect, d: Effect)
    requires EndsInOrder(c, e) && EndsInOrder(c, d) && |e.calls| <= |d.calls|
    ensures e == d
  {
    if |e.calls| < |d.calls| {
      ShorterUnanswered(c, e.calls, d.calls);
    } else {
      SameCalls(c, e.calls, d.calls);
    }
  }

  /** In sliding mode the promised effect is exactly the closed form. */
  lemma InOrderExact(c: Config, e: Effect)
    ensures e == Sequential(c, 0, []) <==> EndsInOrder(c, e)
  {
    SequentialForm(c, []);
    var d := Sequential(c, 0, []);
    if EndsInOrder(c, e) {
      if |e.calls| <= |d.calls| {
        InOrderUnique(c, e, d);
      } else {
        InOrderUnique(c, d, e);
      }
    }
  }

  lemma WindowsUnique(c: Config, e: Effect, d: Effect)
    requires 1 <= c.maxInFlight && EndsInWindows(c, e) && EndsInWindows(c, d) && |e.calls| <= |d.calls|
    ensures e == d
  {
    if |e.calls| < |d.calls| {
      ShorterUnanswered(c, e.calls, d.calls);
      NotBegun(c, e, d);
    } else {
      SameCalls(c, e.calls, d.calls);
    }
  }

  /** A window with a failure is never begun. */
  lemma NotBegun(c: Config, e: Effect, d: Effect)
    requires 1 <= c.maxInFlight && EndsInWindows(c, e) && Unanswered(c, e.calls) && |e.calls| < |d.calls| <= |c.outcomes|
    ensures !BegunAreGood(c, |d.calls|)
  {
    var n := |e.calls|;
    var f: nat :| FirstOfWindow(c, n, f) && FailsWith(c.outcomes[f], e.verdict);
    var m := c.maxInFlight;
    assert n == n / m * m;
    ModUnique(f, n / m, f - n, m);
    assert f - f % m == n;
  }

  /** In windowed mode too. */
  lemma WindowsExact(c: Config, e: Effect)
    requires 1 <= c.maxInFlight
    ensures e == Windows(c, 0, []) <==> EndsInWindows(c, e)
  {
    WindowsForm(c, []);
    var d := Windows(c, 0, []);
    if EndsInWindows(c, e) {
      if |e.calls| <= |d.calls| {
        WindowsUnique(c, e, d);
      } else {
        WindowsUnique(c, d, e);
      }
    }
  }

  /**
   Every complete run delivers and ends as the closed form of its mode says: each call
   shows its own row group's value, and the verdict is the callback's last answer, full
   completion, or the very error of the failing row group.
   */
  lemma EffectOfRun(c: Config, ss: seq<State>, ts: seq<Thread>)
    requires ValidConfig(c) && IsRun(c, ss, ts) && Complete(ss[|ss| - 1])
    ensures var d := ss[|ss| - 1].lead;
            if c.windowed then EndsInWindows(c, Effect(d.calls, d.at.verdict))
            else EndsInOrder(c, Effect(d.calls, d.at.verdict))
  {
    Refinement(c, ss, ts);
    InOrderExact(c, Sequential(c, 0, []));
    WindowsExact(c, Windows(c, 0, []));
  }

  /** When the callback always continues, both modes end with the error of the first failing row group. */
  lemma FirstFailureReported(c: Config, f: nat)
    requires 1 <= c.maxInFlight && f < |c.outcomes| && !c.outcomes[f].Good? && c.commit == Continuing
    requires forall k :: 0 <= k < f ==> c.outcomes[k].Good?
    ensures FailsWith(c.outcomes[f], Sequential(c, 0, []).verdict)
    ensures FailsWith(c.outcomes[f], Windows(c, 0, []).verdict)
  {
    InOrderExact(c, Sequential(c, 0, []));
    WindowsExact(c, Windows(c, 0, []));
    BoundedByFailure(c, Sequential(c, 0, []).calls, f);
    BoundedByFailure(c, Windows(c, 0, []).calls, f);
  }

  lemma BoundedByFailure(c: Config, calls: seq<Call>, f: nat)
    requires Delivered(c, calls) && f < |c.outcomes| && !c.outcomes[f].Good?
    ensures |calls| <= f
  {
  }
}
