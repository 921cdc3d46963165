/**
 Conservation: every launched ordinal is in exactly one stage, in every step.
 */
module SchedulerFlow {
  import opened Basics
  import opened TaskQueues
  import opened Scheduler

  /** The ordinal a worker is responsible for, if any. */
  function Carries(w: Worker): Option<nat> {
    match w
    case Idle => None
    case Sent => None
    case Exited(lost) => lost
    case _ => Some(w.ordinal)
  }

  function Is(o: Option<nat>, k: nat): nat { if o == Some(k) then 1 else 0 }

  function Size(o: Option<nat>): nat { if o.Some? then 1 else 0 }

  function Occurrences(s: seq<nat>, k: nat): nat { multiset(s)[k] }

  /** How many workers are responsible for `k`. */
  function Holders(ws: seq<Worker>, k: nat): nat {
    if ws == [] then 0 else Holders(ws[..|ws| - 1], k) + Is(Carries(ws[|ws| - 1]), k)
  }

  /** How many ordinals the workers are responsible for. */
  function HeldTotal(ws: seq<Worker>): nat {
    if ws == [] then 0 else HeldTotal(ws[..|ws| - 1]) + Size(Carries(ws[|ws| - 1]))
  }

  function CoordinatorCarries(p: Coordinator): Option<nat> {
    if p.Got? then Some(p.ordinal) else None
  }

  /** In how many in-flight places ordinal `k` is: task queue, worker, result channel, coordinator. */
  function Places(s: State, k: nat): nat {
    Occurrences(s.shared.queue.tasks, k) + Holders(s.workers, k) + Occurrences(s.shared.results, k)
    + Is(CoordinatorCarries(s.lead.at), k) + (if k in s.lead.pending then 1 else 0) + Is(s.lead.ended, k)
  }

  /** How many ordinals are in flight. */
  function Load(s: State): nat {
    |s.shared.queue.tasks| + HeldTotal(s.workers) + |s.shared.results|
    + Size(CoordinatorCarries(s.lead.at)) + |s.lead.pending| + Size(s.lead.ended)
  }

  /** Launched and uncommitted ordinals are in exactly one place; all others in none. */
  ghost predicate Conserved(s: State) {
    && s.lead.nextToCommit <= s.lead.nextToQueue
    && Load(s) == s.lead.nextToQueue - s.lead.nextToCommit
    && forall k: nat :: Places(s, k) == if s.lead.nextToCommit <= k < s.lead.nextToQueue then 1 else 0
  }

  lemma {:induction false} HoldersUpdate(ws: seq<Worker>, i: nat, w: Worker, k: nat)
    requires i < |ws|
    ensures Holders(ws[i := w], k) + Is(Carries(ws[i]), k) == Holders(ws, k) + Is(Carries(w), k)
    ensures HeldTotal(ws[i := w]) + Size(Carries(ws[i])) == HeldTotal(ws) + Size(Carries(w))
  {
    var n := |ws| - 1;
    if i == n {
      assert ws[i := w][..n] == ws[..n];
    } else {
      assert ws[i := w][..n] == ws[..n][i := w];
      HoldersUpdate(ws[..n], i, w, k);
    }
  }

  lemma {:induction false} HoldersHas(ws: seq<Worker>, i: nat, k: nat)
    requires i < |ws|
    ensures Is(Carries(ws[i]), k) <= Holders(ws, k)
    ensures Size(Carries(ws[i])) <= HeldTotal(ws)
  {
    var n := |ws| - 1;
    if i < n {
      HoldersHas(ws[..n], i, k);
    }
  }

  lemma {:induction false} SomeHolder(ws: seq<Worker>) returns (i: nat)
    requires HeldTotal(ws) > 0
    ensures i < |ws| && Carries(ws[i]).Some?
  {
    var n := |ws| - 1;
    if Carries(ws[n]).Some? {
      i := n;
    } else {
      i := SomeHolder(ws[..n]);
    }
  }

  lemma HeadOccurrences(s: seq<nat>, k: nat)
    requires s != []
    ensures Occurrences(s, k) == Occurrences(s[1..], k) + if k == s[0] then 1 else 0
  {
    assert s == [s[0]] + s[1..];
  }

  lemma TailOccurrences(s: seq<nat>, x: nat, k: nat)
    ensures Occurrences(s + [x], k) == Occurrences(s, k) + if k == x then 1 else 0
  {
  }

  /** Membership in any stage puts an ordinal in the launched, uncommitted range. */
  lemma InFlightRange(s: State, k: nat)
    requires Conserved(s)
    ensures Places(s, k) <= 1
    ensures Places(s, k) == 1 <==> s.lead.nextToCommit <= k < s.lead.nextToQueue
    ensures (k in s.shared.queue.tasks || k in s.shared.results || k in s.lead.pending || s.lead.ended == Some(k)
             || s.lead.at == Got(k) || Holders(s.workers, k) > 0) ==> s.lead.nextToCommit <= k < s.lead.nextToQueue
    ensures s.lead.at == Got(k) ==> k !in s.lead.pending
  {
  }

  /** What a worker carries is in flight. */
  lemma CarriedInFlight(s: State, i: nat)
    requires Conserved(s) && i < |s.workers| && Carries(s.workers[i]).Some?
    ensures s.lead.nextToCommit <= Carries(s.workers[i]).value < s.lead.nextToQueue
  {
    var k := Carries(s.workers[i]).value;
    HoldersHas(s.workers, i, k);
    InFlightRange(s, k);
  }

  /** Two workers never carry the same ordinal. */
  lemma {:induction false} HoldersTwo(ws: seq<Worker>, i: nat, j: nat, k: nat)
    requires i < j < |ws|
    ensures Is(Carries(ws[i]), k) + Is(Carries(ws[j]), k) <= Holders(ws, k)
  {
    var n := |ws| - 1;
    if j < n {
      HoldersTwo(ws[..n], i, j, k);
    } else {
      HoldersHas(ws[..n], i, k);
    }
  }

  /** How a worker step moves ordinals: not at all, out of the task queue, or into the result channel. */
  ghost predicate WorkerMoves(s: State, s': State, i: nat)
    requires i < |s.workers|
  {
    && |s'.workers| == |s.workers|
    && s'.workers == s.workers[i := s'.workers[i]]
    && s'.lead == s.lead
    && var before := Carries(s.workers[i]);
       var after := Carries(s'.workers[i]);
       || (after == before && s'.shared.queue.tasks == s.shared.queue.tasks && s'.shared.results == s.shared.results)
       || (s.shared.queue.tasks != [] && before == None && after == Some(s.shared.queue.tasks[0])
           && s'.shared.queue.tasks == s.shared.queue.tasks[1..] && s'.shared.results == s.shared.results)
       || (before.Some? && after == None && s'.shared.queue.tasks == s.shared.queue.tasks
           && s'.shared.results == s.shared.results + [before.value])
  }

  lemma WorkerNextMoves(c: Config, s: State, i: nat)
    requires WellFormed(c, s) && i < |s.workers| && WorkerEnabled(s.shared, s.workers[i])
    ensures WorkerMoves(s, WorkerNext(c, s, i), i)
  {
  }

  lemma MovesConserve(s: State, s': State, i: nat)
    requires Conserved(s) && i < |s.workers| && WorkerMoves(s, s', i)
    ensures Conserved(s')
  {
    HoldersUpdate(s.workers, i, s'.workers[i], 0);
    forall k: nat ensures Places(s', k) == Places(s, k) {
      HoldersUpdate(s.workers, i, s'.workers[i], k);
      if s.shared.queue.tasks != [] {
        HeadOccurrences(s.shared.queue.tasks, k);
      }
      if Carries(s.workers[i]).Some? {
        TailOccurrences(s.shared.results, Carries(s.workers[i]).value, k);
      }
    }
  }

  /** Every worker step conserves ordinals. */
  lemma WorkerConserves(c: Config, s: State, i: nat)
    requires WellFormed(c, s) && Conserved(s)
    requires i < |s.workers| && WorkerEnabled(s.shared, s.workers[i])
    ensures Conserved(WorkerNext(c, s, i))
  {
    WorkerNextMoves(c, s, i);
    MovesConserve(s, WorkerNext(c, s, i), i);
  }

  /** How a coordinator step moves ordinals between stages. */
  datatype Move = Stays | Pushes | Receives | Files | Commits | Ends(ordinal: nat)

  ghost predicate Moved(s: State, s': State, m: Move) {
    var h, h', d, d' := s.shared, s'.shared, s.lead, s'.lead;
    && s'.workers == s.workers
    && (d.at.Got? <==> m.Files?) && (d'.at.Got? <==> m.Receives?)
    && (if m.Pushes? then h'.queue.tasks == h.queue.tasks + [d.nextToQueue] else h'.queue.tasks == h.queue.tasks)
    && d'.nextToQueue == d.nextToQueue + (if m.Pushes? then 1 else 0)
    && d'.nextToCommit == d.nextToCommit + (if m.Commits? then 1 else 0)
    && (if m.Receives? then h.results != [] && h'.results == h.results[1..] && d'.at == Got(h.results[0])
        else h'.results == h.results)
    && (match m
        case Files => d.at.ordinal !in d.pending && d'.pending == d.pending + {d.at.ordinal}
        case Commits => d.nextToCommit in d.pending && d'.pending == d.pending - {d.nextToCommit}
        case Ends(k) => k in d.pending && d'.pending == d.pending - {k}
        case _ => d'.pending == d.pending)
    && (if m.Ends? then d.ended == None && d'.ended == Some(m.ordinal) else d'.ended == d.ended)
  }

  lemma MovedConserves(s: State, s': State, m: Move)
    requires Conserved(s) && Moved(s, s', m)
    ensures Conserved(s')
  {
    var d, d' := s.lead, s'.lead;
    if m.Commits? {
      assert Places(s, d.nextToCommit) == 1;
    }
    forall k: nat ensures Places(s', k) == if d'.nextToCommit <= k < d'.nextToQueue then 1 else 0 {
      MovedPlaces(s, s', m, k);
    }
  }

  lemma MovedPlaces(s: State, s': State, m: Move, k: nat)
    requires Conserved(s) && Moved(s, s', m)
    ensures Places(s', k) == if s'.lead.nextToCommit <= k < s'.lead.nextToQueue then 1 else 0
  {
    var d := s.lead;
    assert Places(s, k) == if d.nextToCommit <= k < d.nextToQueue then 1 else 0;
    match m
    case Pushes => TailOccurrences(s.shared.queue.tasks, d.nextToQueue, k);
    case Receives => HeadOccurrences(s.shared.results, k);
    case _ =>
  }

  /** Pushing a whole window launches the ordinals from `nextToQueue` up. */
  lemma {:induction false} PushWindowConserves(s: State, s': State, end: nat)
    requires Conserved(s) && s.lead.nextToQueue <= end
    requires s'.workers == s.workers && s'.shared.results == s.shared.results
    requires !s.lead.at.Got? && !s'.lead.at.Got?
    requires s'.lead.pending == s.lead.pending && s'.lead.ended == s.lead.ended
    requires s'.lead.nextToCommit == s.lead.nextToCommit && s'.lead.nextToQueue == end
    requires s'.shared.queue.tasks == s.shared.queue.tasks + UpTo(end)[s.lead.nextToQueue..]
    ensures Conserved(s')
    decreases end
  {
    if end == s.lead.nextToQueue {
      assert s'.shared.queue.tasks == s.shared.queue.tasks;
      MovedConserves(s, s', Stays);
    } else {
      var tasks := s.shared.queue.tasks + UpTo(end - 1)[s.lead.nextToQueue..];
      var m := s'.(shared := s'.shared.(queue := s'.shared.queue.(tasks := tasks)), lead := s'.lead.(nextToQueue := end - 1));
      PushWindowConserves(s, m, end - 1);
      assert s'.shared.queue.tasks == tasks + [end - 1];
      MovedConserves(m, s', Pushes);
    }
  }
}
