/**
 Blocking `TaskQueue::pop`: idle workers sleep on the `available` condition
 variable under the queue mutex, and the coordinator wakes them with
 `notify_one` per push, `notify_all` per window and per close.  Counts suffice:
 which worker wakes does not matter.
 */
module TaskWait {
  import opened Basics

  datatype Pool = Pool(
    tasks: nat,         // queued tasks
    closed: bool,
    cancelled: bool,
    busy: nat,          // workers outside `pop`
    alert: nat,         // workers in `pop`, awake: about to take the mutex and look
    asleep: nat,        // workers waiting on `available`, not yet woken
    exited: nat,
    singles: nat,       // pushes whose `notify_one` is still to come
    bulk: bool)         // a window push whose `notify_all` is still to come

  datatype Event =
    | Return            // a busy worker comes back for a task
    | Look              // an alert worker takes the mutex and looks
    | Push | NotifyOne
    | PushAll(count: nat) | NotifyAll
    | Close             // sets the flag and wakes everybody under the mutex
    | Cancel
    | Spurious          // a sleeper wakes by itself

  predicate Enabled(p: Pool, e: Event) {
    match e
    case Return => p.busy > 0
    case Look => p.alert > 0
    case Push => !p.closed && p.singles == 0 && !p.bulk
    case NotifyOne => p.singles > 0
    case PushAll(_) => !p.closed && p.singles == 0 && !p.bulk
    case NotifyAll => p.bulk
    case Close => p.singles == 0 && !p.bulk
    case Cancel => p.singles == 0 && !p.bulk
    case Spurious => p.asleep > 0
  }

  function Step(p: Pool, e: Event): Pool
    requires Enabled(p, e)
  {
    match e
    case Return => p.(busy := p.busy - 1, alert := p.alert + 1)
    case Look =>
      if p.cancelled then p.(alert := p.alert - 1, exited := p.exited + 1)
      else if p.tasks > 0 then p.(tasks := p.tasks - 1, alert := p.alert - 1, busy := p.busy + 1)
      else if p.closed then p.(alert := p.alert - 1, exited := p.exited + 1)
      else p.(alert := p.alert - 1, asleep := p.asleep + 1)
    case Push => p.(tasks := p.tasks + 1, singles := p.singles + 1)
    case NotifyOne =>
      if p.asleep > 0 then p.(singles := p.singles - 1, asleep := p.asleep - 1, alert := p.alert + 1)
      else p.(singles := p.singles - 1)
    case PushAll(n) => p.(tasks := p.tasks + n, bulk := true)
    case NotifyAll => p.(bulk := false, alert := p.alert + p.asleep, asleep := 0)
    case Close => p.(closed := true, alert := p.alert + p.asleep, asleep := 0)
    case Cancel => p.(cancelled := true)
    case Spurious => p.(asleep := p.asleep - 1, alert := p.alert + 1)
  }

  /**
   While a worker sleeps: the queue is open, and, unless the run was cancelled,
   every queued task has an alert worker or a notification coming for it.
   */
  ghost predicate Inv(p: Pool) {
    p.asleep > 0 ==> !p.closed && (p.cancelled || p.bulk || p.tasks <= p.alert + p.singles)
  }

  function Run(p: Pool, es: seq<Event>): Option<Pool>
    decreases |es|
  {
    if es == [] then Some(p)
    else
      match Run(p, es[..|es| - 1])
      case None => None
      case Some(q) => if Enabled(q, es[|es| - 1]) then Some(Step(q, es[|es| - 1])) else None
  }

  function Start(workers: nat): Pool { Pool(0, false, false, workers, 0, 0, 0, 0, false) }

  lemma StepInv(p: Pool, e: Event)
    requires Inv(p) && Enabled(p, e)
    ensures Inv(Step(p, e))
  {
  }

  lemma {:induction false} RunInv(workers: nat, es: seq<Event>)
    requires Run(Start(workers), es).Some?
    ensures var p := Run(Start(workers), es).value;
            Inv(p) && p.busy + p.alert + p.asleep + p.exited == workers && p.singles <= 1
    decreases |es|
  {
    if es != [] {
      RunInv(workers, es[..|es| - 1]);
      StepInv(Run(Start(workers), es[..|es| - 1]).value, es[|es| - 1]);
    }
  }

  /**
   Sleeping workers never strand a task: in every reachable state of an
   uncancelled run, a queued task with no alert worker, no busy worker and no
   notification under way means no worker sleeps; and nobody sleeps on a closed
   queue.
   */
  lemma NoStrandedTask(workers: nat, es: seq<Event>)
    requires Run(Start(workers), es).Some?
    ensures var p := Run(Start(workers), es).value;
            && (p.closed ==> p.asleep == 0)
            && (!p.cancelled && p.tasks > 0 && p.alert == 0 && p.singles == 0 && !p.bulk ==> p.asleep == 0)
  {
    RunInv(workers, es);
  }
}
