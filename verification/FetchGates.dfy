/** The gates of one process as objects: their operations are the steps of the interleaved model. */
module FetchGates {
  import opened Gates

  /** Whoever is inside a host's semaphore came in through an existing one. */
  lemma HolderHasSemaphore(c: Config, s: State, i: nat)
    requires Inv(c, s) && i < |s.tasks| && HoldsHost(s.tasks[i])
    ensures s.tasks[i].host in s.semaphores
  {
    assert i in InHost(s.tasks, s.tasks[i].host);
  }

  /** The gates of one process with the tasks that pass through them. */
  class SlotGates {
    const gate: Backpressure
    const hosts: HostSemaphores
    /** The limiter's locks that are held, by host. */
    var locked: set<string>
    var tasks: seq<Task>

    ghost function View(): State
      reads this, gate, hosts
    {
      State(gate.value, hosts.semaphores, locked, tasks)
    }

    ghost function Limits(): Config {
      Config(gate.limit, hosts.perHost)
    }

    constructor (limit: int, perHost: int, tasks: seq<Task>)
      requires limit > 0
      ensures View() == Init(Limits(), tasks) && Limits() == Config(limit, perHost) && fresh(gate) && fresh(hosts)
    {
      gate := new Backpressure(limit);
      hosts := new HostSemaphores(perHost);
      locked, this.tasks := {}, tasks;
    }

    method MoveTo(i: nat, phase: Phase)
      requires i < |tasks|
      modifies this`tasks
      ensures tasks == old(tasks)[i := old(tasks)[i].(phase := phase)]
    {
      tasks := tasks[i := tasks[i].(phase := phase)];
    }

    /** `async with gate` */
    method PassGate(i: nat)
      requires i < |tasks| && tasks[i].phase == AtGate && gate.value > 0
      modifies this, gate
      ensures EnterGate(old(View()), View(), i)
    {
      gate.Enter();
      MoveTo(i, AtHost);
    }

    /** `async with self._semaphore(host)` */
    method TakeSlot(i: nat)
      requires i < |tasks| && tasks[i].phase == AtHost && Value(hosts.semaphores, hosts.perHost, tasks[i].host) > 0
      modifies this, hosts
      ensures EnterHost(Limits(), old(View()), View(), i)
    {
      hosts.Acquire(tasks[i].host);
      MoveTo(i, AtLimiter);
    }

    /** The limiter, if there is a delay, up to its lock. */
    method AskLimiter(i: nat)
      requires i < |tasks| && tasks[i].phase == AtLimiter && (tasks[i].delayed ==> tasks[i].host !in locked)
      modifies this
      ensures PassLimiter(old(View()), View(), i) || LockLimiter(old(View()), View(), i)
    {
      if tasks[i].delayed {
        locked := locked + {tasks[i].host};
        MoveTo(i, InLimiter);
      } else {
        MoveTo(i, Fetching);
      }
    }

    /** The limiter grants and its lock is released. */
    method LeaveLimiter(i: nat)
      requires i < |tasks| && tasks[i].phase == InLimiter
      modifies this
      ensures Grant(old(View()), View(), i)
    {
      locked := locked - {tasks[i].host};
      MoveTo(i, Fetching);
    }

    /** The fetch is over. */
    method Finish(i: nat)
      requires Inv(Limits(), View()) && i < |tasks| && tasks[i].phase == Fetching
      modifies this, gate, hosts
      ensures Leave(Limits(), old(View()), View(), i)
    {
      HolderHasSemaphore(Limits(), View(), i);
      hosts.Release(tasks[i].host);
      gate.Exit();
      MoveTo(i, Finished);
    }

    /** An exception or a cancellation leaves the blocks from the inside out. */
    method Unwind(i: nat)
      requires Inv(Limits(), View()) && i < |tasks| && tasks[i].phase != Finished
      modifies this, gate, hosts
      ensures Cancel(Limits(), old(View()), View(), i)
    {
      var t := tasks[i];
      if HoldsLock(t) {
        locked := locked - {t.host};
      }
      if HoldsHost(t) {
        HolderHasSemaphore(Limits(), old(View()), i);
        hosts.Release(t.host);
      }
      if HoldsGate(t) {
        gate.Exit();
      }
      MoveTo(i, Finished);
    }
  }
}
