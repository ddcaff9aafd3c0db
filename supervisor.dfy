/** The master of the process-pool task executor as a sequential state
    machine. The operating system is abstracted away: spawning a process
    inserts a fresh pid handed out by a counter, a process-exit notification is
    a call of RebootProcess, each firing of a periodic timer is a call of
    RestartTick or StopTick, exiting the master sets `exited`, and the shared
    signal cell and the two inter-process queues are fields. A worker's loop
    (RunWorker) acts on the same queue fields. */
module TaskExecutor {
  import opened PoolModel

  class Supervisor {
    // Configuration, fixed once initialisation has decoded the mode.
    const mode: bv64
    const isDaemon: bool
    const isPush: bool
    const leftProcess: nat
    const centerProcess: nat
    const rightProcess: nat
    const maxExecutions: nat

    /** The process-pool table. */
    var pool: Pool
    /** The next pid the host will hand out; every pid in the pool is below it. */
    var nextPid: nat
    /** The value of the shared control-signal cell. */
    var signal: Signal
    var inputQueue: seq<Value>
    var outputQueue: seq<Value>
    /** The identities the two queues are attached to. */
    var inputQueueKey: int
    var outputQueueKey: int
    var started: bool
    /** In non-daemon mode, start arranges for the master to send itself the
        terminate signal shortly afterwards. */
    var selfTerminateScheduled: bool
    /** The latch of the restart handler; once set, its timer is ticking. */
    var restartHandled: bool
    /** The restart timer's tick counter. */
    var restartTickCount: nat
    /** The latch of the terminate handler; once set, its timer is ticking. */
    var stopHandled: bool
    /** The master has exited. */
    var exited: bool

    /** The queue a worker of `role` feeds (left) or pops from (center, right). */
    function QueueOf(role: Role): seq<Value>
      reads this
    {
      if role == Right then outputQueue else inputQueue
    }

    ghost predicate Valid()
      reads this`pool, this`nextPid, this`signal, this`started, this`restartHandled,
            this`restartTickCount, this`stopHandled, this`exited
    {
      // Pids are fresh, each entry is one of the configured slots, and no
      // two live entries share a slot.
      && PoolInvariant(pool, nextPid, leftProcess, centerProcess, rightProcess)
      // Nothing happens before start.
      && (!started ==> pool == map[] && signal == None && !restartHandled && !stopHandled)
      // The restart handler exists in daemon mode only, and its timer exits
      // the master by its second counted tick.
      && (restartHandled ==> isDaemon && started)
      && (!restartHandled ==> restartTickCount == 0)
      && (restartTickCount <= 1 || exited)
      && (stopHandled ==> started)
      // Which handler set which signal.
      && (signal == Restart ==> restartHandled)
      && (signal == StopLeft ==> stopHandled && isDaemon)
      && (signal == FinishLeft ==> !isDaemon && started)
      && (signal == StopAll ==> stopHandled)
      && (started && !isDaemon ==> signal != None)
      && (stopHandled ==> signal != None)
    }

    /** Initialisation: the signal cell starts at None, the mode bits are
        decoded, non-daemon mode forces one left process and push mode forces
        no right process. */
    constructor (mode: bv64, leftProcess: nat, centerProcess: nat, rightProcess: nat, maxExecutions: nat)
      ensures Valid()
      ensures this.mode == mode
      ensures isDaemon == IsDaemonMode(mode) && isPush == IsPushMode(mode)
      ensures this.leftProcess == (if isDaemon then leftProcess else 1)
      ensures this.centerProcess == centerProcess
      ensures this.rightProcess == (if isPush then 0 else rightProcess)
      ensures this.maxExecutions == maxExecutions
      ensures signal == None && pool == map[] && nextPid == 0
      ensures inputQueue == [] && outputQueue == []
      ensures !started && !selfTerminateScheduled && !restartHandled && !stopHandled && !exited
      ensures restartTickCount == 0
    {
      this.mode := mode;
      isDaemon := IsDaemonMode(mode);
      isPush := IsPushMode(mode);
      this.leftProcess := if IsDaemonMode(mode) then leftProcess else 1;
      this.centerProcess := centerProcess;
      this.rightProcess := if IsPushMode(mode) then 0 else rightProcess;
      this.maxExecutions := maxExecutions;
      signal := None;
      pool := map[];
      nextPid := 0;
      inputQueue := [];
      outputQueue := [];
      inputQueueKey := 0;
      outputQueueKey := 0;
      started := false;
      selfTerminateScheduled := false;
      restartHandled := false;
      restartTickCount := 0;
      stopHandled := false;
      exited := false;
    }

    /** Spawns one process of `role` with `workerId` and records it under the
        next pid. */
    method CreateProcess(role: Role, workerId: nat) returns (pid: nat)
      modifies this`pool, this`nextPid
      ensures pid == old(nextPid) && nextPid == old(nextPid) + 1
      ensures (forall p :: p in old(pool) ==> p < old(nextPid)) ==> pid !in old(pool)
      ensures pool == old(pool)[pid := Entry(role, workerId)]
    {
      pid := nextPid;
      nextPid := nextPid + 1;
      pool := pool[pid := Entry(role, workerId)];
    }

    /** Spawns the configured numbers of left, center and right processes, in
        that order, with worker ids counting from 0 within each role. */
    method CreateProcesses()
      modifies this`pool, this`nextPid
      ensures nextPid == old(nextPid) + leftProcess + centerProcess + rightProcess
      ensures pool == old(pool) + Spawned(old(nextPid), leftProcess, centerProcess, rightProcess)
    {
      ghost var base, p0 := nextPid, pool;
      for i := 0 to leftProcess
        invariant nextPid == base + i
        invariant pool == p0 + Stage(base, Left, i)
      {
        var _ := CreateProcess(Left, i);
        ExtendStage(p0, base, Left, i);
      }
      ghost var p1 := pool;
      for i := 0 to centerProcess
        invariant nextPid == base + leftProcess + i
        invariant pool == p1 + Stage(base + leftProcess, Center, i)
      {
        var _ := CreateProcess(Center, i);
        ExtendStage(p1, base + leftProcess, Center, i);
      }
      ghost var p2 := pool;
      for i := 0 to rightProcess
        invariant nextPid == base + leftProcess + centerProcess + i
        invariant pool == p2 + Stage(base + leftProcess + centerProcess, Right, i)
      {
        var _ := CreateProcess(Right, i);
        ExtendStage(p2, base + leftProcess + centerProcess, Right, i);
      }
      UnionOfStages(p0, Stage(base, Left, leftProcess), Stage(base + leftProcess, Center, centerProcess),
                    Stage(base + leftProcess + centerProcess, Right, rightProcess));
    }

    /** Starting the master: attach the queues to the identities derived from
        `messageKey` (the hash of the queue name), spawn every configured
        process, install the handlers, and in non-daemon mode set the signal to
        FinishLeft and schedule the master's own terminate signal. */
    method Start(messageKey: int)
      requires Valid() && !started
      modifies this`pool, this`nextPid, this`signal, this`started, this`inputQueueKey,
               this`outputQueueKey, this`selfTerminateScheduled
      ensures Valid() && started
      ensures inputQueueKey == messageKey + 1 && outputQueueKey == messageKey + 2
      ensures nextPid == old(nextPid) + leftProcess + centerProcess + rightProcess
      ensures pool == Spawned(old(nextPid), leftProcess, centerProcess, rightProcess)
      ensures signal == (if isDaemon then None else FinishLeft)
      ensures selfTerminateScheduled == !isDaemon
      ensures MayFollow(old(signal), signal)
    {
      inputQueueKey := messageKey + 1;
      outputQueueKey := messageKey + 2;
      ghost var base := nextPid;
      CreateProcesses();
      StartedTable(pool, base, leftProcess, centerProcess, rightProcess);
      started := true;
      selfTerminateScheduled := !isDaemon;
      if !isDaemon {
        signal := FinishLeft;
      }
    }

    /** The master's reaction to the exit of process `pid`: an unknown pid is
        an error and changes nothing; otherwise the entry is removed, and it is
        recreated under a new pid with the same role and worker id unless the
        signal forbids that (see Respawns). The signal is outside the frame. */
    method RebootProcess(pid: nat) returns (r: RebootOutcome)
      requires Valid()
      modifies this`pool, this`nextPid
      ensures Valid()
      ensures pid !in old(pool) ==> r == NoSuchPid && pool == old(pool) && nextPid == old(nextPid)
      ensures pid in old(pool) && Respawns(signal, old(pool)[pid].role) ==>
                && r == Respawned(old(pool)[pid], old(nextPid))
                && pool == (old(pool) - {pid})[old(nextPid) := old(pool)[pid]]
                && nextPid == old(nextPid) + 1
      ensures pid in old(pool) && !Respawns(signal, old(pool)[pid].role) ==>
                && r == Retired(old(pool)[pid])
                && pool == old(pool) - {pid}
                && nextPid == old(nextPid)
    {
      if pid !in pool {
        return NoSuchPid;
      }
      var entry := pool[pid];
      assert (pool - {pid}).Keys == pool.Keys - {pid};
      RemoveKeepsInvariant(pool, nextPid, leftProcess, centerProcess, rightProcess, pid);
      RespawnKeepsInvariant(pool, nextPid, leftProcess, centerProcess, rightProcess, pid);
      pool := pool - {pid};
      if !Respawns(signal, entry.role) {
        return Retired(entry);
      }
      var newPid := CreateProcess(entry.role, entry.workerId);
      r := Respawned(entry, newPid);
    }

    /** Pushes one null sentinel into the input queue per live center entry and
        one into the output queue per live right entry. */
    method PushSentinels()
      modifies this`inputQueue, this`outputQueue
      ensures inputQueue == old(inputQueue) + Nulls(CountRole(pool, Center))
      ensures outputQueue == old(outputQueue) + Nulls(CountRole(pool, Right))
    {
      var pending := pool.Keys;
      ghost var done: set<nat> := {};
      ghost var centers, rights := 0, 0;
      RolePidsInNone(pool, Center);
      RolePidsInNone(pool, Right);
      while pending != {}
        invariant pending + done == pool.Keys && pending !! done
        invariant centers == |RolePidsIn(pool, done, Center)| && rights == |RolePidsIn(pool, done, Right)|
        invariant inputQueue == old(inputQueue) + Nulls(centers)
        invariant outputQueue == old(outputQueue) + Nulls(rights)
        decreases |pending|
      {
        var pid :| pid in pending;
        var role := pool[pid].role;
        SentinelStep(pool, done, pid, Center);
        SentinelStep(pool, done, pid, Right);
        done := done + {pid};
        pending := pending - {pid};
        if role == Center {
          NullsAppend(old(inputQueue), centers);
          inputQueue := inputQueue + [Null];
          centers := centers + 1;
        }
        if role == Right {
          NullsAppend(old(outputQueue), rights);
          outputQueue := outputQueue + [Null];
          rights := rights + 1;
        }
      }
      RolePidsInAll(pool, Center);
      RolePidsInAll(pool, Right);
    }

    /** The restart signal. Its handler is installed by start, in daemon mode
        only; it acts on its first delivery only, setting the signal to Restart
        and starting the restart timer. */
    method OnRestartSignal()
      requires Valid()
      modifies this`signal, this`restartHandled
      ensures Valid()
      ensures var acts := started && isDaemon && !old(restartHandled);
        && restartHandled == (old(restartHandled) || acts)
        && signal == (if acts then Restart else old(signal))
      ensures MayFollow(old(signal), signal)
    {
      if !started || !isDaemon {
        return;
      }
      if restartHandled {
        return;
      }
      restartHandled := true;
      signal := Restart;
    }

    /** One tick of the restart timer: the master exits when the pool is empty
        or on the tick whose counter reads 1 (the counter is incremented as it
        is tested, and is not touched when the pool is empty). Otherwise it
        sends sentinels to unblock parked center and right workers. */
    method RestartTick() returns (exit: bool)
      requires Valid() && restartHandled && !exited
      modifies this`restartTickCount, this`exited, this`inputQueue, this`outputQueue
      ensures Valid()
      ensures exit == (pool == map[] || old(restartTickCount) == 1) && exited == exit
      ensures restartTickCount == (if pool == map[] then old(restartTickCount) else old(restartTickCount) + 1)
      ensures !exit ==> restartTickCount == 1
      ensures exit ==> inputQueue == old(inputQueue) && outputQueue == old(outputQueue)
      ensures !exit ==> inputQueue == old(inputQueue) + Nulls(CountRole(pool, Center))
                        && outputQueue == old(outputQueue) + Nulls(CountRole(pool, Right))
    {
      if pool == map[] {
        exited := true;
        return true;
      }
      var count := restartTickCount;
      restartTickCount := restartTickCount + 1;
      if count == 1 {
        exited := true;
        return true;
      }
      PushSentinels();
      exit := false;
    }

    /** The terminate signal: its handler acts on its first delivery after
        start only; in daemon mode it sets the signal to StopLeft (non-daemon
        mode is already at FinishLeft), and it starts the stop timer. */
    method OnStopSignal()
      requires Valid()
      modifies this`signal, this`stopHandled
      ensures Valid()
      ensures var acts := started && !old(stopHandled);
        && stopHandled == (old(stopHandled) || acts)
        && signal == (if acts && isDaemon then StopLeft else old(signal))
      ensures MayFollow(old(signal), signal)
    {
      if !started || stopHandled {
        return;
      }
      stopHandled := true;
      if isDaemon {
        signal := StopLeft;
      }
    }

    /** One tick of the stop timer: the master exits when the pool is empty.
        Otherwise, once no left entry remains and both queues are empty, the
        signal escalates to StopAll and sentinels unblock the parked center and
        right workers. */
    method StopTick() returns (exit: bool)
      requires Valid() && stopHandled && !exited
      modifies this`signal, this`exited, this`inputQueue, this`outputQueue
      ensures Valid()
      ensures exit == (pool == map[]) && exited == exit
      ensures var drained := !exit && !HasRole(pool, Left) && old(inputQueue) == [] && old(outputQueue) == [];
        && signal == (if drained then StopAll else old(signal))
        && inputQueue == (if drained then Nulls(CountRole(pool, Center)) else old(inputQueue))
        && outputQueue == (if drained then Nulls(CountRole(pool, Right)) else old(outputQueue))
      ensures MayFollow(old(signal), signal)
    {
      if pool == map[] {
        exited := true;
        return true;
      }
      exit := false;
      if !HasRole(pool, Left) && inputQueue == [] && outputQueue == [] {
        signal := StopAll;
        PushSentinels();
      }
    }

    /** Pops from the queue of `role`; `parked` says that the queue was empty,
        where the host's pop would block. */
    method Pop(role: Role) returns (v: Value, parked: bool)
      modifies this`inputQueue, this`outputQueue
      ensures parked <==> old(QueueOf(role)) == []
      ensures parked ==> QueueOf(role) == old(QueueOf(role))
      ensures !parked ==> v == old(QueueOf(role))[0] && QueueOf(role) == old(QueueOf(role))[1..]
      ensures role == Right ==> inputQueue == old(inputQueue)
      ensures role != Right ==> outputQueue == old(outputQueue)
    {
      v, parked := Null, false;
      if role == Right {
        if outputQueue == [] {
          parked := true;
        } else {
          v, outputQueue := outputQueue[0], outputQueue[1..];
        }
      } else {
        if inputQueue == [] {
          parked := true;
        } else {
          v, inputQueue := inputQueue[0], inputQueue[1..];
        }
      }
    }

    /** Pushes `v` onto the tail of the queue of `role`. */
    method Push(role: Role, v: Value)
      modifies this`inputQueue, this`outputQueue
      ensures QueueOf(role) == old(QueueOf(role)) + [v]
      ensures role == Right ==> inputQueue == old(inputQueue)
      ensures role != Right ==> outputQueue == old(outputQueue)
    {
      if role == Right {
        outputQueue := outputQueue + [v];
      } else {
        inputQueue := inputQueue + [v];
      }
    }

    /** One iteration of the loop of a center or right worker: one pop, where
        a pop on an empty queue parks the worker; an empty value is skipped;
        any other value is handed to the `calls`-th handler call and, when that
        call fails, goes back onto the queue. `stop` says that the loop ends
        here, with `exit`; otherwise `head` is what was handled. */
    method Iteration(role: Role, outcome: nat -> bool, budget: nat, calls: nat)
      returns (stop: bool, exit: WorkerExit, head: seq<Value>)
      requires role != Left && budget >= 1
      modifies this`inputQueue, this`outputQueue
      ensures stop ==> exit == Parked || exit.Failed?
      ensures stop ==> RunSpec(old(QueueOf(role)), budget, calls, outcome)
                       == WorkerRun(QueueOf(role), [], if exit == Parked then 0 else 1, exit)
      ensures !stop ==> var rest := RunSpec(QueueOf(role), budget - 1, calls + |head|, outcome);
        RunSpec(old(QueueOf(role)), budget, calls, outcome)
        == WorkerRun(rest.queue, head + rest.handled, rest.pops + 1, rest.exit)
      ensures role == Right ==> inputQueue == old(inputQueue)
      ensures role == Center ==> outputQueue == old(outputQueue)
    {
      var v, parked := Pop(role);
      head := [];
      if parked {
        return true, Parked, [];
      }
      if IsEmptyValue(v) {
        return false, Exhausted, [];
      }
      var ok := outcome(calls);
      if !ok {
        Push(role, v);
        return true, Failed(v), [];
      }
      stop, exit, head := false, Exhausted, [v];
    }

    /** The loop of a center worker (on the input queue) or a right worker (on
        the output queue), from iteration `j0` with `calls0` handler calls made:
        at most maxExecutions iterations in all, each one Iteration; it ends
        when the iterations are used up or an Iteration stops it. A worker that
        parked resumes, once values have arrived, by a further call from the
        returned `j` and `calls`. The result is the one RunSpec describes. */
    method RunWorker(role: Role, outcome: nat -> bool, j0: nat, calls0: nat)
      returns (exit: WorkerExit, handled: seq<Value>, j: nat, calls: nat)
      requires role != Left && j0 <= maxExecutions
      modifies this`inputQueue, this`outputQueue
      ensures var r := RunSpec(old(QueueOf(role)), maxExecutions - j0, calls0, outcome);
        QueueOf(role) == r.queue && exit == r.exit && handled == r.handled && j == j0 + r.pops
      ensures calls == calls0 + |handled| && j <= maxExecutions
      ensures role == Right ==> inputQueue == old(inputQueue)
      ensures role == Center ==> outputQueue == old(outputQueue)
    {
      var k;
      exit, handled, k, calls := Iterations(role, outcome, maxExecutions - j0, calls0);
      RunSpecPops(old(QueueOf(role)), maxExecutions - j0, calls0, outcome);
      j := j0 + k;
    }

    /** The `budget` iterations of RunWorker left after its first `j0`: the
        run, the iterations `k` it took and the handler calls it made. */
    method Iterations(role: Role, outcome: nat -> bool, budget: nat, calls0: nat)
      returns (exit: WorkerExit, handled: seq<Value>, k: nat, calls: nat)
      requires role != Left
      modifies this`inputQueue, this`outputQueue
      ensures RunSpec(old(QueueOf(role)), budget, calls0, outcome) == WorkerRun(QueueOf(role), handled, k, exit)
      ensures calls == calls0 + |handled|
      ensures role == Right ==> inputQueue == old(inputQueue)
      ensures role == Center ==> outputQueue == old(outputQueue)
    {
      ghost var spec := RunSpec(QueueOf(role), budget, calls0, outcome);
      k := 0;
      calls := calls0;
      handled, exit := [], Exhausted;
      while k < budget
        invariant k <= budget
        invariant calls == calls0 + |handled|
        invariant role == Right ==> inputQueue == old(inputQueue)
        invariant role == Center ==> outputQueue == old(outputQueue)
        invariant var rest := RunSpec(QueueOf(role), budget - k, calls, outcome);
          spec == WorkerRun(rest.queue, handled + rest.handled, k + rest.pops, rest.exit)
      {
        ghost var before := RunSpec(QueueOf(role), budget - k, calls, outcome);
        var stop, e, head := Iteration(role, outcome, budget - k, calls);
        if stop {
          exit := e;
          k := k + if e == Parked then 0 else 1;
          assert handled + [] == handled;
          assert spec == WorkerRun(QueueOf(role), handled, k, exit);
          return;
        }
        ghost var rest := RunSpec(QueueOf(role), (budget - k) - 1, calls + |head|, outcome);
        assert before == WorkerRun(rest.queue, head + rest.handled, rest.pops + 1, rest.exit);
        assert spec == WorkerRun(rest.queue, handled + (head + rest.handled), k + (rest.pops + 1), rest.exit);
        assert handled + (head + rest.handled) == (handled + head) + rest.handled;
        assert (budget - k) - 1 == budget - (k + 1);
        handled, calls, k := handled + head, calls + |head|, k + 1;
      }
      assert handled + [] == handled;
    }
  }

  /** Initialisation outside daemon mode forces exactly one left process
      whatever was configured, and start sets the signal to FinishLeft at once
      and schedules the master's own terminate signal. */
  method NonDaemonStart(left: nat, center: nat, right: nat, key: int)
    returns (leftCount: nat, signal: Signal, selfTerminate: bool, size: nat)
    ensures leftCount == 1 && signal == FinishLeft && selfTerminate
    ensures size == 1 + center + right
  {
    var s := new Supervisor(0, left, center, right, DEFAULT_MAX_EXECUTIONS);
    s.Start(key);
    SpawnedShape(0, 1, center, right);
    leftCount, signal, selfTerminate, size := CountRole(s.pool, Left), s.signal, s.selfTerminateScheduled, |s.pool|;
  }

  /** In push mode no right process is created, whatever was configured. */
  method PushModeStart(left: nat, center: nat, right: nat, key: int)
    returns (rightCount: nat, leftCount: nat, inputKey: int, outputKey: int)
    ensures rightCount == 0 && leftCount == left
    ensures inputKey == key + 1 && outputKey == key + 2
  {
    var s := new Supervisor(MODE_DAEMON | MODE_PUSH, left, center, right, DEFAULT_MAX_EXECUTIONS);
    s.Start(key);
    SpawnedShape(0, left, center, 0);
    rightCount, leftCount, inputKey, outputKey := CountRole(s.pool, Right), CountRole(s.pool, Left),
      s.inputQueueKey, s.outputQueueKey;
  }

  /** The table right after start, with a left process first, and what
      remains of it once that process has gone. */
  lemma FirstLeftGone(m: Pool, left: nat, center: nat, right: nat)
    requires left >= 1 && m == Spawned(0, left, center, right)
    ensures 0 in m && m[0] == Entry(Left, 0)
    ensures CountRole(m - {0}, Left) == left - 1
    ensures CountRole(m - {0}, Center) == center && CountRole(m - {0}, Right) == right
    ensures m - {0} == map[] <==> left + center + right == 1
  {
    SpawnedLayout(0, left, center, right);
    assert m[0] == SlotAt(0, 0, left, center);
    RemoveCount(m, 0, Left);
    RemoveCount(m, 0, Center);
    RemoveCount(m, 0, Right);
  }

  /** A master in the default (daemon) mode, just started. */
  method StartedDaemon(left: nat, center: nat, right: nat, maxExecutions: nat) returns (s: Supervisor)
    requires left >= 1
    ensures fresh(s) && s.Valid() && s.started && s.isDaemon && s.maxExecutions == maxExecutions
    ensures !s.restartHandled && !s.stopHandled && !s.exited
    ensures s.inputQueue == [] && s.outputQueue == [] && s.signal == None
    ensures 0 in s.pool && s.pool[0] == Entry(Left, 0)
    ensures CountRole(s.pool - {0}, Left) == left - 1
    ensures CountRole(s.pool - {0}, Center) == center && CountRole(s.pool - {0}, Right) == right
    ensures s.pool - {0} == map[] <==> left + center + right == 1
  {
    s := new Supervisor(DEFAULT_MODE, left, center, right, maxExecutions);
    DefaultModeIsDaemonWithoutPush();
    s.Start(0);
    FirstLeftGone(s.pool, left, center, right);
  }

  /** In daemon mode a terminate signal after a restart signal lowers Restart
      to StopLeft: the signal is not monotonic across the two handlers. */
  method RestartThenStop() returns (signals: seq<Signal>)
    ensures signals == [None, Restart, StopLeft]
  {
    var s := StartedDaemon(1, 1, 1, DEFAULT_MAX_EXECUTIONS);
    var s0 := s.signal;
    s.OnRestartSignal();
    var s1 := s.signal;
    s.OnStopSignal();
    signals := [s0, s1, s.signal];
  }

  /** In daemon mode a restart signal after a terminate signal raises StopLeft
      to Restart. */
  method StopThenRestart() returns (signals: seq<Signal>)
    ensures signals == [None, StopLeft, Restart]
  {
    var s := StartedDaemon(1, 1, 1, DEFAULT_MAX_EXECUTIONS);
    var s0 := s.signal;
    s.OnStopSignal();
    var s1 := s.signal;
    s.OnRestartSignal();
    signals := [s0, s1, s.signal];
  }

  /** A daemon restart: the exited first left process is not recreated; the
      first tick exits at once when nothing else runs, and otherwise sends one
      sentinel per center and right process; the second tick exits the master
      whether or not the other workers have ended: the table it exits with
      still holds every other left, center and right entry. */
  method RestartCutover(left: nat, center: nat, right: nat)
    returns (reboot: RebootOutcome, first: bool, input: seq<Value>, output: seq<Value>, second: bool,
             leftAlive: nat, centerAlive: nat, rightAlive: nat)
    requires left >= 1
    ensures reboot == Retired(Entry(Left, 0))
    ensures first <==> left + center + right == 1
    ensures !first ==> input == Nulls(center) && output == Nulls(right) && second
    ensures leftAlive == left - 1 && centerAlive == center && rightAlive == right
  {
    var s := StartedDaemon(left, center, right, DEFAULT_MAX_EXECUTIONS);
    s.OnRestartSignal();
    reboot := s.RebootProcess(0);
    first := s.RestartTick();
    input, output := s.inputQueue, s.outputQueue;
    second := true;
    if !first {
      second := s.RestartTick();
    }
    leftAlive, centerAlive, rightAlive := CountRole(s.pool, Left), CountRole(s.pool, Center), CountRole(s.pool, Right);
  }

  /** A daemon master with a single left process, after the terminate
      signal and the exit of that left process. */
  method DrainingDaemon(center: nat, right: nat) returns (s: Supervisor, afterStop: Signal, reboot: RebootOutcome)
    ensures fresh(s) && s.Valid() && s.stopHandled && !s.exited
    ensures afterStop == StopLeft && reboot == Retired(Entry(Left, 0))
    ensures s.inputQueue == [] && s.outputQueue == [] && !HasRole(s.pool, Left)
    ensures CountRole(s.pool, Center) == center && CountRole(s.pool, Right) == right
    ensures s.pool == map[] <==> center + right == 0
  {
    s := StartedDaemon(1, center, right, DEFAULT_MAX_EXECUTIONS);
    s.OnStopSignal();
    afterStop := s.signal;
    reboot := s.RebootProcess(0);
    HasRoleIffCounted(s.pool, Left);
  }

  /** A daemon shutdown with a single left process: the terminate signal sets
      StopLeft; the exited left process is not recreated; the next tick exits
      at once when nothing else runs, and otherwise, the queues being empty,
      escalates the signal to StopAll and sends one sentinel per center and
      right process. */
  method StopDrain(center: nat, right: nat)
    returns (afterStop: Signal, reboot: RebootOutcome, first: bool, afterTick: Signal,
             input: seq<Value>, output: seq<Value>)
    ensures afterStop == StopLeft && reboot == Retired(Entry(Left, 0))
    ensures first <==> center + right == 0
    ensures !first ==> afterTick == StopAll && input == Nulls(center) && output == Nulls(right)
  {
    var s;
    s, afterStop, reboot := DrainingDaemon(center, right);
    first := s.StopTick();
    afterTick, input, output := s.signal, s.inputQueue, s.outputQueue;
  }

  /** While another left process is still running, a stop tick neither exits
      nor escalates the signal. */
  method StopWaitsForLeft(left: nat, center: nat, right: nat) returns (first: bool, afterTick: Signal)
    requires left >= 2
    ensures !first && afterTick == StopLeft
  {
    var s := StartedDaemon(left, center, right, DEFAULT_MAX_EXECUTIONS);
    s.OnStopSignal();
    var _ := s.RebootProcess(0);
    HasRoleIffCounted(s.pool, Left);
    first := s.StopTick();
    afterTick := s.signal;
  }

  /** A center worker of a started daemon master with one process of each
      role, over "a", "" and "b" whose second handler call fails: "a" is
      handled, "" is skipped, and "b" goes back onto the queue; the table
      holds the one center entry the worker runs for. */
  method WorkerFailure() returns (exit: WorkerExit, handled: seq<Value>, queue: seq<Value>, centers: nat)
    ensures exit == Failed(Str("b")) && handled == [Str("a")] && queue == [Str("b")]
    ensures centers == 1
  {
    var s := StartedDaemon(1, 1, 1, DEFAULT_MAX_EXECUTIONS);
    exit, handled := FailOnSecondCall(s);
    queue := s.inputQueue;
    centers := CountRole(s.pool - {0}, Center);
  }

  /** The queue run of WorkerFailure, on any master with an empty input queue
      and the default budget. */
  method FailOnSecondCall(s: Supervisor) returns (exit: WorkerExit, handled: seq<Value>)
    requires s.inputQueue == [] && s.maxExecutions == DEFAULT_MAX_EXECUTIONS
    modifies s`inputQueue, s`outputQueue
    ensures exit == Failed(Str("b")) && handled == [Str("a")] && s.inputQueue == [Str("b")]
  {
    s.Push(Center, Str("a"));
    s.Push(Center, Str(""));
    s.Push(Center, Str("b"));
    var outcome := (k: nat) => k == 0;
    assert s.inputQueue == [Str("a"), Str(""), Str("b")];
    var j, calls;
    exit, handled, j, calls := s.RunWorker(Center, outcome, 0, 0);
    ghost var q := [Str("a"), Str(""), Str("b")];
    assert q[1..] == [Str(""), Str("b")] && q[1..][1..] == [Str("b")];
    assert RunSpec([Str("b")], 15998, 1, outcome) == WorkerRun([Str("b")], [], 1, Failed(Str("b")));
    assert RunSpec(q[1..], 15999, 1, outcome) == WorkerRun([Str("b")], [], 2, Failed(Str("b")));
    assert RunSpec(q, 16000, 0, outcome) == WorkerRun([Str("b")], [Str("a")], 3, Failed(Str("b")));
  }

  /** A center worker started on an empty input queue parks on its first pop. */
  method ParkOnEmptyInput(s: Supervisor, outcome: nat -> bool) returns (exit: WorkerExit, j: nat, calls: nat)
    requires s.inputQueue == [] && s.maxExecutions >= 1
    modifies s`inputQueue, s`outputQueue
    ensures exit == Parked && j == 0 && calls == 0
    ensures s.inputQueue == [] && s.outputQueue == old(s.outputQueue)
  {
    var h;
    exit, h, j, calls := s.RunWorker(Center, outcome, 0, 0);
  }

  /** The restart signal reaches a started daemon master that has not been
      signalled yet, and the first tick of the restart timer pushes one null
      per center process. */
  method RestartOnFreshDaemon(s: Supervisor, center: nat)
    requires s.Valid() && s.started && s.isDaemon && !s.restartHandled && !s.exited
    requires 0 in s.pool && CountRole(s.pool, Center) == center && s.inputQueue == []
    modifies s
    ensures s.inputQueue == Nulls(center)
  {
    s.OnRestartSignal();
    var exit := s.RestartTick();
  }

  /** A daemon master with one left and `center` center processes: a center
      worker parks on the empty input queue, then the restart signal arrives
      and its first tick pushes one null per center process. */
  method ParkedCenterAtRestart(center: nat, maxExecutions: nat, outcome: nat -> bool)
    returns (s: Supervisor, first: WorkerExit, j: nat, calls: nat)
    requires maxExecutions >= 1
    ensures fresh(s) && s.maxExecutions == maxExecutions
    ensures first == Parked && j == 0 && calls == 0
    ensures s.inputQueue == Nulls(center)
  {
    s := StartedDaemon(1, center, 0, maxExecutions);
    RemoveCount(s.pool, 0, Center);
    first, j, calls := ParkOnEmptyInput(s, outcome);
    RestartOnFreshDaemon(s, center);
  }

  /** The sentinels of a restart let parked workers run out their loops:
      resumed from where it parked, the center worker skips the nulls without
      a handler call; when they cover its remaining iterations its loop is
      exhausted and its process ends, and otherwise it parks again. */
  method RestartFinishesParkedWorker(center: nat, maxExecutions: nat, outcome: nat -> bool)
    returns (first: WorkerExit, second: WorkerExit, j: nat, handled: seq<Value>)
    requires maxExecutions >= 1
    ensures first == Parked && handled == []
    ensures second == (if maxExecutions <= center then Exhausted else Parked)
    ensures j == (if maxExecutions <= center then maxExecutions else center)
  {
    var s, calls;
    s, first, j, calls := ParkedCenterAtRestart(center, maxExecutions, outcome);
    SentinelsOnlyUseIterations(center, maxExecutions, calls, outcome);
    second, handled, j, calls := s.RunWorker(Center, outcome, j, calls);
  }
}
