/** Values and specification functions of the process-pool task executor: the
    roles and pool entries, the control signal, the values carried by the two
    queues, the respawn rule, the table of processes that process creation
    produces, and the bounded loop of a center or right worker. */
module PoolModel {

  /** Mode bits of the configuration. */
  const MODE_ASSEMBLY_LINE: bv64 := 1
  const MODE_PUSH: bv64 := 2
  const MODE_DAEMON: bv64 := 4
  /** The configured mode when none is given: daemon and assembly line. */
  const DEFAULT_MODE: bv64 := 5
  /** The configured per-worker execution budget when none is given. */
  const DEFAULT_MAX_EXECUTIONS: nat := 16000

  predicate IsDaemonMode(mode: bv64) { mode & MODE_DAEMON == MODE_DAEMON }

  predicate IsPushMode(mode: bv64) { mode & MODE_PUSH == MODE_PUSH }

  /** The assembly-line bit is never tested: setting or clearing it changes
      neither decoded flag. */
  lemma AssemblyLineBitIsInert(mode: bv64)
    ensures IsDaemonMode(mode | MODE_ASSEMBLY_LINE) == IsDaemonMode(mode & !MODE_ASSEMBLY_LINE)
    ensures IsPushMode(mode | MODE_ASSEMBLY_LINE) == IsPushMode(mode & !MODE_ASSEMBLY_LINE)
  {
  }

  /** The default mode runs as a daemon and not in push mode. */
  lemma DefaultModeIsDaemonWithoutPush()
    ensures IsDaemonMode(DEFAULT_MODE) && !IsPushMode(DEFAULT_MODE)
  {
  }

  datatype Role = Left | Center | Right

  /** A pool entry: the role of a worker process and its id within that role. */
  datatype Entry = Entry(role: Role, workerId: nat)

  /** The process-pool table, from process id to entry. */
  type Pool = map<nat, Entry>

  /** The control signal; Code gives the integer kept in the shared cell. */
  datatype Signal = None | Restart | FinishLeft | StopLeft | StopAll {
    function Code(): int {
      match this
      case None => 0
      case Restart => 1
      case FinishLeft => 2
      case StopLeft => 3
      case StopAll => 4
    }
  }

  /** The changes of the control signal that the master can make in one step.
      The signal never returns to None; FinishLeft is only followed by StopAll;
      StopAll only by Restart. A terminate signal after a restart signal lowers
      Restart to StopLeft, and a restart signal after a terminate signal raises
      StopLeft or StopAll to Restart. */
  predicate MayFollow(s: Signal, t: Signal) {
    || s == t
    || (s == None && t != StopAll)
    || (s != None && t == StopAll)
    || ((s == StopLeft || s == StopAll) && t == Restart)
    || (s == Restart && t == StopLeft)
  }

  lemma MayFollowNeverResets(s: Signal, t: Signal)
    requires MayFollow(s, t) && s != None
    ensures t != None
    ensures s == FinishLeft ==> t == FinishLeft || t == StopAll
    ensures s == StopAll ==> t == StopAll || t == Restart
  {
  }

  /** A value popped from a queue: the null sentinel the master pushes to
      unblock a worker, or a payload. */
  datatype Value = Null | Str(s: string)

  /** PHP's `empty()` on a popped value: null, the empty string and "0". */
  predicate IsEmptyValue(v: Value) {
    v == Null || v == Str("") || v == Str("0")
  }

  /** `n` null sentinels. */
  function Nulls(n: nat): (r: seq<Value>)
    ensures |r| == n && forall i :: 0 <= i < n ==> r[i] == Null
  {
    seq(n, _ => Null)
  }

  /** The pids of the entries of one role. */
  function RolePids(pool: Pool, role: Role): set<nat> {
    set p | p in pool && pool[p].role == role
  }

  /** The number of live entries of one role. */
  function CountRole(pool: Pool, role: Role): nat {
    |RolePids(pool, role)|
  }

  /** Whether some entry has the role. */
  predicate HasRole(pool: Pool, role: Role) {
    exists p :: p in pool && pool[p].role == role
  }

  /** An entry of a role exists exactly when the role's count is positive. */
  lemma HasRoleIffCounted(pool: Pool, role: Role)
    ensures HasRole(pool, role) <==> CountRole(pool, role) > 0
  {
    if HasRole(pool, role) {
      var p :| p in pool && pool[p].role == role;
      assert p in RolePids(pool, role);
    } else {
      assert RolePids(pool, role) == {};
    }
  }

  /** The pids among `pids` whose entries have the role. */
  function RolePidsIn(pool: Pool, pids: set<nat>, role: Role): set<nat> {
    set p | p in pids && p in pool && pool[p].role == role
  }

  /** The number of processes of `role` configured, given the left, center
      and right counts. */
  function Limit(role: Role, l: nat, c: nat, r: nat): nat {
    match role
    case Left => l
    case Center => c
    case Right => r
  }

  /** The structural invariant of the table: every pid is below the pid
      counter `next`, every entry is one of the configured slots, and no slot
      is held by two pids. */
  ghost predicate PoolInvariant(pool: Pool, next: nat, l: nat, c: nat, r: nat) {
    && (forall p :: p in pool ==> p < next)
    && (forall p :: p in pool ==> pool[p].workerId < Limit(pool[p].role, l, c, r))
    && (forall p, q :: p in pool && q in pool && p != q ==> pool[p] != pool[q])
  }

  /** Removing an exited process keeps the invariant. */
  lemma RemoveKeepsInvariant(pool: Pool, next: nat, l: nat, c: nat, r: nat, pid: nat)
    requires PoolInvariant(pool, next, l, c, r)
    ensures PoolInvariant(pool - {pid}, next, l, c, r)
  {
  }

  /** Removing a pid takes one entry off its own role's count only. */
  lemma RemoveCount(pool: Pool, pid: nat, role: Role)
    requires pid in pool
    ensures CountRole(pool - {pid}, role) == CountRole(pool, role) - (if pool[pid].role == role then 1 else 0)
    ensures |pool - {pid}| == |pool| - 1
  {
    assert (pool - {pid}).Keys == pool.Keys - {pid};
    if pool[pid].role == role {
      assert RolePids(pool - {pid}, role) == RolePids(pool, role) - {pid};
    } else {
      assert RolePids(pool - {pid}, role) == RolePids(pool, role);
    }
  }

  /** Recreating an exited process under the next pid, with its role and
      worker id, keeps the invariant and the size of the table. */
  lemma RespawnKeepsInvariant(pool: Pool, next: nat, l: nat, c: nat, r: nat, pid: nat)
    requires PoolInvariant(pool, next, l, c, r) && pid in pool
    ensures var m := (pool - {pid})[next := pool[pid]];
      PoolInvariant(m, next + 1, l, c, r) && |m| == |pool|
  {
    var m0 := pool - {pid};
    assert m0.Keys == pool.Keys - {pid};
    assert next !in m0;
    var m := m0[next := pool[pid]];
    assert m.Keys == m0.Keys + {next};
    forall p, q | p in m && q in m && p != q
      ensures m[p] != m[q]
    {
      if p == next {
        assert m[q] == pool[q] && q != pid;
      } else if q == next {
        assert m[p] == pool[p] && p != pid;
      }
    }
  }

  lemma RolePidsInNone(pool: Pool, role: Role)
    ensures RolePidsIn(pool, {}, role) == {}
  {
  }

  lemma RolePidsInAll(pool: Pool, role: Role)
    ensures RolePidsIn(pool, pool.Keys, role) == RolePids(pool, role)
  {
  }

  /** Visiting one more pid adds it to its own role's pids only. */
  lemma SentinelStep(pool: Pool, done: set<nat>, pid: nat, role: Role)
    requires pid in pool && pid !in done
    ensures |RolePidsIn(pool, done + {pid}, role)|
         == |RolePidsIn(pool, done, role)| + (if pool[pid].role == role then 1 else 0)
  {
    if pool[pid].role == role {
      assert RolePidsIn(pool, done + {pid}, role) == RolePidsIn(pool, done, role) + {pid};
    } else {
      assert RolePidsIn(pool, done + {pid}, role) == RolePidsIn(pool, done, role);
    }
  }

  /** One more sentinel on a queue. */
  lemma NullsAppend(q: seq<Value>, n: nat)
    ensures q + Nulls(n) + [Null] == q + Nulls(n + 1)
  {
  }

  /** What the master does when a process exits: the pid was unknown, or its
      entry was removed and possibly recreated under a new pid. */
  datatype RebootOutcome = NoSuchPid | Retired(entry: Entry) | Respawned(entry: Entry, newPid: nat)

  /** Whether an exited process of `role` is recreated under `signal`. */
  predicate Respawns(signal: Signal, role: Role) {
    && !((signal == FinishLeft || signal == StopLeft) && role == Left)
    && !(signal == Restart || signal == StopAll)
  }

  /** The respawn rule, case by case: under None everything is recreated, while
      the left pool drains only center and right workers are, and under Restart
      or StopAll nothing is. */
  lemma RespawnRule(signal: Signal, role: Role)
    ensures signal == None ==> Respawns(signal, role)
    ensures (signal == FinishLeft || signal == StopLeft) ==> (Respawns(signal, role) <==> role != Left)
    ensures (signal == Restart || signal == StopAll) ==> !Respawns(signal, role)
  {
  }

  /** Each signal has its own code in 0 .. 4, and the respawn rule agrees with
      the integer tests on the code read back from the shared cell. */
  lemma RespawnRuleOnCodes(signal: Signal, other: Signal, role: Role)
    ensures 0 <= signal.Code() <= 4
    ensures signal.Code() == other.Code() ==> signal == other
    ensures Respawns(signal, role) <==>
              && !((signal.Code() == 2 || signal.Code() == 3) && role == Left)
              && !(signal.Code() == 1 || signal.Code() == 4)
  {
  }

  /** The entry created with pid `p`, `p - base` places after the first new pid, when creating
      `l` left, `c` center and then the remaining right processes. */
  function SlotAt(p: nat, base: nat, l: nat, c: nat): Entry
    requires base <= p
  {
    var k := p - base;
    if k < l then Entry(Left, k)
    else if k < l + c then Entry(Center, k - l)
    else Entry(Right, k - l - c)
  }

  /** `n` processes of `role` with worker ids 0 .. n - 1 under the pids
      `from` .. `from + n - 1`, created one after the other. */
  function Stage(from: nat, role: Role, n: nat): Pool {
    if n == 0 then map[] else Stage(from, role, n - 1)[from + n - 1 := Entry(role, n - 1)]
  }

  /** The entries that creating `l` left, `c` center and then `r` right
      processes adds when pids are handed out from `base` upwards. */
  function Spawned(base: nat, l: nat, c: nat, r: nat): Pool {
    Stage(base, Left, l) + Stage(base + l, Center, c) + Stage(base + l + c, Right, r)
  }

  /** Adding an entry under a new pid adds that pid to its role's pids only. */
  lemma RolePidsInsert(m: Pool, k: nat, e: Entry, role: Role)
    requires k !in m
    ensures CountRole(m[k := e], role) == CountRole(m, role) + (if e.role == role then 1 else 0)
  {
    assert RolePids(m[k := e], role) == RolePids(m, role) + (if e.role == role then {k} else {});
  }

  /** A stage has exactly `n` entries, all of its role, under the pids `from`
      .. `from + n - 1`, the worker id of each being its offset from `from`. */
  lemma {:induction false} StageLayout(from: nat, role: Role, n: nat)
    ensures var s := Stage(from, role, n);
      && |s| == n
      && (forall p :: p in s <==> from <= p < from + n)
      && (forall p :: p in s ==> s[p] == Entry(role, p - from))
      && (forall ro :: CountRole(s, ro) == (if ro == role then n else 0))
  {
    if n > 0 {
      StageLayout(from, role, n - 1);
      var s0 := Stage(from, role, n - 1);
      forall ro
        ensures CountRole(Stage(from, role, n), ro) == (if ro == role then n else 0)
      {
        RolePidsInsert(s0, from + n - 1, Entry(role, n - 1), ro);
      }
    } else {
      var s: Pool := map[];
      forall ro ensures CountRole(s, ro) == 0 {
        assert RolePids(s, ro) == {};
      }
    }
  }

  /** The role counts of a union of maps with disjoint pids add up. */
  lemma CountRoleUnion(a: Pool, b: Pool, role: Role)
    requires a.Keys !! b.Keys
    ensures CountRole(a + b, role) == CountRole(a, role) + CountRole(b, role)
  {
    assert RolePids(a + b, role) == RolePids(a, role) + RolePids(b, role);
    assert RolePids(a, role) !! RolePids(b, role);
  }

  /** Creating the configured counts adds exactly `l + c + r` entries, under the
      pids `base` .. `base + l + c + r - 1`, laid out as SlotAt says, with
      exactly `l` left, `c` center and `r` right entries. */
  lemma SpawnedLayout(base: nat, l: nat, c: nat, r: nat)
    ensures var m := Spawned(base, l, c, r);
      && |m| == l + c + r
      && (forall p :: p in m <==> base <= p < base + l + c + r)
      && (forall p :: p in m ==> m[p] == SlotAt(p, base, l, c))
      && CountRole(m, Left) == l && CountRole(m, Center) == c && CountRole(m, Right) == r
  {
    var s1, s2, s3 := Stage(base, Left, l), Stage(base + l, Center, c), Stage(base + l + c, Right, r);
    StageLayout(base, Left, l);
    StageLayout(base + l, Center, c);
    StageLayout(base + l + c, Right, r);
    ThreeStages(base, l, c, r, s1, s2, s3);
    ThreeStageCounts(l, c, r, s1, s2, s3);
  }

  /** Adding three stages one after the other adds their union. */
  lemma UnionOfStages(m: Pool, s1: Pool, s2: Pool, s3: Pool)
    ensures m + s1 + s2 + s3 == m + (s1 + s2 + s3)
  {
  }

  /** Creating one more process extends the current stage by one entry. */
  lemma ExtendStage(m: Pool, from: nat, role: Role, n: nat)
    ensures (m + Stage(from, role, n))[from + n := Entry(role, n)] == m + Stage(from, role, n + 1)
  {
  }

  /** The layout of three consecutive stages, from the layout of each. */
  lemma {:induction false} ThreeStages(base: nat, l: nat, c: nat, r: nat, s1: Pool, s2: Pool, s3: Pool)
    requires |s1| == l && |s2| == c && |s3| == r
    requires forall p :: p in s1 <==> base <= p < base + l
    requires forall p :: p in s2 <==> base + l <= p < base + l + c
    requires forall p :: p in s3 <==> base + l + c <= p < base + l + c + r
    requires forall p :: p in s1 ==> s1[p] == Entry(Left, p - base)
    requires forall p :: p in s2 ==> s2[p] == Entry(Center, p - (base + l))
    requires forall p :: p in s3 ==> s3[p] == Entry(Right, p - (base + l + c))
    ensures var m := s1 + s2 + s3;
      && |m| == l + c + r
      && (forall p :: p in m <==> base <= p < base + l + c + r)
      && (forall p :: p in m ==> m[p] == SlotAt(p, base, l, c))
  {
    DisjointUnion(s1, s2);
    var s12 := s1 + s2;
    DisjointUnion(s12, s3);
    ThreeStageSlots(base, l, c, r, s1, s2, s3);
  }

  /** The entries of three consecutive stages, pid by pid. */
  lemma ThreeStageSlots(base: nat, l: nat, c: nat, r: nat, s1: Pool, s2: Pool, s3: Pool)
    requires forall p :: p in s2 ==> base + l <= p < base + l + c
    requires forall p :: p in s3 ==> base + l + c <= p
    requires forall p :: p in s1 ==> base <= p < base + l && s1[p] == Entry(Left, p - base)
    requires forall p :: p in s2 ==> s2[p] == Entry(Center, p - (base + l))
    requires forall p :: p in s3 ==> s3[p] == Entry(Right, p - (base + l + c))
    ensures forall p :: p in s1 + s2 + s3 ==> (s1 + s2 + s3)[p] == SlotAt(p, base, l, c)
  {
    var s12 := s1 + s2;
    forall p | p in s12 + s3
      ensures (s12 + s3)[p] == SlotAt(p, base, l, c)
    {
      if p in s3 {
        assert (s12 + s3)[p] == s3[p];
      } else if p in s2 {
        assert (s12 + s3)[p] == s12[p] == s2[p];
      } else {
        assert (s12 + s3)[p] == s12[p] == s1[p];
      }
    }
  }

  /** The role counts of three stages with disjoint pids add up. */
  lemma ThreeStageCounts(l: nat, c: nat, r: nat, s1: Pool, s2: Pool, s3: Pool)
    requires s1.Keys !! s2.Keys && s1.Keys !! s3.Keys && s2.Keys !! s3.Keys
    requires forall ro :: CountRole(s1, ro) == (if ro == Left then l else 0)
    requires forall ro :: CountRole(s2, ro) == (if ro == Center then c else 0)
    requires forall ro :: CountRole(s3, ro) == (if ro == Right then r else 0)
    ensures var m := s1 + s2 + s3;
      CountRole(m, Left) == l && CountRole(m, Center) == c && CountRole(m, Right) == r
  {
    assert (s1 + s2).Keys == s1.Keys + s2.Keys;
    forall ro
      ensures CountRole(s1 + s2 + s3, ro) == CountRole(s1, ro) + CountRole(s2, ro) + CountRole(s3, ro)
    {
      CountRoleUnion(s1, s2, ro);
      CountRoleUnion(s1 + s2, s3, ro);
    }
  }

  /** The union of maps with disjoint pids has all of their pids. */
  lemma DisjointUnion(a: Pool, b: Pool)
    requires a.Keys !! b.Keys
    ensures |a + b| == |a| + |b|
    ensures forall p :: p in a + b <==> p in a || p in b
    ensures forall p :: p in a ==> (a + b)[p] == a[p]
    ensures forall p :: p in b ==> (a + b)[p] == b[p]
  {
    assert (a + b).Keys == a.Keys + b.Keys;
  }

  /** The shape of the table after creation: exactly `l + c + r` entries with
      fresh pids `base` .. `base + l + c + r - 1`, no two with the same role and
      worker id, exactly `l` left, `c` center and `r` right entries, and each
      role's worker ids running over 0 .. count - 1. */
  lemma SpawnedShape(base: nat, l: nat, c: nat, r: nat)
    ensures var m := Spawned(base, l, c, r);
      && |m| == l + c + r
      && (forall p :: p in m <==> base <= p < base + l + c + r)
      && (forall p, q :: p in m && q in m && p != q ==> m[p] != m[q])
      && CountRole(m, Left) == l && CountRole(m, Center) == c && CountRole(m, Right) == r
      && (forall e: Entry :: e in m.Values <==>
            || (e.role == Left && e.workerId < l)
            || (e.role == Center && e.workerId < c)
            || (e.role == Right && e.workerId < r))
  {
    SpawnedLayout(base, l, c, r);
    LayoutShape(base, l, c, r, Spawned(base, l, c, r));
  }

  /** The table that process creation produces satisfies the invariant, with
      the counter just past the last new pid. */
  lemma SpawnedInvariant(base: nat, l: nat, c: nat, r: nat)
    ensures PoolInvariant(Spawned(base, l, c, r), base + l + c + r, l, c, r)
  {
    var m := Spawned(base, l, c, r);
    SpawnedLayout(base, l, c, r);
    LayoutShape(base, l, c, r, m);
    forall p | p in m
      ensures m[p].workerId < Limit(m[p].role, l, c, r)
    {
      assert m[p] == SlotAt(p, base, l, c);
    }
  }

  /** The table that creation produces from an empty one. */
  lemma StartedTable(m: Pool, base: nat, l: nat, c: nat, r: nat)
    requires m == map[] + Spawned(base, l, c, r)
    ensures m == Spawned(base, l, c, r)
    ensures PoolInvariant(m, base + l + c + r, l, c, r)
  {
    assert m == Spawned(base, l, c, r);
    SpawnedInvariant(base, l, c, r);
  }

  /** Injectivity and the worker ids of a table laid out as SlotAt says. */
  lemma LayoutShape(base: nat, l: nat, c: nat, r: nat, m: Pool)
    requires forall p :: p in m <==> base <= p < base + l + c + r
    requires forall p :: p in m ==> m[p] == SlotAt(p, base, l, c)
    ensures forall p, q :: p in m && q in m && p != q ==> m[p] != m[q]
    ensures forall e: Entry :: e in m.Values <==>
            || (e.role == Left && e.workerId < l)
            || (e.role == Center && e.workerId < c)
            || (e.role == Right && e.workerId < r)
  {
    forall p, q | p in m && q in m && p != q
      ensures m[p] != m[q]
    {
      assert m[p] == SlotAt(p, base, l, c) && m[q] == SlotAt(q, base, l, c);
    }
    forall e: Entry | (e.role == Left && e.workerId < l) || (e.role == Center && e.workerId < c)
                 || (e.role == Right && e.workerId < r)
      ensures e in m.Values
    {
      var p := match e.role
        case Left => base + e.workerId
        case Center => base + l + e.workerId
        case Right => base + l + c + e.workerId;
      assert p in m;
      assert m[p] == SlotAt(p, base, l, c) == e;
    }
  }

  /** How a worker loop ends: its execution budget is used up, it would block
      on an empty queue, or the handler failed on a message. */
  datatype WorkerExit = Exhausted | Parked | Failed(message: Value)

  /** The outcome of a worker loop: the queue afterwards, the values handed to
      the handler successfully (in order), the number of pops, and how it ended. */
  datatype WorkerRun = WorkerRun(queue: seq<Value>, handled: seq<Value>, pops: nat, exit: WorkerExit)

  /** A center or right worker's loop over queue `q` with `budget` iterations
      left, `calls` handler calls made so far, and `outcome(k)` the success of
      the k-th handler call. Each iteration pops one value; empty values are
      skipped; a failing handler call pushes the value back and ends the loop. */
  function RunSpec(q: seq<Value>, budget: nat, calls: nat, outcome: nat -> bool): WorkerRun
    decreases budget
  {
    if budget == 0 then WorkerRun(q, [], 0, Exhausted)
    else if q == [] then WorkerRun(q, [], 0, Parked)
    else if IsEmptyValue(q[0]) then
      var r := RunSpec(q[1..], budget - 1, calls, outcome);
      r.(pops := r.pops + 1)
    else if outcome(calls) then
      var r := RunSpec(q[1..], budget - 1, calls + 1, outcome);
      r.(handled := [q[0]] + r.handled, pops := r.pops + 1)
    else WorkerRun(q[1..] + [q[0]], [], 1, Failed(q[0]))
  }

  /** The non-empty values of a sequence, in order. */
  function NonEmpty(q: seq<Value>): (r: seq<Value>)
    ensures |r| <= |q|
  {
    if q == [] then [] else (if IsEmptyValue(q[0]) then [] else [q[0]]) + NonEmpty(q[1..])
  }

  /** NonEmpty keeps exactly the non-empty values of the sequence. */
  lemma {:induction false} NonEmptyMembers(q: seq<Value>)
    ensures forall v :: v in NonEmpty(q) <==> v in q && !IsEmptyValue(v)
  {
    if q != [] {
      NonEmptyMembers(q[1..]);
      assert q == [q[0]] + q[1..];
    }
  }

  lemma {:induction false} NonEmptyAppend(a: seq<Value>, b: seq<Value>)
    ensures NonEmpty(a + b) == NonEmpty(a) + NonEmpty(b)
  {
    if a == [] {
      assert a + b == b;
    } else {
      var h := if IsEmptyValue(a[0]) then [] else [a[0]];
      assert (a + b)[0] == a[0];
      assert (a + b)[1..] == a[1..] + b;
      calc {
        NonEmpty(a + b);
      ==
        h + NonEmpty(a[1..] + b);
      == { NonEmptyAppend(a[1..], b); }
        h + (NonEmpty(a[1..]) + NonEmpty(b));
      ==
        (h + NonEmpty(a[1..])) + NonEmpty(b);
      ==
        NonEmpty(a) + NonEmpty(b);
      }
    }
  }

  /** How many values a worker loop pops: at most `budget` and never more
      than the queue holds; the whole budget unless it parks or fails; all of
      the queue, with budget to spare, when it parks; at least one when it fails. */
  lemma {:induction false} RunSpecPops(q: seq<Value>, budget: nat, calls: nat, outcome: nat -> bool)
    ensures var r := RunSpec(q, budget, calls, outcome);
      && r.pops <= budget && r.pops <= |q|
      && (r.exit == Exhausted ==> r.pops == budget)
      && (r.exit == Parked ==> r.pops == |q| && r.pops < budget)
      && (r.exit.Failed? ==> r.pops >= 1)
    decreases budget
  {
    if budget > 0 && q != [] {
      if IsEmptyValue(q[0]) {
        RunSpecPops(q[1..], budget - 1, calls, outcome);
      } else if outcome(calls) {
        RunSpecPops(q[1..], budget - 1, calls + 1, outcome);
      }
    }
  }

  /** The queue a worker loop leaves: the values it did not pop, followed, when
      the handler failed, by the failing message, which is the non-empty value
      popped last. */
  lemma {:induction false} RunSpecQueue(q: seq<Value>, budget: nat, calls: nat, outcome: nat -> bool)
    ensures var r := RunSpec(q, budget, calls, outcome);
      && r.pops <= |q|
      && (!r.exit.Failed? ==> r.queue == q[r.pops..])
      && (r.exit.Failed? ==>
            && 1 <= r.pops
            && r.exit.message == q[r.pops - 1]
            && !IsEmptyValue(r.exit.message)
            && r.queue == q[r.pops..] + [r.exit.message])
    decreases budget
  {
    if budget > 0 && q != [] {
      if IsEmptyValue(q[0]) {
        RunSpecQueue(q[1..], budget - 1, calls, outcome);
        assert q[1..][RunSpec(q[1..], budget - 1, calls, outcome).pops..] == q[RunSpec(q, budget, calls, outcome).pops..];
      } else if outcome(calls) {
        RunSpecQueue(q[1..], budget - 1, calls + 1, outcome);
        assert q[1..][RunSpec(q[1..], budget - 1, calls + 1, outcome).pops..] == q[RunSpec(q, budget, calls, outcome).pops..];
      }
    }
  }

  /** The values a worker loop hands to the handler successfully: the
      non-empty values among those it popped, in order, leaving out the failing
      message. */
  lemma {:induction false} RunSpecHandled(q: seq<Value>, budget: nat, calls: nat, outcome: nat -> bool)
    ensures var r := RunSpec(q, budget, calls, outcome);
      && r.pops <= |q|
      && (!r.exit.Failed? ==> r.handled == NonEmpty(q[..r.pops]))
      && (r.exit.Failed? ==> 1 <= r.pops && r.handled == NonEmpty(q[..r.pops - 1]))
    decreases budget
  {
    if budget == 0 || q == [] {
      assert q[..0] == [];
    } else if IsEmptyValue(q[0]) || outcome(calls) {
      var next := if IsEmptyValue(q[0]) then calls else calls + 1;
      RunSpecHandled(q[1..], budget - 1, next, outcome);
      HandledCons(q, budget, calls, outcome, next, RunSpec(q[1..], budget - 1, next, outcome));
    } else {
      assert q[..0] == [];
    }
  }

  /** The inductive step of RunSpecHandled, for an iteration that pops a value
      and does not fail. */
  lemma HandledCons(q: seq<Value>, budget: nat, calls: nat, outcome: nat -> bool, next: nat, a: WorkerRun)
    requires q != [] && budget >= 1 && (IsEmptyValue(q[0]) || outcome(calls))
    requires next == if IsEmptyValue(q[0]) then calls else calls + 1
    requires a == RunSpec(q[1..], budget - 1, next, outcome)
    requires a.pops <= |q[1..]|
    requires !a.exit.Failed? ==> a.handled == NonEmpty(q[1..][..a.pops])
    requires a.exit.Failed? ==> 1 <= a.pops && a.handled == NonEmpty(q[1..][..a.pops - 1])
    ensures var r := RunSpec(q, budget, calls, outcome);
      && r.pops <= |q|
      && (!r.exit.Failed? ==> r.handled == NonEmpty(q[..r.pops]))
      && (r.exit.Failed? ==> 1 <= r.pops && r.handled == NonEmpty(q[..r.pops - 1]))
  {
    RunSpecCons(q, budget, calls, outcome, next, if IsEmptyValue(q[0]) then [] else [q[0]], a);
    HandledStep(q, a);
  }

  /** The step of RunSpecHandled: popping one more value first extends the
      prefix by that value. */
  lemma HandledStep(q: seq<Value>, r': WorkerRun)
    requires q != [] && r'.pops <= |q| - 1
    requires r'.exit.Failed? ==> 1 <= r'.pops
    ensures var k := if r'.exit.Failed? then r'.pops - 1 else r'.pops;
      NonEmpty(q[..k + 1]) == (if IsEmptyValue(q[0]) then [] else [q[0]]) + NonEmpty(q[1..][..k])
  {
    var k := if r'.exit.Failed? then r'.pops - 1 else r'.pops;
    assert q[..k + 1] == [q[0]] + q[1..][..k];
    NonEmptyAppend([q[0]], q[1..][..k]);
    assert [q[0]][1..] == [];
  }

  /** A worker that parked on an empty queue and resumes, with the iterations
      and handler calls it has left, once `more` has arrived, does what it
      would have done had `more` been queued from the start; in particular its
      pops over both stretches stay within the one budget (ResumeWithinBudget). */
  lemma {:induction false} RunSpecResume(q: seq<Value>, more: seq<Value>, budget: nat, calls: nat, outcome: nat -> bool)
    requires RunSpec(q, budget, calls, outcome).exit == Parked
    ensures var r1 := RunSpec(q, budget, calls, outcome);
      r1.pops <= budget &&
      var r2 := RunSpec(more, budget - r1.pops, calls + |r1.handled|, outcome);
      RunSpec(q + more, budget, calls, outcome)
      == WorkerRun(r2.queue, r1.handled + r2.handled, r1.pops + r2.pops, r2.exit)
    decreases budget
  {
    if q == [] {
      ResumeBase(q, more, budget, calls, outcome);
    } else {
      var next := if IsEmptyValue(q[0]) then calls else calls + 1;
      ParkedTail(q, budget, calls, outcome);
      RunSpecResume(q[1..], more, budget - 1, next, outcome);
      var head := if IsEmptyValue(q[0]) then [] else [q[0]];
      var a := RunSpec(q[1..], budget - 1, next, outcome);
      var r2 := RunSpec(more, budget - 1 - a.pops, next + |a.handled|, outcome);
      assert a.pops <= budget - 1;
      assert RunSpec(q[1..] + more, budget - 1, next, outcome)
          == WorkerRun(r2.queue, a.handled + r2.handled, a.pops + r2.pops, r2.exit);
      ResumeStep(q, more, budget, calls, outcome, next, head, a, r2);
      var r1 := RunSpec(q, budget, calls, outcome);
      assert r1.pops == a.pops + 1 && r1.handled == head + a.handled;
      assert budget - r1.pops == budget - 1 - a.pops && calls + |r1.handled| == next + |a.handled|;
    }
  }

  /** A worker's iterations before it parks and after it resumes with what it
      has left add up to at most its one budget, and it parks only with
      iterations to spare. */
  lemma ResumeWithinBudget(q: seq<Value>, more: seq<Value>, budget: nat, calls: nat, outcome: nat -> bool)
    requires RunSpec(q, budget, calls, outcome).exit == Parked
    ensures var r1 := RunSpec(q, budget, calls, outcome);
      r1.pops < budget &&
      r1.pops + RunSpec(more, budget - r1.pops, calls + |r1.handled|, outcome).pops <= budget
  {
    var r1 := RunSpec(q, budget, calls, outcome);
    RunSpecPops(q, budget, calls, outcome);
    RunSpecPops(more, budget - r1.pops, calls + |r1.handled|, outcome);
  }

  /** The base case of RunSpecResume: parked at once on an empty queue. */
  lemma ResumeBase(q: seq<Value>, more: seq<Value>, budget: nat, calls: nat, outcome: nat -> bool)
    requires q == [] && RunSpec(q, budget, calls, outcome).exit == Parked
    ensures var r1 := RunSpec(q, budget, calls, outcome);
      r1.pops <= budget &&
      var r2 := RunSpec(more, budget - r1.pops, calls + |r1.handled|, outcome);
      RunSpec(q + more, budget, calls, outcome)
      == WorkerRun(r2.queue, r1.handled + r2.handled, r1.pops + r2.pops, r2.exit)
  {
    assert q + more == more;
  }

  /** A parked run over a non-empty queue popped its head and went on parking. */
  lemma ParkedTail(q: seq<Value>, budget: nat, calls: nat, outcome: nat -> bool)
    requires q != [] && RunSpec(q, budget, calls, outcome).exit == Parked
    ensures budget >= 1 && (IsEmptyValue(q[0]) || outcome(calls))
    ensures RunSpec(q[1..], budget - 1, if IsEmptyValue(q[0]) then calls else calls + 1, outcome).exit == Parked
  {
  }

  /** The inductive step of RunSpecResume: a run over a non-empty queue that
      pops its head without failing, given the claim for the rest of the queue,
      is that head's contribution followed by the run over the rest. */
  lemma ResumeStep(q: seq<Value>, more: seq<Value>, budget: nat, calls: nat, outcome: nat -> bool,
                   next: nat, head: seq<Value>, a: WorkerRun, r2: WorkerRun)
    requires q != [] && budget >= 1 && (IsEmptyValue(q[0]) || outcome(calls))
    requires next == if IsEmptyValue(q[0]) then calls else calls + 1
    requires head == if IsEmptyValue(q[0]) then [] else [q[0]]
    requires a == RunSpec(q[1..], budget - 1, next, outcome) && a.pops <= budget - 1
    requires r2 == RunSpec(more, budget - 1 - a.pops, next + |a.handled|, outcome)
    requires RunSpec(q[1..] + more, budget - 1, next, outcome)
             == WorkerRun(r2.queue, a.handled + r2.handled, a.pops + r2.pops, r2.exit)
    ensures RunSpec(q, budget, calls, outcome) == WorkerRun(a.queue, head + a.handled, a.pops + 1, a.exit)
    ensures calls + |head + a.handled| == next + |a.handled|
    ensures RunSpec(q + more, budget, calls, outcome)
            == WorkerRun(r2.queue, (head + a.handled) + r2.handled, (a.pops + 1) + r2.pops, r2.exit)
  {
    assert (q + more)[0] == q[0] && (q + more)[1..] == q[1..] + more;
    RunSpecCons(q, budget, calls, outcome, next, head, a);
    RunSpecCons(q + more, budget, calls, outcome, next, head, RunSpec(q[1..] + more, budget - 1, next, outcome));
    assert head + (a.handled + r2.handled) == (head + a.handled) + r2.handled;
  }

  /** One iteration of a worker loop that pops a value and does not fail: the
      run is the run over the rest of the queue, after one more pop and with
      the value, if not empty, handled first. */
  lemma RunSpecCons(q: seq<Value>, budget: nat, calls: nat, outcome: nat -> bool,
                    next: nat, head: seq<Value>, rest: WorkerRun)
    requires q != [] && budget >= 1 && (IsEmptyValue(q[0]) || outcome(calls))
    requires next == if IsEmptyValue(q[0]) then calls else calls + 1
    requires head == if IsEmptyValue(q[0]) then [] else [q[0]]
    requires rest == RunSpec(q[1..], budget - 1, next, outcome)
    ensures RunSpec(q, budget, calls, outcome)
            == WorkerRun(rest.queue, head + rest.handled, rest.pops + 1, rest.exit)
  {
  }

  /** Sentinels only use up iterations: over a queue of `n` nulls a worker
      calls no handler, and either exhausts its budget on them or pops them all
      and parks. */
  lemma {:induction false} SentinelsOnlyUseIterations(n: nat, budget: nat, calls: nat, outcome: nat -> bool)
    ensures RunSpec(Nulls(n), budget, calls, outcome)
         == if budget <= n then WorkerRun(Nulls(n - budget), [], budget, Exhausted)
            else WorkerRun([], [], n, Parked)
    decreases budget
  {
    if budget > 0 && n > 0 {
      assert Nulls(n)[1..] == Nulls(n - 1);
      SentinelsOnlyUseIterations(n - 1, budget - 1, calls, outcome);
    }
  }

  /** At-least-once delivery: every non-empty value of the queue is either
      handled or still queued afterwards, as a multiset. */
  lemma {:induction false} AtLeastOnce(q: seq<Value>, budget: nat, calls: nat, outcome: nat -> bool)
    ensures var r := RunSpec(q, budget, calls, outcome);
      multiset(NonEmpty(q)) == multiset(r.handled) + multiset(NonEmpty(r.queue))
  {
    RunSpecQueue(q, budget, calls, outcome);
    RunSpecHandled(q, budget, calls, outcome);
    ConservedValues(q, RunSpec(q, budget, calls, outcome));
  }

  /** The multiset argument of AtLeastOnce, for any run shaped as RunSpecQueue
      and RunSpecHandled describe. */
  lemma ConservedValues(q: seq<Value>, r: WorkerRun)
    requires r.pops <= |q|
    requires !r.exit.Failed? ==> r.queue == q[r.pops..] && r.handled == NonEmpty(q[..r.pops])
    requires r.exit.Failed? ==>
               && 1 <= r.pops
               && r.exit.message == q[r.pops - 1]
               && !IsEmptyValue(r.exit.message)
               && r.queue == q[r.pops..] + [r.exit.message]
               && r.handled == NonEmpty(q[..r.pops - 1])
    ensures multiset(NonEmpty(q)) == multiset(r.handled) + multiset(NonEmpty(r.queue))
  {
    if r.exit.Failed? {
      RequeueAt(q, r.pops);
    } else {
      PrefixSplit(q, r.pops);
    }
  }

  /** Splitting a queue after `n` values splits its non-empty values. */
  lemma {:induction false} PrefixSplit(q: seq<Value>, n: nat)
    requires n <= |q|
    ensures multiset(NonEmpty(q)) == multiset(NonEmpty(q[..n])) + multiset(NonEmpty(q[n..]))
  {
    assert q == q[..n] + q[n..];
    NonEmptyAppend(q[..n], q[n..]);
  }

  /** Moving the `n`-th value, a non-empty one, to the end of what follows it. */
  lemma RequeueAt(q: seq<Value>, n: nat)
    requires 1 <= n <= |q| && !IsEmptyValue(q[n - 1])
    ensures multiset(NonEmpty(q)) == multiset(NonEmpty(q[..n - 1])) + multiset(NonEmpty(q[n..] + [q[n - 1]]))
  {
    var pre, v, post := q[..n - 1], q[n - 1], q[n..];
    assert q == pre + ([v] + post);
    RequeueSplit(pre, v, post);
  }

  /** Moving a non-empty value from the middle of a queue to its end keeps the
      multiset of non-empty values. */
  lemma RequeueSplit(pre: seq<Value>, v: Value, post: seq<Value>)
    requires !IsEmptyValue(v)
    ensures multiset(NonEmpty(pre + ([v] + post))) == multiset(NonEmpty(pre)) + multiset(NonEmpty(post + [v]))
  {
    assert NonEmpty([v]) == [v] by {
      assert [v][1..] == [];
    }
    NonEmptyAppend(pre, [v] + post);
    NonEmptyAppend([v], post);
    NonEmptyAppend(post, [v]);
  }
}
