/** Environments, IPC and the scheduler as one state machine: kern/env.c, kern/sched.c and the
    environment calls of kern/ecall_all.c. A kernel entry is one step: the kernel is not
    preempted. Page tables are in module Pmap; here only the bookkeeping of environments. */
module Envs {
  import opened Options

  const NENV: nat := 1024
  const NASID: nat := 512

  datatype Status = Free | Runnable | NotRunnable

  datatype Env = Env(status: Status, id: nat, parent: nat, asid: nat, pri: nat,
                     recving: bool, value: nat, from: nat, dstva: nat)

  /** `count` is the static counter of `schedule`, `ids` that of `mkenvid`. */
  datatype K = K(envs: seq<Env>, freeList: seq<nat>, queue: seq<nat>, cur: Option<nat>,
                 asidBits: seq<bool>, ids: nat, count: int)

  // ----- lists -----

  predicate NoDup(q: seq<nat>) { forall i, j | 0 <= i < j < |q| :: q[i] != q[j] }

  /** TAILQ_REMOVE and LIST_REMOVE. */
  function Without(q: seq<nat>, x: nat): seq<nat> {
    if q == [] then [] else if q[0] == x then q[1..] else [q[0]] + Without(q[1..], x)
  }

  lemma WithoutSpec(q: seq<nat>, x: nat)
    requires NoDup(q)
    ensures NoDup(Without(q, x))
    ensures forall y :: y in Without(q, x) <==> y in q && y != x
    ensures |Without(q, x)| == if x in q then |q| - 1 else |q|
  {
    if q != [] {
      assert NoDup(q[1..]);
      assert q[0] !in q[1..];
      WithoutSpec(q[1..], x);
      assert forall y :: y in q <==> y == q[0] || y in q[1..];
    }
  }

  /** Position of `x` in a list that holds it. */
  function Index(q: seq<nat>, x: nat): nat
    requires x in q
    ensures Index(q, x) < |q| && q[Index(q, x)] == x
  {
    if q[0] == x then 0 else 1 + Index(q[1..], x)
  }

  /** Removing another element moves an element forward or leaves it. */
  lemma WithoutIndex(q: seq<nat>, x: nat, y: nat)
    requires NoDup(q) && y in q && x != y
    ensures y in Without(q, x) && Index(Without(q, x), y) <= Index(q, y)
    ensures q[0] == x ==> Index(Without(q, x), y) == Index(q, y) - 1
  {
    WithoutSpec(q, x);
    if q[0] != x && q[0] != y {
      WithoutIndex(q[1..], x, y);
    }
  }

  lemma IndexAppend(q: seq<nat>, x: nat, y: nat)
    requires y in q
    ensures y in q + [x] && Index(q + [x], y) == Index(q, y)
  {
    if q[0] != y {
      assert (q + [x])[1..] == q[1..] + [x];
      IndexAppend(q[1..], x, y);
    }
  }

  // ----- the scheduler -----

  /** `schedule`, ending in `env_run`; None is the panic when nothing is runnable. */
  function Schedule(k: K, yielding: bool): Option<K>
    requires k.cur.Some? ==> k.cur.value < |k.envs|
    requires forall i | 0 <= i < |k.queue| :: k.queue[i] < |k.envs|
  {
    var stay := k.cur.Some? && k.envs[k.cur.value].status == Runnable;
    var rotate := stay && (yielding || k.count - 1 <= 0);
    var q := if rotate then Without(k.queue, k.cur.value) + [k.cur.value] else k.queue;
    if stay && !rotate then Some(k.(count := k.envs[k.cur.value].pri))
    else if q == [] || q[0] >= |k.envs| then None
    else Some(k.(queue := q, cur := Some(q[0]), count := k.envs[q[0]].pri))
  }

  // ----- allocation and release -----

  /** `asid_alloc`: the lowest clear bit. */
  function FirstClear(bits: seq<bool>): (r: Option<nat>)
    ensures r.None? <==> forall i | 0 <= i < |bits| :: bits[i]
    ensures r.Some? ==> r.value < |bits| && !bits[r.value] && forall i | 0 <= i < r.value :: bits[i]
  {
    if bits == [] then None
    else if !bits[0] then Some(0)
    else match FirstClear(bits[1..])
      case None => assert forall i | 1 <= i < |bits| :: bits[i] == bits[1..][i - 1]; None
      case Some(i) => assert forall j | 1 <= j < i + 1 :: bits[j] == bits[1..][j - 1]; Some(i + 1)
  }

  /** `mkenvid`: a count above the index, in 32 bits. */
  function MakeId(ids: nat, i: nat): nat { ((ids + 1) * 2048 + i) % 0x1_0000_0000 }

  datatype Code = Ok | NoFreeEnv | NoMem | BadEnv | Inval | NotRecv

  /** `env_alloc` followed by the assignments of `e_exofork`: the new environment is not runnable
      and inherits the priority. `vm` is false when `env_setup_vm` runs out of memory. */
  function Exofork(k: K, parent: nat, pri: nat, vm: bool): (Code, K) {
    if k.freeList == [] || k.freeList[0] >= |k.envs| then (NoFreeEnv, k)
    else if !vm then (NoMem, k)
    else
      var i := k.freeList[0];
      var id := MakeId(k.ids, i);
      var k1 := k.(ids := k.ids + 1, envs := k.envs[i := k.envs[i].(id := id)]);
      match FirstClear(k.asidBits)
      case None => (NoFreeEnv, k1)
      case Some(a) =>
        (Ok, k1.(asidBits := k.asidBits[a := true], freeList := Without(k.freeList, i),
                 envs := k1.envs[i := k1.envs[i].(asid := a, parent := parent, pri := pri, status := NotRunnable)]))
  }

  /** `env_create` at boot: allocated, then put at the head of the run queue. */
  function Create(k: K, pri: nat, vm: bool): (Code, K) {
    var (r, k1) := Exofork(k, 0, pri, vm);
    if r != Ok || k.freeList == [] || k.freeList[0] >= |k1.envs| then (r, k1)
    else
      var i := k.freeList[0];
      (Ok, k1.(envs := k1.envs[i := k1.envs[i].(status := Runnable)], queue := [i] + k1.queue))
  }

  /** The bookkeeping of `env_free`. */
  function Release(k: K, i: nat): K
    requires i < |k.envs|
  {
    k.(envs := k.envs[i := k.envs[i].(status := Free)],
       asidBits := if k.envs[i].asid < |k.asidBits| then k.asidBits[k.envs[i].asid := false] else k.asidBits,
       freeList := [i] + k.freeList, queue := Without(k.queue, i))
  }

  // ----- the calls; `t` is the environment that `envid2env` finds -----

  function SetStatus(k: K, t: nat, st: Status): K
    requires t < |k.envs|
  {
    var e := k.envs[t];
    k.(envs := k.envs[t := e.(status := st)],
       queue := if e.status == Runnable && st == NotRunnable then Without(k.queue, t)
                else if e.status == NotRunnable && st == Runnable then k.queue + [t] else k.queue)
  }

  /** The caller goes to sleep; the rest of `e_ipc_recv` is `schedule(1)`. */
  function Block(k: K, c: nat, dstva: nat): K
    requires c < |k.envs|
  {
    k.(envs := k.envs[c := k.envs[c].(recving := true, dstva := dstva, status := NotRunnable)],
       queue := Without(k.queue, c))
  }

  function Deliver(k: K, c: nat, t: nat, value: nat): K
    requires c < |k.envs| && t < |k.envs|
  {
    k.(envs := k.envs[t := k.envs[t].(value := value, from := k.envs[c].id, recving := false, status := Runnable)],
       queue := k.queue + [t])
  }

  /** `envid2env`: 0 is the caller, otherwise the low bits select; the permission check compares
      the parent. The full id is not compared. */
  function Resolve(k: K, c: nat, envid: nat, check: bool): (r: Option<nat>)
    requires |k.envs| == NENV && c < NENV
    ensures r.Some? ==> r.value < NENV
  {
    if envid == 0 then Some(c)
    else
      var t := envid % NENV;
      if check && t != c && k.envs[t].parent != k.envs[c].id then None else Some(t)
  }

  // ----- the invariant -----

  ghost predicate ListsOk(k: K) {
    && |k.envs| == NENV && NoDup(k.freeList) && NoDup(k.queue)
    && (forall i: nat :: i in k.freeList <==> i < NENV && k.envs[i].status == Free)
    && (forall i: nat :: i in k.queue <==> i < NENV && k.envs[i].status == Runnable)
  }

  ghost predicate RecvOk(k: K) {
    forall i | 0 <= i < |k.envs| && k.envs[i].recving :: k.envs[i].status == NotRunnable
  }

  predicate Live(k: K, i: int) { 0 <= i < |k.envs| && k.envs[i].status != Free }

  ghost predicate AsidsOk(k: K) {
    && |k.asidBits| == NASID
    && (forall i | Live(k, i) :: k.envs[i].asid < NASID && k.asidBits[k.envs[i].asid])
    && (forall i, j | Live(k, i) && Live(k, j) && k.envs[i].asid == k.envs[j].asid :: i == j)
    && (forall a | 0 <= a < NASID && k.asidBits[a] :: exists i :: Live(k, i) && k.envs[i].asid == a)
  }

  ghost predicate Tables(k: K) { ListsOk(k) && RecvOk(k) && AsidsOk(k) }

  /** Between kernel entries: the running environment is runnable and heads the queue. */
  ghost predicate Inv(k: K) {
    && Tables(k)
    && (k.cur.Some? ==> k.cur.value < NENV && k.queue != [] && k.queue[0] == k.cur.value)
  }

  // ----- pieces keep the tables -----

  lemma ReleaseAsids(k: K, i: nat)
    requires AsidsOk(k) && i < |k.envs| && k.envs[i].status == Runnable
    ensures AsidsOk(Release(k, i))
  {
    var k' := Release(k, i);
    assert Live(k, i);
    forall a | 0 <= a < NASID && k'.asidBits[a] ensures exists j :: Live(k', j) && k'.envs[j].asid == a {
      var j :| Live(k, j) && k.envs[j].asid == a;
      assert Live(k', j) && k'.envs[j].asid == a;
    }
    forall j | Live(k', j) ensures k'.envs[j].asid < NASID && k'.asidBits[k'.envs[j].asid] {
      assert Live(k, j);
    }
    forall x, y | Live(k', x) && Live(k', y) && k'.envs[x].asid == k'.envs[y].asid ensures x == y {
      assert Live(k, x) && Live(k, y);
    }
  }

  lemma ReleaseKeeps(k: K, i: nat)
    requires Tables(k) && i < NENV && k.envs[i].status == Runnable
    ensures Tables(Release(k, i))
  {
    WithoutSpec(k.queue, i);
    assert i !in k.freeList;
    ReleaseAsids(k, i);
  }

  lemma BlockKeeps(k: K, c: nat, dstva: nat)
    requires Tables(k) && c < NENV && k.envs[c].status == Runnable
    ensures Tables(Block(k, c, dstva))
  {
    WithoutSpec(k.queue, c);
    SameAsids(k, Block(k, c, dstva));
  }

  /** Status changes among live states leave the ASIDs alone. */
  lemma SameAsids(k: K, k': K)
    requires AsidsOk(k) && |k'.envs| == |k.envs| && k'.asidBits == k.asidBits
    requires forall i | 0 <= i < |k.envs| :: Live(k', i) == Live(k, i) && k'.envs[i].asid == k.envs[i].asid
    ensures AsidsOk(k')
  {
    forall a | 0 <= a < NASID && k'.asidBits[a] ensures exists i :: Live(k', i) && k'.envs[i].asid == a {
      var i :| Live(k, i) && k.envs[i].asid == a;
      assert Live(k', i) && k'.envs[i].asid == a;
    }
    forall i | Live(k', i) ensures k'.envs[i].asid < NASID && k'.asidBits[k'.envs[i].asid] {
      assert Live(k, i);
    }
    forall i, j | Live(k', i) && Live(k', j) && k'.envs[i].asid == k'.envs[j].asid ensures i == j {
      assert Live(k, i) && Live(k, j);
    }
  }

  lemma DeliverKeeps(k: K, c: nat, t: nat, value: nat)
    requires Tables(k) && c < NENV && t < NENV && k.envs[t].recving
    ensures Tables(Deliver(k, c, t, value))
  {
    assert t !in k.queue;
    SameAsids(k, Deliver(k, c, t, value));
  }

  lemma ExoforkKeeps(k: K, parent: nat, pri: nat, vm: bool)
    requires Tables(k)
    ensures Tables(Exofork(k, parent, pri, vm).1)
    ensures Exofork(k, parent, pri, vm).1.queue == k.queue && Exofork(k, parent, pri, vm).1.cur == k.cur
    ensures forall i | 0 <= i < NENV && k.envs[i].status == Runnable ::
              Exofork(k, parent, pri, vm).1.envs[i] == k.envs[i]
  {
    if k.freeList != [] && vm {
      assert k.freeList[0] in k.freeList;
      var k' := Exofork(k, parent, pri, vm).1;
      match FirstClear(k.asidBits)
      case None =>
        SameAsids(k, k');
      case Some(a) =>
        WithoutSpec(k.freeList, k.freeList[0]);
        ExoforkAsids(k, k', k.freeList[0], a);
    }
  }

  lemma ExoforkAsids(k: K, k': K, n: nat, a: nat)
    requires AsidsOk(k) && |k.envs| == NENV && |k'.envs| == NENV && n < NENV && k.envs[n].status == Free
    requires a < NASID && !k.asidBits[a] && k'.asidBits == k.asidBits[a := true]
    requires k'.envs[n].asid == a && k'.envs[n].status != Free
    requires forall i | 0 <= i < NENV && i != n :: k'.envs[i] == k.envs[i]
    ensures AsidsOk(k')
  {
    assert Live(k', n);
    forall b | 0 <= b < NASID && k'.asidBits[b] ensures exists i :: Live(k', i) && k'.envs[i].asid == b {
      if b != a {
        var i :| Live(k, i) && k.envs[i].asid == b;
        assert Live(k', i) && k'.envs[i].asid == b;
      }
    }
    forall i | Live(k', i) ensures k'.envs[i].asid < NASID && k'.asidBits[k'.envs[i].asid] {
      assert i != n ==> Live(k, i);
    }
    forall i, j | Live(k', i) && Live(k', j) && k'.envs[i].asid == k'.envs[j].asid ensures i == j {
      assert (i != n ==> Live(k, i)) && (j != n ==> Live(k, j));
    }
  }

  lemma ScheduleKeeps(k: K, yielding: bool)
    requires Tables(k) && (k.cur.Some? ==> k.cur.value < NENV)
    requires k.cur.Some? && k.envs[k.cur.value].status == Runnable ==> k.queue[0] == k.cur.value
    ensures forall i | 0 <= i < |k.queue| :: k.queue[i] < NENV
    ensures Schedule(k, yielding).None? <==> k.queue == []
    ensures Schedule(k, yielding).Some? ==> Inv(Schedule(k, yielding).value) && Schedule(k, yielding).value.cur.Some?
  {
    assert forall i | 0 <= i < |k.queue| :: k.queue[i] in k.queue;
    if k.cur.Some? && k.envs[k.cur.value].status == Runnable {
      var c := k.cur.value;
      WithoutSpec(k.queue, c);
      assert c in k.queue;
      var q := Without(k.queue, c) + [c];
      assert forall y :: y in q <==> y in k.queue;
      assert NoDup(q);
      assert q != [] && q[0] in q;
    }
    match Schedule(k, yielding)
    case None =>
    case Some(k') => SameAsids(k, k');
  }

  // ----- one kernel entry -----

  const UTEMP: nat := 0x3fe000
  const UTOP: nat := 0x7f400000

  predicate IllegalVa(va: nat) { va < UTEMP || va >= UTOP }

  /** What the running environment does next. `vm` and `mapped` stand for the outcome of the memory
      work: whether an address space could be set up, whether the page to send is mapped. */
  datatype Event =
    | Yield
    | Timer
    | Fork(vm: bool)
    | SetEnvStatus(envid: nat, st: Status)
    | Recv(dstva: nat)
    | Send(envid: nat, value: nat, srcva: nat, mapped: bool)
    | Destroy(envid: nat)

  ghost predicate Running(k: K) { Inv(k) && k.cur.Some? }

  /** What the code relies on without checking it: a destroyed environment is on the run queue; an
      environment whose status is set is live, and neither the caller nor waiting for a message. */
  ghost predicate Enabled(k: K, e: Event)
    requires Running(k)
  {
    var c := k.cur.value;
    match e
    case Destroy(envid) =>
      var t := Resolve(k, c, envid, true);
      t.Some? ==> k.envs[t.value].status == Runnable
    case SetEnvStatus(envid, st) =>
      var t := Resolve(k, c, envid, true);
      t.Some? && st != Free ==> StatusOk(k, t.value, st)
    case _ => true
  }

  /** Exactly when `e_set_env_status` keeps the invariant; see StatusKeepsIff. */
  predicate StatusOk(k: K, t: nat, st: Status)
    requires t < |k.envs|
  {
    && k.envs[t].status != Free
    && !(k.cur == Some(t) && st == NotRunnable)
    && !(k.envs[t].recving && st == Runnable)
  }

  lemma QueueBound(k: K)
    requires ListsOk(k)
    ensures forall i | 0 <= i < |k.queue| :: k.queue[i] < NENV
    ensures forall i | 0 <= i < |k.queue| :: k.envs[k.queue[i]].status == Runnable
  {
    assert forall i | 0 <= i < |k.queue| :: k.queue[i] in k.queue;
  }

  function Do(k: K, e: Event): Option<K>
    requires Running(k) && Enabled(k, e)
  {
    QueueBound(k);
    var c := k.cur.value;
    match e
    case Yield => Schedule(k, true)
    case Timer => Schedule(k, false)
    case Fork(vm) => Some(Exofork(k, k.envs[c].id, k.envs[c].pri, vm).1)
    case SetEnvStatus(envid, st) =>
      var t := Resolve(k, c, envid, true);
      if st == Free || t.None? then Some(k) else Some(SetStatus(k, t.value, st))
    case Recv(dstva) =>
      if dstva != 0 && IllegalVa(dstva) then Some(k)
      else BlockKeeps(k, c, dstva); QueueBound(Block(k, c, dstva)); Schedule(Block(k, c, dstva), true)
    case Send(envid, value, srcva, mapped) =>
      var t := Resolve(k, c, envid, false);
      if (srcva != 0 && IllegalVa(srcva)) || t.None? || !k.envs[t.value].recving then Some(k)
      else Some(Deliver(k, c, t.value, value))
    case Destroy(envid) =>
      var t := Resolve(k, c, envid, true);
      if t.None? then Some(k)
      else
        var k1 := Release(k, t.value);
        if t.value != c then Some(k1)
        else
          ReleaseKeeps(k, c); QueueBound(k1);
          Schedule(k1.(cur := None), true)
  }

  lemma StatusLists(k: K, t: nat, st: Status)
    requires ListsOk(k) && t < NENV && k.envs[t].status != Free && st != Free
    ensures ListsOk(SetStatus(k, t, st))
  {
    WithoutSpec(k.queue, t);
  }

  lemma StatusKeeps(k: K, t: nat, st: Status)
    requires Running(k) && t < NENV && st != Free && StatusOk(k, t, st)
    ensures Inv(SetStatus(k, t, st))
  {
    StatusLists(k, t, st);
    SameAsids(k, SetStatus(k, t, st));
    if k.envs[t].status == Runnable && st == NotRunnable {
      assert SetStatus(k, t, st).queue[0] == k.queue[0];
    }
  }

  lemma StatusBreaks(k: K, t: nat, st: Status)
    requires Running(k) && t < NENV && st != Free && !StatusOk(k, t, st)
    ensures !Inv(SetStatus(k, t, st))
  {
    var k' := SetStatus(k, t, st);
    if k.envs[t].status == Free {
      assert t in k'.freeList;
    } else if k.cur == Some(t) && st == NotRunnable {
      WithoutSpec(k.queue, t);
      assert k.queue[0] in k.queue;
      assert t !in k'.queue;
    }
  }

  /** `e_set_env_status` checks neither for a free target nor for a pending receive. It keeps the
      invariant exactly when StatusOk holds. */
  lemma StatusKeepsIff(k: K, t: nat, st: Status)
    requires Running(k) && t < NENV && st != Free
    ensures Inv(SetStatus(k, t, st)) <==> StatusOk(k, t, st)
  {
    if StatusOk(k, t, st) {
      StatusKeeps(k, t, st);
    } else {
      StatusBreaks(k, t, st);
    }
  }

  lemma DoKeeps(k: K, e: Event)
    requires Running(k) && Enabled(k, e)
    ensures Do(k, e).Some? ==> Running(Do(k, e).value)
  {
    QueueBound(k);
    var c := k.cur.value;
    assert k.queue[0] in k.queue;
    match e
    case Yield => ScheduleKeeps(k, true);
    case Timer => ScheduleKeeps(k, false);
    case Fork(vm) => ExoforkKeeps(k, k.envs[c].id, k.envs[c].pri, vm);
    case SetEnvStatus(envid, st) =>
      var t := Resolve(k, c, envid, true);
      if st != Free && t.Some? {
        StatusKeepsIff(k, t.value, st);
      }
    case Recv(dstva) =>
      BlockKeeps(k, c, dstva);
      ScheduleKeeps(Block(k, c, dstva), true);
    case Send(envid, value, srcva, mapped) =>
      var t := Resolve(k, c, envid, false);
      if t.Some? && k.envs[t.value].recving {
        DeliverKeeps(k, c, t.value, value);
      }
    case Destroy(envid) => DestroyKeeps(k, e);
  }

  lemma DestroyKeeps(k: K, e: Event)
    requires Running(k) && Enabled(k, e) && e.Destroy?
    ensures Do(k, e).Some? ==> Running(Do(k, e).value)
  {
    var c := k.cur.value;
    var t := Resolve(k, c, e.envid, true);
    if t.Some? {
      ReleaseKeeps(k, t.value);
      WithoutSpec(k.queue, t.value);
      var k1 := Release(k, t.value);
      if t.value != c {
        assert k1.queue[0] == k.queue[0];
      } else {
        SameAsids(k1, k1.(cur := None));
        ScheduleKeeps(k1.(cur := None), true);
      }
    }
  }

  // ----- runs -----

  ghost predicate ValidRun(k: K, es: seq<Event>)
    requires Running(k)
    decreases |es|
  {
    es != [] ==>
      && Enabled(k, es[0]) && Do(k, es[0]).Some?
      && (DoKeeps(k, es[0]); ValidRun(Do(k, es[0]).value, es[1..]))
  }

  ghost function Run(k: K, es: seq<Event>): K
    requires Running(k) && ValidRun(k, es)
    decreases |es|
  {
    if es == [] then k else DoKeeps(k, es[0]); Run(Do(k, es[0]).value, es[1..])
  }

  /** The environment invariant, over every run. */
  lemma {:induction false} RunKeeps(k: K, es: seq<Event>)
    requires Running(k) && ValidRun(k, es)
    ensures Running(Run(k, es))
    decreases |es|
  {
    if es != [] {
      DoKeeps(k, es[0]);
      RunKeeps(Do(k, es[0]).value, es[1..]);
    }
  }

  /** After `env_init`: every environment free, in order. */
  function Boot(): K {
    K(seq(NENV, i => Env(Free, 0, 0, 0, 0, false, 0, 0, 0)), seq(NENV, i requires 0 <= i => i), [], None,
      seq(NASID, i => false), 0, 0)
  }

  lemma BootOk()
    ensures Inv(Boot())
  {
    var k := Boot();
    forall i: nat ensures i in k.freeList <==> i < NENV && k.envs[i].status == Free {
      if i < NENV {
        assert k.freeList[i] == i;
      }
    }
  }

  lemma CreateKeeps(k: K, pri: nat, vm: bool)
    requires Tables(k) && k.cur == None
    ensures Tables(Create(k, pri, vm).1) && Create(k, pri, vm).1.cur == None
  {
    ExoforkKeeps(k, 0, pri, vm);
    var (r, k1) := Exofork(k, 0, pri, vm);
    if r == Ok {
      assert k.freeList[0] in k.freeList;
      assert k1.envs[k.freeList[0]].status == NotRunnable && !k.envs[k.freeList[0]].recving;
      WakeFirst(k1, k.freeList[0]);
    }
  }

  /** `env_create` on success: a free environment is runnable, at the head of the run queue, with the priority
      asked for and an address space id of its own; no other environment changes. */
  lemma CreateCall(k: K, pri: nat, vm: bool)
    requires Tables(k) && k.cur == None
    ensures Create(k, pri, vm).0 == Ok <==> Exofork(k, 0, pri, vm).0 == Ok
    ensures Create(k, pri, vm).0 == Ok ==>
              var k', i := Create(k, pri, vm).1, k.freeList[0];
              && i < NENV && |k'.envs| == NENV && k.envs[i].status == Free && k'.envs[i].status == Runnable
              && k'.envs[i].pri == pri && k'.envs[i].parent == 0 && k'.queue == [i] + k.queue
              && (forall j | 0 <= j < NENV && j != i :: k'.envs[j] == k.envs[j])
              && (forall j | Live(k, j) :: k.envs[j].asid != k'.envs[i].asid)
  {
    if k.freeList != [] { assert k.freeList[0] in k.freeList; }
  }

  lemma WakeFirst(k: K, i: nat)
    requires Tables(k) && i < NENV && k.envs[i].status == NotRunnable && !k.envs[i].recving
    ensures Tables(k.(envs := k.envs[i := k.envs[i].(status := Runnable)], queue := [i] + k.queue))
  {
    var k' := k.(envs := k.envs[i := k.envs[i].(status := Runnable)], queue := [i] + k.queue);
    SameAsids(k, k');
    assert i !in k.queue;
  }

  // ----- what the calls do -----

  /** `e_ipc_try_send` and `e_ipc_recv` on one mailbox: the value and the sender in it change only by
      a send, and only while its owner is receiving; then they are those of that send, the owner stops
      receiving, and it waits at the end of the run queue. */
  lemma MailboxChanges(k: K, e: Event, x: nat)
    requires Running(k) && Enabled(k, e) && Do(k, e).Some? && x < NENV
    ensures |Do(k, e).value.envs| == NENV
    ensures var y, y' := k.envs[x], Do(k, e).value.envs[x];
            (y'.value != y.value || y'.from != y.from || (y.recving && !y'.recving)) ==>
              && e.Send? && y.recving && Resolve(k, k.cur.value, e.envid, false) == Some(x)
              && y'.value == e.value && y'.from == k.envs[k.cur.value].id && !y'.recving && y'.status == Runnable
              && Do(k, e).value.queue == k.queue + [x]
  {
    EnvsAfter(k, e);
  }

  /** The environment table after an event, by what the event is; `schedule` does not touch it. */
  ghost function TableAfter(k: K, e: Event): seq<Env>
    requires Running(k) && Enabled(k, e)
  {
    var c := k.cur.value;
    match e
    case Yield => k.envs
    case Timer => k.envs
    case Fork(vm) => Exofork(k, k.envs[c].id, k.envs[c].pri, vm).1.envs
    case SetEnvStatus(envid, st) =>
      var t := Resolve(k, c, envid, true);
      if st == Free || t.None? then k.envs else SetStatus(k, t.value, st).envs
    case Recv(dstva) => if dstva != 0 && IllegalVa(dstva) then k.envs else Block(k, c, dstva).envs
    case Send(envid, value, srcva, mapped) =>
      var t := Resolve(k, c, envid, false);
      if (srcva != 0 && IllegalVa(srcva)) || t.None? || !k.envs[t.value].recving then k.envs
      else Deliver(k, c, t.value, value).envs
    case Destroy(envid) =>
      var t := Resolve(k, c, envid, true);
      if t.None? then k.envs else Release(k, t.value).envs
  }

  lemma EnvsAfter(k: K, e: Event)
    requires Running(k) && Enabled(k, e) && Do(k, e).Some?
    ensures Do(k, e).value.envs == TableAfter(k, e) && |TableAfter(k, e)| == NENV
  {
  }

  /** A message that has been delivered stays until its owner receives again, over every run. */
  lemma {:induction false} MessageStays(k: K, es: seq<Event>, x: nat)
    requires Running(k) && ValidRun(k, es) && x < NENV && !k.envs[x].recving && NeverReceives(k, es, x)
    ensures |Run(k, es).envs| == NENV && !Run(k, es).envs[x].recving
    ensures Run(k, es).envs[x].value == k.envs[x].value && Run(k, es).envs[x].from == k.envs[x].from
    decreases |es|
  {
    if es != [] {
      DoKeeps(k, es[0]);
      MailboxChanges(k, es[0], x);
      ReceivingStarts(k, es[0], x);
      MessageStays(Do(k, es[0]).value, es[1..], x);
    }
  }

  ghost predicate NeverReceives(k: K, es: seq<Event>, x: nat)
    requires Running(k) && ValidRun(k, es)
    decreases |es|
  {
    es != [] ==>
      && !(k.cur == Some(x) && es[0].Recv?)
      && (DoKeeps(k, es[0]); NeverReceives(Do(k, es[0]).value, es[1..], x))
  }

  /** Only its own call makes an environment a receiver. */
  lemma ReceivingStarts(k: K, e: Event, x: nat)
    requires Running(k) && Enabled(k, e) && Do(k, e).Some? && x < NENV
    ensures |Do(k, e).value.envs| == NENV
    ensures !k.envs[x].recving && Do(k, e).value.envs[x].recving ==> e.Recv? && k.cur == Some(x)
  {
    EnvsAfter(k, e);
  }

  /** `e_exofork` on success: a free environment becomes live, not runnable, with the caller as parent,
      its priority, an address space id no live environment has, and an id that leads back to it;
      no other environment changes. */
  lemma ForkMakesChild(k: K, vm: bool)
    requires Running(k) && Exofork(k, k.envs[k.cur.value].id, k.envs[k.cur.value].pri, vm).0 == Ok
    ensures var k', i := Do(k, Fork(vm)).value, k.freeList[0];
            && i < NENV && |k'.envs| == NENV && k.envs[i].status == Free && k'.envs[i].status == NotRunnable
            && k'.envs[i].parent == k.envs[k.cur.value].id && k'.envs[i].pri == k.envs[k.cur.value].pri
            && k'.envs[i].id % NENV == i
            && (forall j | 0 <= j < NENV && j != i :: k'.envs[j] == k.envs[j])
            && (forall j | Live(k, j) :: k.envs[j].asid != k'.envs[i].asid)
  {
    assert k.freeList[0] in k.freeList;
    IdHoldsIndex(k.ids, k.freeList[0]);
  }

  lemma IdHoldsIndex(ids: nat, i: nat)
    requires i < NENV
    ensures MakeId(ids, i) % NENV == i
  {
    var x := (ids + 1) * 2048 + i;
    LowBits(x);
    WholeTimes((ids + 1) * 2, i);
    assert x == NENV * ((ids + 1) * 2) + i;
  }

  lemma LowBits(x: nat)
    ensures x % 0x1_0000_0000 % NENV == x % NENV
  {
    var q, r := x / 0x1_0000_0000, x % 0x1_0000_0000;
    assert x == NENV * (0x40_0000 * q + r / NENV) + r % NENV;
    WholeTimes(0x40_0000 * q + r / NENV, r % NENV);
  }

  lemma WholeTimes(n: int, i: nat)
    requires i < NENV
    ensures (NENV * n + i) % NENV == i
  {
  }

  // ----- whom a call reaches, and what it answers -----

  /** The environment that a call names: the caller, or the one at the index in the low bits. */
  function Named(c: nat, envid: nat): nat { if envid == 0 then c else envid % NENV }

  /** The caller's own environment, and its children's. */
  predicate Own(k: K, c: nat, t: nat)
    requires c < |k.envs| && t < |k.envs|
  {
    t == c || k.envs[t].parent == k.envs[c].id
  }

  /** `envid2env` finds the environment that is named, and with the permission check only if it is the caller's
      own. */
  lemma ResolveIff(k: K, c: nat, envid: nat, check: bool)
    requires |k.envs| == NENV && c < NENV
    ensures Resolve(k, c, envid, check) ==
            if check && !Own(k, c, Named(c, envid)) then None else Some(Named(c, envid))
  {
  }

  /** `e_set_env_status`: the environment named has the status asked for afterwards if it is the caller's own,
      and is at the end of the run queue if that starts it. Nothing else changes, nor anything otherwise. */
  lemma StatusCall(k: K, envid: nat, st: Status)
    requires Running(k) && Enabled(k, SetEnvStatus(envid, st))
    ensures var k', t := Do(k, SetEnvStatus(envid, st)), Named(k.cur.value, envid);
            if st == Free || !Own(k, k.cur.value, t) then k' == Some(k)
            else
              && k'.Some? && k'.value.envs == k.envs[t := k.envs[t].(status := st)]
              && (st == Runnable ==> k'.value.queue == if t in k.queue then k.queue else k.queue + [t])
              && (st == NotRunnable ==> t !in k'.value.queue)
              && (forall x | x != t :: x in k'.value.queue <==> x in k.queue)
              && k'.value == k.(envs := k'.value.envs, queue := k'.value.queue)
  {
    ResolveIff(k, k.cur.value, envid, true);
    WithoutSpec(k.queue, Named(k.cur.value, envid));
  }

  /** Nobody but an environment itself and its parent starts, stops or destroys it. */
  lemma OnlyOwnStatus(k: K, e: Event, x: nat)
    requires Running(k) && Enabled(k, e) && Do(k, e).Some? && (e.SetEnvStatus? || e.Destroy?) && x < NENV
    ensures |Do(k, e).value.envs| == NENV
    ensures Do(k, e).value.envs[x] != k.envs[x] ==> x == Named(k.cur.value, e.envid) && Own(k, k.cur.value, x)
    ensures (x in Do(k, e).value.queue) != (x in k.queue) ==>
              x == Named(k.cur.value, e.envid) && Own(k, k.cur.value, x)
  {
    EnvsAfter(k, e);
    ResolveIff(k, k.cur.value, e.envid, true);
    if e.SetEnvStatus? {
      StatusCall(k, e.envid, e.st);
    } else if Own(k, k.cur.value, Named(k.cur.value, e.envid)) {
      DestroyQueue(k, e, Named(k.cur.value, e.envid));
      WithoutSpec(k.queue, Named(k.cur.value, e.envid));
    }
  }

  /** `e_env_destroy` of an environment of the caller's own: it is free, first in line for the next one, off the
      run queue, and its address space id is free; no other environment changes. The caller keeps the
      processor, unless it was itself; then the next in line has it. */
  lemma DestroyCall(k: K, envid: nat)
    requires Running(k) && Enabled(k, Destroy(envid)) && Own(k, k.cur.value, Named(k.cur.value, envid))
    requires Do(k, Destroy(envid)).Some?
    ensures var k', t := Do(k, Destroy(envid)).value, Named(k.cur.value, envid);
            && k'.envs == k.envs[t := k.envs[t].(status := Free)] && k'.freeList == [t] + k.freeList
            && t !in k'.queue && (forall x | x != t :: x in k'.queue <==> x in k.queue)
            && k.envs[t].asid < |k.asidBits| && k'.asidBits == k.asidBits[k.envs[t].asid := false]
            && (t != k.cur.value ==> k'.cur == k.cur)
            && (t == k.cur.value ==> k'.queue == k.queue[1..] && k'.queue != [] && k'.cur == Some(k'.queue[0]))
  {
    var t := Named(k.cur.value, envid);
    ResolveIff(k, k.cur.value, envid, true);
    DestroyQueue(k, Destroy(envid), t);
    WithoutSpec(k.queue, t);
    assert Live(k, t);
    if t == k.cur.value {
      ReleaseKeeps(k, t);
      QueueBound(Release(k, t));
    }
  }

  /** `e_ipc_try_send`: a receiver has the value, the sender and an end to its waiting, at the end of the run
      queue; if the environment named does not receive, or the address is illegal, nothing happens. Whether the
      page is there does not matter to that. */
  lemma SendCall(k: K, envid: nat, value: nat, srcva: nat, mapped: bool)
    requires Running(k)
    ensures var k', t := Do(k, Send(envid, value, srcva, mapped)), Named(k.cur.value, envid);
            if (srcva != 0 && IllegalVa(srcva)) || !k.envs[t].recving then k' == Some(k)
            else
              && t !in k.queue
              && k' == Some(k.(envs := k.envs[t := k.envs[t].(value := value, from := k.envs[k.cur.value].id,
                                                              recving := false, status := Runnable)],
                               queue := k.queue + [t]))
  {
    ResolveIff(k, k.cur.value, envid, false);
  }

  /** `e_ipc_recv` with a legal address: the caller waits, off the run queue, and the next in line has the
      processor; there is none exactly if the caller was the only one. */
  lemma RecvCall(k: K, dstva: nat)
    requires Running(k)
    ensures var k', c := Do(k, Recv(dstva)), k.cur.value;
            if dstva != 0 && IllegalVa(dstva) then k' == Some(k)
            else
              && (k'.None? <==> |k.queue| == 1)
              && (k'.Some? ==>
                    && k'.value.envs == k.envs[c := k.envs[c].(recving := true, dstva := dstva, status := NotRunnable)]
                    && k'.value.queue == k.queue[1..] && k'.value.cur == Some(k.queue[1]))
  {
    QueueBound(k);
    BlockKeeps(k, k.cur.value, dstva);
    QueueBound(Block(k, k.cur.value, dstva));
    assert Without(k.queue, k.cur.value) == k.queue[1..];
  }

  /** `e_exofork` succeeds if and only if there is memory, a free environment and a free address space id. */
  lemma ForkSucceedsIff(k: K, parent: nat, pri: nat, vm: bool)
    requires Tables(k)
    ensures Exofork(k, parent, pri, vm).0 == Ok <==>
            vm && (exists i :: 0 <= i < NENV && k.envs[i].status == Free)
            && exists a :: 0 <= a < NASID && !k.asidBits[a]
  {
    if k.freeList != [] { assert k.freeList[0] in k.freeList; }
    if i: nat :| i < NENV && k.envs[i].status == Free { assert i in k.freeList; }
  }

  /** The two calls that end `fork`: the parent starts the child it has made, which is then at the end of the run
      queue. It fails only when the child's id is 0, which names the caller: once in 2^21 environments. */
  lemma ForkThenStart(k: K, vm: bool)
    requires Running(k) && Exofork(k, k.envs[k.cur.value].id, k.envs[k.cur.value].pri, vm).0 == Ok
    ensures var k1, i := Do(k, Fork(vm)).value, k.freeList[0];
            && i < NENV && Running(k1) && |k1.envs| == NENV && k1.cur == k.cur
            && (k1.envs[i].id == 0 <==> i == 0 && (k.ids + 1) % 0x20_0000 == 0)
            && var e := SetEnvStatus(k1.envs[i].id, Runnable);
               && Enabled(k1, e) && Do(k1, e).Some?
               && (if k1.envs[i].id == 0 then Do(k1, e) == Some(k1)
                   else
                     && Do(k1, e).value.queue == k.queue + [i]
                     && Do(k1, e).value.envs == k1.envs[i := k1.envs[i].(status := Runnable)])
  {
    var k1, i := Do(k, Fork(vm)).value, k.freeList[0];
    assert i in k.freeList;
    ForkMakesChild(k, vm);
    DoKeeps(k, Fork(vm));
    ExoforkKeeps(k, k.envs[k.cur.value].id, k.envs[k.cur.value].pri, vm);
    IdIsZero(k.ids, i);
    var id := k1.envs[i].id;
    ResolveIff(k1, k1.cur.value, id, true);
    QueueBound(k);
    assert i !in k.queue && k.cur.value in k.queue;
    assert k1.envs[k.cur.value] == k.envs[k.cur.value];
    StatusCall(k1, id, Runnable);
    if id == 0 {
      var c := k.cur.value;
      assert k1.envs[c].(status := Runnable) == k1.envs[c] && k1.envs[c := k1.envs[c]] == k1.envs;
    }
  }

  lemma IdIsZero(ids: nat, i: nat)
    requires i < NENV
    ensures MakeId(ids, i) == 0 <==> i == 0 && (ids + 1) % 0x20_0000 == 0
  {
    var q, r := (ids + 1) / 0x20_0000, (ids + 1) % 0x20_0000;
    assert ids + 1 == 0x20_0000 * q + r;
    assert (ids + 1) * 2048 + i == 0x1_0000_0000 * q + (r * 2048 + i);
    WrapsTo(q, r * 2048 + i);
  }

  lemma WrapsTo(q: nat, x: nat)
    requires x < 0x1_0000_0000
    ensures (0x1_0000_0000 * q + x) % 0x1_0000_0000 == x
  {
  }

  // ----- fairness -----

  /** Calls of `schedule` that follow from the event. */
  ghost predicate Schedules(k: K, e: Event)
    requires Running(k)
  {
    match e
    case Yield => true
    case Timer => true
    case Recv(dstva) => !(dstva != 0 && IllegalVa(dstva))
    case Destroy(envid) => Resolve(k, k.cur.value, envid, true) == Some(k.cur.value)
    case _ => false
  }

  /** What ENV_CREATE sets up, and `fork` hands on. */
  ghost predicate LowPriority(k: K) {
    k.count <= 1 && forall i | 0 <= i < |k.envs| :: k.envs[i].pri <= 1
  }

  lemma ScheduleLow(k: K, yielding: bool)
    requires forall i | 0 <= i < |k.envs| :: k.envs[i].pri <= 1
    requires k.cur.Some? ==> k.cur.value < |k.envs|
    requires forall i | 0 <= i < |k.queue| :: k.queue[i] < |k.envs|
    ensures Schedule(k, yielding).Some? ==> LowPriority(Schedule(k, yielding).value)
  {
  }

  lemma StaysLow(k: K, e: Event)
    requires Running(k) && Enabled(k, e) && LowPriority(k) && Do(k, e).Some?
    ensures LowPriority(Do(k, e).value)
  {
    QueueBound(k);
    var c := k.cur.value;
    match e
    case Yield => ScheduleLow(k, true);
    case Timer => ScheduleLow(k, false);
    case Recv(dstva) =>
      BlockKeeps(k, c, dstva);
      QueueBound(Block(k, c, dstva));
      ScheduleLow(Block(k, c, dstva), true);
    case Destroy(envid) =>
      if Resolve(k, c, envid, true) == Some(c) {
        ReleaseKeeps(k, c);
        QueueBound(Release(k, c));
        ScheduleLow(Release(k, c).(cur := None), true);
      }
    case _ =>
  }

  lemma FrontFirst(q: seq<nat>, x: nat)
    requires q != [] && x in q && x != q[0] && NoDup(q)
    ensures Index(q, x) > 0 && x in Without(q, q[0]) && Index(Without(q, q[0]), x) == Index(q, x) - 1
  {
  }

  /** Each call of `schedule` brings a waiting environment one place forward; nothing else sends it
      back: others are woken and created behind it, and leave from anywhere. */
  lemma Progress(k: K, e: Event, x: nat)
    requires Running(k) && Enabled(k, e) && LowPriority(k) && Do(k, e).Some?
    requires x in k.queue && x != k.cur.value && x in Do(k, e).value.queue
    ensures Index(k.queue, x) > 0
    ensures Index(Do(k, e).value.queue, x) <= Index(k.queue, x) - (if Schedules(k, e) then 1 else 0)
  {
    FrontFirst(k.queue, x);
    if e.Destroy? {
      DestroyProgress(k, e, x);
    } else if e.Fork? || e.SetEnvStatus? || e.Send? {
      CallProgress(k, e, x);
    } else {
      RotateProgress(k, e, x);
    }
  }

  lemma RotateProgress(k: K, e: Event, x: nat)
    requires Running(k) && Enabled(k, e) && LowPriority(k) && Do(k, e).Some? && (e.Yield? || e.Timer? || e.Recv?)
    requires x in k.queue && x != k.cur.value && x in Do(k, e).value.queue
    ensures Index(Do(k, e).value.queue, x) <= Index(k.queue, x) - (if Schedules(k, e) then 1 else 0)
  {
    QueueBound(k);
    var c := k.cur.value;
    FrontFirst(k.queue, x);
    if e.Recv? {
      BlockKeeps(k, c, e.dstva);
      QueueBound(Block(k, c, e.dstva));
    } else {
      IndexAppend(Without(k.queue, c), c, x);
    }
  }

  lemma CallProgress(k: K, e: Event, x: nat)
    requires Running(k) && Enabled(k, e) && (e.Fork? || e.SetEnvStatus? || e.Send?)
    requires x in k.queue && x in Do(k, e).value.queue
    ensures Index(Do(k, e).value.queue, x) <= Index(k.queue, x)
  {
    var c := k.cur.value;
    match e
    case Fork(vm) => ExoforkKeeps(k, k.envs[c].id, k.envs[c].pri, vm);
    case SetEnvStatus(envid, st) =>
      var t := Resolve(k, c, envid, true);
      if st != Free && t.Some? {
        IndexAppend(k.queue, t.value, x);
        if t.value != x {
          WithoutIndex(k.queue, t.value, x);
        } else {
          WithoutSpec(k.queue, x);
        }
      }
    case Send(envid, value, srcva, mapped) =>
      var t := Resolve(k, c, envid, false);
      if t.Some? {
        IndexAppend(k.queue, t.value, x);
      }
  }

  lemma DestroyQueue(k: K, e: Event, t: nat)
    requires Running(k) && Enabled(k, e) && e.Destroy? && Do(k, e).Some?
    requires Resolve(k, k.cur.value, e.envid, true) == Some(t)
    ensures Do(k, e).value.queue == Without(k.queue, t)
  {
    if t == k.cur.value {
      ReleaseKeeps(k, t);
      QueueBound(Release(k, t));
    }
  }

  lemma DestroyProgress(k: K, e: Event, x: nat)
    requires Running(k) && Enabled(k, e) && e.Destroy? && Do(k, e).Some?
    requires x in k.queue && x != k.cur.value && x in Do(k, e).value.queue
    ensures Index(Do(k, e).value.queue, x) <= Index(k.queue, x) - (if Schedules(k, e) then 1 else 0)
  {
    var t := Resolve(k, k.cur.value, e.envid, true);
    if t.Some? {
      DestroyQueue(k, e, t.value);
      WithoutSpec(k.queue, t.value);
      WithoutIndex(k.queue, t.value, x);
    }
  }

  ghost function ScheduleCalls(k: K, es: seq<Event>): nat
    requires Running(k) && ValidRun(k, es)
    decreases |es|
  {
    if es == [] then 0
    else DoKeeps(k, es[0]); (if Schedules(k, es[0]) then 1 else 0) + ScheduleCalls(Do(k, es[0]).value, es[1..])
  }

  ghost predicate StaysRunnable(k: K, es: seq<Event>, x: nat)
    requires Running(k) && ValidRun(k, es)
    decreases |es|
  {
    x in k.queue && (es == [] || (DoKeeps(k, es[0]); StaysRunnable(Do(k, es[0]).value, es[1..], x)))
  }

  ghost predicate GetsToRun(k: K, es: seq<Event>, x: nat)
    requires Running(k) && ValidRun(k, es)
    decreases |es|
  {
    k.cur == Some(x) || (es != [] && (DoKeeps(k, es[0]); GetsToRun(Do(k, es[0]).value, es[1..], x)))
  }

  /** Bounded waiting: with priorities of at most 1, an environment at place n of the run queue
      that stays runnable has the processor after at most n calls of `schedule`, whatever the
      environments that run in between do. */
  lemma {:induction false} BoundedWaiting(k: K, es: seq<Event>, x: nat)
    requires Running(k) && LowPriority(k) && ValidRun(k, es) && StaysRunnable(k, es, x)
    requires ScheduleCalls(k, es) >= Index(k.queue, x)
    ensures GetsToRun(k, es, x)
    decreases |es|
  {
    if k.cur != Some(x) {
      FrontFirst(k.queue, x);
      var e, k' := es[0], Do(k, es[0]).value;
      DoKeeps(k, e);
      StaysLow(k, e);
      Progress(k, e, x);
      BoundedWaiting(k', es[1..], x);
    }
  }

  /** The bound on priorities is needed: `count` is reloaded at every call, so the timer passes the
      processor on exactly when the running environment's priority is at most 1. */
  lemma TimerPassesOnIff(k: K)
    requires Running(k) && |k.queue| > 1 && k.count == k.envs[k.cur.value].pri && Do(k, Timer).Some?
    ensures Do(k, Timer).value.cur != k.cur <==> k.envs[k.cur.value].pri <= 1
    ensures k.envs[k.cur.value].pri > 1 ==> Do(k, Timer).value == k
  {
    QueueBound(k);
    WithoutSpec(k.queue, k.queue[0]);
    assert k.queue[0] in k.queue;
  }

  // ----- the kernel's code, step by step -----

  /** The globals of kern/env.c and kern/sched.c. */
  class Kernel {
    var envs: seq<Env>
    var freeList: seq<nat>
    var queue: seq<nat>
    var cur: Option<nat>
    var asidBits: seq<bool>
    var ids: nat
    var count: int

    function State(): K
      reads this
    {
      K(envs, freeList, queue, cur, asidBits, ids, count)
    }

    /** Scans the bitmap for the lowest free address space id. */
    method AsidAlloc() returns (r: Option<nat>)
      modifies this`asidBits
      ensures r == FirstClear(old(asidBits))
      ensures asidBits == if r.Some? then old(asidBits)[r.value := true] else old(asidBits)
    {
      var i := 0;
      while i < |asidBits|
        invariant i <= |asidBits| && asidBits == old(asidBits)
        invariant forall j | 0 <= j < i :: asidBits[j]
      {
        if !asidBits[i] {
          asidBits := asidBits[i := true];
          return Some(i);
        }
        i := i + 1;
      }
      return None;
    }

    /** TAILQ_REMOVE on the run queue. */
    method Unlink(x: nat)
      modifies this`queue
      ensures queue == Without(old(queue), x)
    {
      var i := 0;
      while i < |queue| && queue[i] != x
        invariant i <= |queue| && queue == old(queue)
        invariant x !in queue[..i]
      {
        i := i + 1;
      }
      SplitWithout(queue, x, i);
      if i < |queue| {
        queue := queue[..i] + queue[i + 1..];
      }
    }

    /** `schedule`, up to the return to user mode; false is the panic. */
    method RunNext(yielding: bool) returns (ok: bool)
      requires Tables(State()) && (cur.Some? ==> cur.value < NENV)
      requires cur.Some? && envs[cur.value].status == Runnable ==> queue[0] == cur.value
      modifies this`queue, this`cur, this`count
      ensures forall i | 0 <= i < |old(queue)| :: old(queue)[i] < NENV
      ensures ok == Schedule(old(State()), yielding).Some?
      ensures ok ==> Schedule(old(State()), yielding) == Some(State()) && Running(State())
    {
      ghost var k := State();
      ScheduleKeeps(k, yielding);
      var e := cur;
      count := count - 1;
      if e.None? || envs[e.value].status != Runnable {
        e := if queue == [] then None else Some(queue[0]);
      } else if yielding || count <= 0 {
        Unlink(e.value);
        queue := queue + [e.value];
        e := Some(queue[0]);
        assert queue[0] in queue;
        WithoutSpec(k.queue, k.cur.value);
      }
      if e.None? {
        return false;
      }
      count := envs[e.value].pri;
      cur := e;
      return true;
    }

    /** `env_alloc`, with the assignments its caller `e_exofork` makes. */
    method AllocEnv(parent: nat, pri: nat, vm: bool) returns (r: Code)
      requires freeList != [] ==> freeList[0] < |envs|
      modifies this
      ensures (r, State()) == Exofork(old(State()), parent, pri, vm)
    {
      if freeList == [] {
        return NoFreeEnv;
      }
      if !vm {
        return NoMem;
      }
      var i := freeList[0];
      envs := envs[i := envs[i].(id := MakeId(ids, i))];
      ids := ids + 1;
      var a := AsidAlloc();
      if a.None? {
        return NoFreeEnv;
      }
      freeList := freeList[1..];
      envs := envs[i := envs[i].(asid := a.value, parent := parent, pri := pri, status := NotRunnable)];
      return Ok;
    }

    method ForkEnv(vm: bool) returns (r: Code)
      requires Running(State())
      modifies this
      ensures Running(State()) && Do(old(State()), Fork(vm)) == Some(State())
      ensures r == Exofork(old(State()), old(envs[cur.value].id), old(envs[cur.value].pri), vm).0
    {
      DoKeeps(State(), Fork(vm));
      assert freeList != [] ==> freeList[0] in freeList;
      r := AllocEnv(envs[cur.value].id, envs[cur.value].pri, vm);
    }

    method SetStatusOf(envid: nat, st: Status) returns (r: Code)
      requires Running(State()) && Enabled(State(), SetEnvStatus(envid, st))
      modifies this
      ensures Running(State()) && Do(old(State()), SetEnvStatus(envid, st)) == Some(State())
      ensures r == if st == Free then Inval
                   else if Own(old(State()), old(cur.value), Named(old(cur.value), envid)) then Ok else BadEnv
    {
      ghost var k := State();
      ResolveIff(k, cur.value, envid, true);
      DoKeeps(k, SetEnvStatus(envid, st));
      if st == Free {
        return Inval;
      }
      var t := Resolve(State(), cur.value, envid, true);
      if t.None? {
        return BadEnv;
      }
      if envs[t.value].status == Runnable && st == NotRunnable {
        Unlink(t.value);
      } else if envs[t.value].status == NotRunnable && st == Runnable {
        queue := queue + [t.value];
      }
      envs := envs[t.value := envs[t.value].(status := st)];
      return Ok;
    }

    /** `env_free` up to its page tables. */
    method ReleaseEnv(i: nat)
      requires i < |envs|
      modifies this
      ensures State() == Release(old(State()), i)
    {
      if envs[i].asid < |asidBits| { asidBits := asidBits[envs[i].asid := false]; }
      envs := envs[i := envs[i].(status := Free)];
      freeList := [i] + freeList;
      Unlink(i);
    }

    /** `e_env_destroy`; `ok` is false for the panic of `schedule` when nobody is left. */
    method DestroyEnv(envid: nat) returns (r: Code, ok: bool)
      requires Running(State()) && Enabled(State(), Destroy(envid))
      modifies this
      ensures ok == Do(old(State()), Destroy(envid)).Some?
      ensures ok ==> Running(State()) && Do(old(State()), Destroy(envid)) == Some(State())
      ensures r == if Own(old(State()), old(cur.value), Named(old(cur.value), envid)) then Ok else BadEnv
    {
      ghost var k := State();
      ResolveIff(k, cur.value, envid, true);
      DoKeeps(k, Destroy(envid));
      var t := Resolve(State(), cur.value, envid, true);
      if t.None? {
        return BadEnv, true;
      }
      ReleaseKeeps(k, t.value);
      ReleaseEnv(t.value);
      if cur == t {
        cur := None;
        SameAsids(Release(k, t.value), State());
        ok := RunNext(true);
        return Ok, ok;
      }
      return Ok, true;
    }

    method BlockSelf(c: nat, dstva: nat)
      requires c < |envs|
      modifies this`envs, this`queue
      ensures State() == Block(old(State()), c, dstva)
    {
      envs := envs[c := envs[c].(recving := true, dstva := dstva, status := NotRunnable)];
      Unlink(c);
    }

    method Receive(dstva: nat) returns (ok: bool)
      requires Running(State())
      modifies this
      ensures ok == Do(old(State()), Recv(dstva)).Some?
      ensures ok ==> Running(State()) && Do(old(State()), Recv(dstva)) == Some(State())
    {
      if dstva != 0 && IllegalVa(dstva) {
        return true;
      }
      ghost var k := State();
      BlockReady(k, dstva);
      BlockSelf(cur.value, dstva);
      ok := RunNext(true);
    }

    method TrySend(envid: nat, value: nat, srcva: nat, mapped: bool) returns (r: Code)
      requires Running(State())
      modifies this
      ensures Running(State()) && Do(old(State()), Send(envid, value, srcva, mapped)) == Some(State())
      ensures var waits := old(envs)[Named(old(cur.value), envid)].recving;
              && (r == NotRecv <==> !(srcva != 0 && IllegalVa(srcva)) && !waits)
              && (r == Inval <==> srcva != 0 && (IllegalVa(srcva) || (waits && !mapped)))
              && (r == Ok <==> waits && (srcva == 0 || (!IllegalVa(srcva) && mapped)))
              && (r == NotRecv ==> State() == old(State()))
    {
      ResolveIff(State(), cur.value, envid, false);
      DoKeeps(State(), Send(envid, value, srcva, mapped));
      if srcva != 0 && IllegalVa(srcva) {
        return Inval;
      }
      var t := Resolve(State(), cur.value, envid, false);
      if t.None? {
        return BadEnv;
      }
      var e := envs[t.value];
      if !e.recving {
        return NotRecv;
      }
      e := e.(value := value, from := envs[cur.value].id, recving := false, status := Runnable);
      envs := envs[t.value := e];
      queue := queue + [t.value];
      return if srcva != 0 && !mapped then Inval else Ok;
    }
  }

  lemma BlockReady(k: K, dstva: nat)
    requires Running(k)
    ensures var k1 := Block(k, k.cur.value, dstva);
            Tables(k1) && k1.cur == k.cur && k.cur.value < NENV && k1.envs[k.cur.value].status == NotRunnable
  {
    QueueBound(k);
    BlockKeeps(k, k.cur.value, dstva);
  }

  lemma SplitWithout(q: seq<nat>, x: nat, i: nat)
    requires i <= |q| && x !in q[..i] && (i < |q| ==> q[i] == x)
    ensures Without(q, x) == if i < |q| then q[..i] + q[i + 1..] else q
    decreases |q|
  {
    if i > 0 {
      var r := q[1..];
      assert q[..i][0] == q[0];
      assert r[..i - 1] == q[..i][1..];
      SplitWithout(r, x, i - 1);
      assert Without(q, x) == [q[0]] + Without(r, x);
      if i < |q| {
        assert r[i..] == q[i + 1..] && [q[0]] + r[..i - 1] == q[..i];
        assert [q[0]] + (r[..i - 1] + r[i..]) == q[..i] + q[i + 1..];
      } else {
        assert [q[0]] + r == q;
      }
    } else if |q| > 0 {
      assert q[..0] + q[1..] == q[1..];
    }
  }
}
