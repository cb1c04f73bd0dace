/** Copy-on-write fork (user/lib/fork.c) with its fault side (kern/traps.c, `do_store_page`) and
    the mapping calls it uses (kern/ecall_all.c), against a reference machine that copies eagerly.

    `Machine` is the kernel's view: page table entries and physical pages, shared lazily.
    `Eager` is the reference: every private page has a cell of its own, copied when fork reaches
    it; PTE_LIBRARY pages are cells shared by several slots. One `Event` is one uninterrupted
    action of one environment (a load, a store, one system call, one byte of a memcpy), so a
    sequence of events is an interleaving. */
module CowFork {
  import opened Options

  /** The permission bits of an Sv32 entry that decide sharing (include/mmu.h). */
  datatype Flag = R | W | X | U | Cow | Lib

  const PGSIZE: nat := 4096
  const UCOW: nat := 0x3ff             // VPN(UCOW), the fault handler's scratch page
  const LIMIT: nat := 0x7f3fe          // VPN(USTACKTOP), where the fork loop stops
  const STACK: nat := 0x7f3fd          // the stack page env_setup_vm gives a new environment

  type Page = p: seq<int> | |p| == PGSIZE witness seq(PGSIZE, i => 0)

  function Zero(): Page {
    seq(PGSIZE, i => 0)
  }

  /** A place in some address space: environment and virtual page number. */
  datatype Slot = Slot(proc: nat, vpn: nat)

  datatype Pte = Pte(ppn: nat, perm: set<Flag>)

  /** Progress of a running `fork`: the loop is at page `next` of `child`; `half` holds between
      the two calls of `duppage`, when the child is mapped and the parent not yet remapped. */
  datatype Dup = Dup(child: nat, next: nat, half: bool)

  /** Progress of a running `cow_entry`. */
  datatype Fault = Entered(vpn: nat) | Copying(vpn: nat, done: nat) | Mapped(vpn: nat)

  datatype Env = Env(started: bool, parent: nat, dup: Option<Dup>, fault: Option<Fault>)

  datatype Machine = Machine(pt: map<Slot, Pte>, phys: map<nat, Page>, envs: map<nat, Env>)

  datatype Event =
    | Load(p: nat, vpn: nat, off: nat)
    | Store(p: nat, vpn: nat, off: nat, v: int)
    | GrantWrite(p: nat, vpn: nat)                       // store fault, entry neither W nor COW
    | ZeroFill(p: nat, vpn: nat, page: nat)              // store fault, no entry
    | FaultEnter(p: nat, vpn: nat)                       // store fault, COW entry
    | FaultAlloc(p: nat, page: nat)
    | FaultCopy(p: nat)
    | FaultMap(p: nat)
    | FaultUnmap(p: nat)
    | Exofork(p: nat, child: nat, page: nat)
    | DupSkip(p: nat)
    | DupWhole(p: nat, child: nat, vpn: nat)             // duppage, first branch
    | DupHalf(p: nat, child: nat, vpn: nat)              // duppage, second branch, first call
    | DupRemap(p: nat, child: nat, vpn: nat)             // duppage, second branch, second call
    | ForkDone(p: nat)
    | MemAlloc(p: nat, vpn: nat, page: nat, perm: set<Flag>)
    | MemShare(p: nat, vpn: nat, q: nat, dst: nat, perm: set<Flag>)
    | MemUnmap(p: nat, vpn: nat)
    | Exit(p: nat)

  // ----- the kernel's machine -----

  predicate Has(c: Machine, s: Slot, f: Flag) {
    s in c.pt && f in c.pt[s].perm
  }

  /** What `page_alloc` may return: a page no entry refers to. */
  predicate Fresh(c: Machine, page: nat) {
    forall s | s in c.pt :: c.pt[s].ppn != page
  }

  /** Environment ids are never reused: `mkenvid` counts up. */
  predicate Unused(c: Machine, p: nat) {
    forall s | s in c.pt :: s.proc != p
  }

  predicate Active(c: Machine, p: nat) {
    p in c.envs && c.envs[p].started && c.envs[p].fault == None
  }

  predicate Idle(c: Machine, p: nat) {
    Active(c, p) && c.envs[p].dup == None
  }

  predicate AtPage(c: Machine, p: nat, child: nat, vpn: nat, half: bool) {
    Active(c, p) && c.envs[p].dup == Some(Dup(child, vpn, half)) && vpn < LIMIT
  }

  /** `(perm & PTE_W) == 0 || (perm & PTE_LIBRARY) || (perm & PTE_COW)` in `duppage`. */
  predicate MapsAsIs(perm: set<Flag>) {
    W !in perm || Lib in perm || Cow in perm
  }

  predicate Enabled(c: Machine, e: Event) {
    match e
    case Load(p, vpn, off) =>
      Active(c, p) && vpn != UCOW && Has(c, Slot(p, vpn), R) && Has(c, Slot(p, vpn), U) && off < PGSIZE
    case Store(p, vpn, off, v) =>
      && Active(c, p) && vpn != UCOW && Has(c, Slot(p, vpn), W) && off < PGSIZE
      && c.pt[Slot(p, vpn)].ppn in c.phys
    case GrantWrite(p, vpn) =>
      && Active(c, p) && vpn != UCOW && Slot(p, vpn) in c.pt
      && !Has(c, Slot(p, vpn), W) && !Has(c, Slot(p, vpn), Cow)
    case ZeroFill(p, vpn, page) => Active(c, p) && vpn != UCOW && Slot(p, vpn) !in c.pt && Fresh(c, page)
    case FaultEnter(p, vpn) =>
      Active(c, p) && vpn != UCOW && Has(c, Slot(p, vpn), Cow) && !Has(c, Slot(p, vpn), W)
    case FaultAlloc(p, page) =>
      && p in c.envs && c.envs[p].fault.Some? && c.envs[p].fault.value.Entered?
      && Slot(p, c.envs[p].fault.value.vpn) in c.pt && Fresh(c, page)
    case FaultCopy(p) =>
      && p in c.envs && c.envs[p].fault.Some? && c.envs[p].fault.value.Copying?
      && c.envs[p].fault.value.done < PGSIZE
      && Slot(p, UCOW) in c.pt && c.pt[Slot(p, UCOW)].ppn in c.phys
      && Slot(p, c.envs[p].fault.value.vpn) in c.pt
      && c.pt[Slot(p, c.envs[p].fault.value.vpn)].ppn in c.phys
    case FaultMap(p) =>
      && p in c.envs && c.envs[p].fault.Some? && c.envs[p].fault.value.Copying?
      && c.envs[p].fault.value.done == PGSIZE
      && Slot(p, UCOW) in c.pt && Slot(p, c.envs[p].fault.value.vpn) in c.pt
    case FaultUnmap(p) =>
      p in c.envs && c.envs[p].fault.Some? && c.envs[p].fault.value.Mapped?
    case Exofork(p, child, page) =>
      Idle(c, p) && child !in c.envs && Unused(c, child) && Fresh(c, page)
    case DupSkip(p) =>
      && Active(c, p) && c.envs[p].dup.Some? && !c.envs[p].dup.value.half
      && c.envs[p].dup.value.next < LIMIT && Slot(p, c.envs[p].dup.value.next) !in c.pt
    case DupWhole(p, child, vpn) =>
      AtPage(c, p, child, vpn, false) && Slot(p, vpn) in c.pt && MapsAsIs(c.pt[Slot(p, vpn)].perm)
    case DupHalf(p, child, vpn) =>
      AtPage(c, p, child, vpn, false) && Slot(p, vpn) in c.pt && !MapsAsIs(c.pt[Slot(p, vpn)].perm)
    case DupRemap(p, child, vpn) =>
      AtPage(c, p, child, vpn, true) && Slot(p, vpn) in c.pt
    case ForkDone(p) =>
      && Active(c, p) && c.envs[p].dup.Some? && !c.envs[p].dup.value.half
      && c.envs[p].dup.value.next == LIMIT && c.envs[p].dup.value.child in c.envs
    case MemAlloc(p, vpn, page, perm) =>
      Idle(c, p) && vpn != UCOW && Fresh(c, page) && Cow !in perm && (W in perm || Lib in perm)
    case MemShare(p, vpn, q, dst, perm) =>
      && Idle(c, p) && Has(c, Slot(p, vpn), Lib) && vpn != UCOW
      && Active(c, q) && c.envs[q].dup == None && dst != UCOW && Lib in perm && Cow !in perm
    case MemUnmap(p, vpn) => Idle(c, p) && vpn != UCOW
    case Exit(p) => Idle(c, p)
  }

  function SetFault(c: Machine, p: nat, f: Option<Fault>): Machine
    requires p in c.envs
  {
    c.(envs := c.envs[p := c.envs[p].(fault := f)])
  }

  function SetDup(c: Machine, p: nat, d: Option<Dup>): Machine
    requires p in c.envs
  {
    c.(envs := c.envs[p := c.envs[p].(dup := d)])
  }

  /** `page_alloc` followed by `page_insert` of the zeroed page. */
  function MapZero(c: Machine, s: Slot, page: nat, perm: set<Flag>): Machine {
    c.(pt := c.pt[s := Pte(page, perm)], phys := c.phys[page := Zero()])
  }

  /** The permission the handler asks for: `(perm & ~PTE_COW) | PTE_W`. */
  function Owned(perm: set<Flag>): set<Flag> {
    perm - {Cow} + {W}
  }

  /** The permission `duppage` gives both sides: `(perm | PTE_COW) & ~PTE_W`. */
  function Lazy(perm: set<Flag>): set<Flag> {
    perm + {Cow} - {W}
  }

  /** `env_free` walks the whole directory but passes over PTE_LIBRARY entries. */
  function Survivors(c: Machine, p: nat): map<Slot, Pte> {
    map s | s in c.pt && (s.proc != p || Lib in c.pt[s].perm) :: c.pt[s]
  }

  function SetPte(c: Machine, s: Slot, t: Pte): Machine {
    c.(pt := c.pt[s := t])
  }

  function WriteByte(c: Machine, n: nat, off: nat, v: int): Machine
    requires n in c.phys && off < PGSIZE
  {
    c.(phys := c.phys[n := c.phys[n][off := v]])
  }

  function DoExofork(c: Machine, p: nat, child: nat, page: nat): Machine
    requires p in c.envs
  {
    var c1 := SetDup(MapZero(c, Slot(child, STACK), page, {R, W, U}), p, Some(Dup(child, 0, false)));
    c1.(envs := c1.envs[child := Env(false, p, None, None)])
  }

  function DoForkDone(c: Machine, p: nat, child: nat): Machine
    requires p in c.envs && child in c.envs
  {
    var c1 := SetDup(c, p, None);
    c1.(envs := c1.envs[child := c1.envs[child].(started := true)])
  }

  /** The effect of one event. `Store` and `FaultCopy` write physical memory only through an
      entry; `ecall_mem_map` and `page_insert` overwrite an entry in place. */
  function Step(c: Machine, e: Event): Machine
    requires Enabled(c, e)
  {
    match e
    case Load(_, _, _) => c
    case Store(p, vpn, off, v) => WriteByte(c, c.pt[Slot(p, vpn)].ppn, off, v)
    case GrantWrite(p, vpn) =>
      SetPte(c, Slot(p, vpn), Pte(c.pt[Slot(p, vpn)].ppn, c.pt[Slot(p, vpn)].perm + {W}))
    case ZeroFill(p, vpn, page) => MapZero(c, Slot(p, vpn), page, {R, W, U})
    case FaultEnter(p, vpn) => SetFault(c, p, Some(Entered(vpn)))
    case FaultAlloc(p, page) =>
      var vpn := c.envs[p].fault.value.vpn;
      SetFault(MapZero(c, Slot(p, UCOW), page, Owned(c.pt[Slot(p, vpn)].perm)), p, Some(Copying(vpn, 0)))
    case FaultCopy(p) =>
      var f := c.envs[p].fault.value;
      SetFault(WriteByte(c, c.pt[Slot(p, UCOW)].ppn, f.done, c.phys[c.pt[Slot(p, f.vpn)].ppn][f.done]),
               p, Some(Copying(f.vpn, f.done + 1)))
    case FaultMap(p) =>
      var s := Slot(p, c.envs[p].fault.value.vpn);
      SetFault(SetPte(c, s, Pte(c.pt[Slot(p, UCOW)].ppn, Owned(c.pt[s].perm))), p, Some(Mapped(s.vpn)))
    case FaultUnmap(p) => SetFault(c.(pt := c.pt - {Slot(p, UCOW)}), p, None)
    case Exofork(p, child, page) => DoExofork(c, p, child, page)
    case DupSkip(p) =>
      SetDup(c, p, Some(Dup(c.envs[p].dup.value.child, c.envs[p].dup.value.next + 1, false)))
    case DupWhole(p, child, vpn) =>
      SetDup(SetPte(c, Slot(child, vpn), c.pt[Slot(p, vpn)]), p, Some(Dup(child, vpn + 1, false)))
    case DupHalf(p, child, vpn) =>
      var t := c.pt[Slot(p, vpn)];
      SetDup(SetPte(c, Slot(child, vpn), Pte(t.ppn, Lazy(t.perm))), p, Some(Dup(child, vpn, true)))
    case DupRemap(p, child, vpn) =>
      var t := c.pt[Slot(p, vpn)];
      SetDup(SetPte(c, Slot(p, vpn), Pte(t.ppn, Lazy(t.perm))), p, Some(Dup(child, vpn + 1, false)))
    case ForkDone(p) => DoForkDone(c, p, c.envs[p].dup.value.child)
    case MemAlloc(p, vpn, page, perm) => MapZero(c, Slot(p, vpn), page, perm)
    case MemShare(p, vpn, q, dst, perm) => SetPte(c, Slot(q, dst), Pte(c.pt[Slot(p, vpn)].ppn, perm))
    case MemUnmap(p, vpn) => c.(pt := c.pt - {Slot(p, vpn)})
    case Exit(p) => c.(pt := Survivors(c, p), envs := c.envs - {p})
  }

  // ----- the eager reference -----

  datatype Eager = Eager(cell: map<Slot, nat>, val: map<nat, Page>, lib: set<Slot>, next: nat)

  /** A new cell holding `page`, private or shared-to-be. */
  function NewCell(a: Eager, s: Slot, page: Page, isLib: bool): Eager {
    Eager(a.cell[s := a.next], a.val[a.next := page], if isLib then a.lib + {s} else a.lib - {s}, a.next + 1)
  }

  function Drop(a: Eager, s: Slot): Eager {
    a.(cell := a.cell - {s}, lib := a.lib - {s})
  }

  /** Eager duplication: library cells are shared, private ones copied on the spot. */
  function Inherit(a: Eager, s: Slot, t: Slot): Eager {
    if s !in a.cell || a.cell[s] !in a.val then a
    else if s in a.lib then a.(cell := a.cell[t := a.cell[s]], lib := a.lib + {t})
    else NewCell(a, t, a.val[a.cell[s]], false)
  }

  function Kept(a: Eager, p: nat): map<Slot, nat> {
    map s | s in a.cell && (s.proc != p || s in a.lib) :: a.cell[s]
  }

  function WriteCell(a: Eager, s: Slot, off: nat, v: int): Eager {
    if s in a.cell && a.cell[s] in a.val && off < PGSIZE
    then a.(val := a.val[a.cell[s] := a.val[a.cell[s]][off := v]]) else a
  }

  function EagerStep(a: Eager, e: Event): Eager {
    match e
    case Store(p, vpn, off, v) => WriteCell(a, Slot(p, vpn), off, v)
    case ZeroFill(p, vpn, _) => NewCell(a, Slot(p, vpn), Zero(), false)
    case Exofork(_, child, _) => NewCell(a, Slot(child, STACK), Zero(), false)
    case DupWhole(p, child, vpn) => Inherit(a, Slot(p, vpn), Slot(child, vpn))
    case DupHalf(_, child, vpn) => Drop(a, Slot(child, vpn))
    case DupRemap(p, child, vpn) => Inherit(a, Slot(p, vpn), Slot(child, vpn))
    case MemAlloc(p, vpn, _, perm) => NewCell(a, Slot(p, vpn), Zero(), Lib in perm)
    case MemShare(p, vpn, q, dst, _) =>
      ShareCell(a, Slot(p, vpn), Slot(q, dst))
    case MemUnmap(p, vpn) => Drop(a, Slot(p, vpn))
    case Exit(p) =>
      a.(cell := Kept(a, p))
    case _ => a
  }

  // ----- runs -----

  ghost predicate ValidRun(c: Machine, es: seq<Event>)
    decreases |es|
  {
    es == [] || (Enabled(c, es[0]) && ValidRun(Step(c, es[0]), es[1..]))
  }

  ghost function Run(c: Machine, es: seq<Event>): Machine
    requires ValidRun(c, es)
    decreases |es|
  {
    if es == [] then c else Run(Step(c, es[0]), es[1..])
  }

  ghost function EagerRun(a: Eager, es: seq<Event>): Eager
    decreases |es|
  {
    if es == [] then a else EagerRun(EagerStep(a, es[0]), es[1..])
  }

  // ----- the simulation relation -----

  /** The child's page between the two calls of `duppage`: mapped, but not handed over yet. */
  predicate HalfDone(c: Machine, s: Slot) {
    && s.proc in c.envs && c.envs[s.proc].parent in c.envs
    && c.envs[c.envs[s.proc].parent].dup == Some(Dup(s.proc, s.vpn, true))
  }

  /** Slots that belong to a program's memory: not the handler's scratch page, not half done. */
  predicate InView(c: Machine, s: Slot) {
    s in c.pt && s.vpn != UCOW && !HalfDone(c, s)
  }

  /** What a program can read agrees with the eager machine, everywhere. */
  ghost predicate Agree(c: Machine, a: Eager) {
    && (forall s :: InView(c, s) <==> s in a.cell)
    && (forall s | s in a.cell :: c.pt[s].ppn in c.phys && a.cell[s] in a.val)
    && (forall s | s in a.cell :: c.phys[c.pt[s].ppn] == a.val[a.cell[s]])
  }

  ghost predicate CellsOk(a: Eager) {
    && (forall s | s in a.cell :: a.cell[s] < a.next)
    && (forall s | s in a.lib :: s in a.cell)
  }

  /** Cells shared in the reference are one physical page, and only library pages are. */
  ghost predicate SharedCells(c: Machine, a: Eager) {
    && (forall s | s in a.cell :: s in c.pt && (s in a.lib <==> Lib in c.pt[s].perm))
    && (forall s, t | s in a.cell && t in a.cell && s != t && a.cell[s] == a.cell[t] ::
          s in a.lib && t in a.lib && c.pt[s].ppn == c.pt[t].ppn)
  }

  /** A physical page under two slots is one cell or copy-on-write on both sides. */
  ghost predicate SharedPages(c: Machine, a: Eager) {
    forall s, t | s in a.cell && t in a.cell && s != t && s in c.pt && t in c.pt && c.pt[s].ppn == c.pt[t].ppn ::
      a.cell[s] == a.cell[t] || (Cow in c.pt[s].perm && Cow in c.pt[t].perm)
  }

  ghost predicate EntriesOk(c: Machine) {
    forall s | s in c.pt ::
      && c.pt[s].ppn in c.phys
      && !(Cow in c.pt[s].perm && W in c.pt[s].perm)
      && !(Cow in c.pt[s].perm && Lib in c.pt[s].perm)
  }

  /** The hypothesis on permissions: a private page is writable or copy-on-write. */
  ghost predicate PrivateOk(c: Machine) {
    forall s | s in c.pt :: W in c.pt[s].perm || Cow in c.pt[s].perm || Lib in c.pt[s].perm
  }

  ghost predicate OnlyAt(c: Machine, page: nat, s: Slot, t: Slot) {
    forall x | x in c.pt && c.pt[x].ppn == page :: x == s || x == t
  }

  /** Between the two calls of `duppage`: parent and child alone on a page only the parent writes. */
  ghost predicate HalfOk(c: Machine, s: Slot, x: Slot) {
    && s.vpn != UCOW && s in c.pt && x in c.pt && c.pt[s].ppn == c.pt[x].ppn
    && W in c.pt[s].perm && Lib !in c.pt[s].perm
    && c.pt[x].perm == Lazy(c.pt[s].perm)
    && OnlyAt(c, c.pt[s].ppn, s, x)
  }

  ghost predicate DupOk(c: Machine, p: nat, d: Dup) {
    && p in c.envs && c.envs[p].started && d.child in c.envs && d.child != p
    && !c.envs[d.child].started && c.envs[d.child].parent == p
    && c.envs[d.child].dup.None? && c.envs[d.child].fault.None?
    && d.next <= LIMIT
    && (d.half ==> HalfOk(c, Slot(p, d.next), Slot(d.child, d.next)))
  }

  ghost predicate CopyOk(c: Machine, u: Slot, s: Slot, k: nat) {
    && u in c.pt && Has(c, s, Cow) && k <= PGSIZE
    && OnlyAt(c, c.pt[u].ppn, u, u)
    && c.pt[u].ppn in c.phys && c.pt[s].ppn in c.phys
    && c.pt[u].perm == Owned(c.pt[s].perm)
    && c.phys[c.pt[u].ppn][..k] == c.phys[c.pt[s].ppn][..k]
  }

  ghost predicate MappedOk(c: Machine, u: Slot, s: Slot) {
    && u in c.pt && Has(c, s, W) && Lib !in c.pt[s].perm && Cow !in c.pt[u].perm
    && c.pt[u].ppn == c.pt[s].ppn && OnlyAt(c, c.pt[u].ppn, u, s)
  }

  ghost predicate FaultOk(c: Machine, p: nat, f: Fault) {
    && p in c.envs && c.envs[p].started && f.vpn != UCOW
    && match f
       case Entered(v) => Slot(p, UCOW) !in c.pt && Has(c, Slot(p, v), Cow)
       case Copying(v, k) => CopyOk(c, Slot(p, UCOW), Slot(p, v), k)
       case Mapped(v) => MappedOk(c, Slot(p, UCOW), Slot(p, v))
  }

  ghost predicate EnvsOk(c: Machine) {
    && (forall p | p in c.envs && c.envs[p].dup.Some? :: DupOk(c, p, c.envs[p].dup.value))
    && (forall p | p in c.envs && c.envs[p].fault.Some? :: FaultOk(c, p, c.envs[p].fault.value))
    && (forall s | s in c.pt && s.vpn == UCOW :: s.proc in c.envs && c.envs[s.proc].fault.Some?)
  }

  /** Everything the simulation keeps, apart from the hypothesis on permissions. */
  ghost predicate Related(c: Machine, a: Eager) {
    Agree(c, a) && CellsOk(a) && SharedCells(c, a) && SharedPages(c, a) && EntriesOk(c) && EnvsOk(c)
  }

  ghost predicate Sim(c: Machine, a: Eager) {
    Related(c, a) && PrivateOk(c)
  }

  ghost predicate SharingOk(c: Machine, a: Eager) {
    CellsOk(a) && SharedCells(c, a) && SharedPages(c, a) && EntriesOk(c) && PrivateOk(c)
  }

  // ----- what a step leaves alone -----

  ghost predicate NoNewRefs(c: Machine, c': Machine, page: nat) {
    forall y | y in c'.pt && c'.pt[y].ppn == page :: y in c.pt && c.pt[y].ppn == page
  }

  predicate SameEntry(c: Machine, c': Machine, s: Slot) {
    (s in c.pt <==> s in c'.pt) && (s in c.pt ==> c.pt[s] == c'.pt[s])
  }

  ghost predicate SamePage(c: Machine, c': Machine, s: Slot) {
    s in c.pt && c.pt[s].ppn in c.phys ==> c.pt[s].ppn in c'.phys && c'.phys[c.pt[s].ppn] == c.phys[c.pt[s].ppn]
  }

  /** Nothing the fork or the fault handler of `q` depends on has changed. */
  ghost predicate QuietDup(c: Machine, c': Machine, q: nat, d: Dup) {
    && q in c'.envs && c'.envs[q].started
    && d.child in c'.envs && d.child in c.envs && c'.envs[d.child] == c.envs[d.child]
    && (d.half ==>
          && SameEntry(c, c', Slot(q, d.next)) && SameEntry(c, c', Slot(d.child, d.next))
          && Slot(q, d.next) in c.pt && NoNewRefs(c, c', c.pt[Slot(q, d.next)].ppn))
  }

  ghost predicate QuietFault(c: Machine, c': Machine, q: nat, f: Fault) {
    && q in c'.envs && c'.envs[q].started
    && SameEntry(c, c', Slot(q, UCOW)) && SameEntry(c, c', Slot(q, f.vpn))
    && (Slot(q, UCOW) in c.pt ==>
          && NoNewRefs(c, c', c.pt[Slot(q, UCOW)].ppn)
          && SamePage(c, c', Slot(q, UCOW)) && SamePage(c, c', Slot(q, f.vpn)))
  }

  lemma DupFrame(c: Machine, c': Machine, q: nat, d: Dup)
    requires DupOk(c, q, d) && QuietDup(c, c', q, d)
    ensures DupOk(c', q, d)
  {
  }

  lemma FaultFrame(c: Machine, c': Machine, q: nat, f: Fault)
    requires FaultOk(c, q, f) && QuietFault(c, c', q, f)
    ensures FaultOk(c', q, f)
  {
  }

  /** Not one of the entries a fork or a fault handler in progress depends on. */
  ghost predicate Loose(c: Machine, s: Slot) {
    && s.vpn != UCOW
    && (forall q | q in c.envs && c.envs[q].dup.Some? && c.envs[q].dup.value.half ::
          s != Slot(q, c.envs[q].dup.value.next) && s != Slot(c.envs[q].dup.value.child, c.envs[q].dup.value.next))
    && (forall q | q in c.envs && c.envs[q].fault.Some? :: s != Slot(q, c.envs[q].fault.value.vpn))
  }

  // ----- stores -----

  /** Whoever else sees a page that `s` may write sees the same cell. */
  lemma WriterShares(c: Machine, a: Eager, s: Slot, t: Slot)
    requires SharedCells(c, a) && SharedPages(c, a) && EntriesOk(c)
    requires s in a.cell && Has(c, s, W) && t in a.cell && t in c.pt && c.pt[t].ppn == c.pt[s].ppn
    ensures a.cell[s] == a.cell[t] && Cow !in c.pt[t].perm
  {
  }

  /** A page that a fault handler copies from or to is not written by anyone else. */
  lemma WriterElsewhere(c: Machine, a: Eager, s: Slot, q: nat, f: Fault)
    requires Sim(c, a) && s in a.cell && Has(c, s, W) && q in c.envs && c.envs[q].fault == Some(f)
    ensures FaultOk(c, q, f)
    ensures f.Copying? ==> c.pt[Slot(q, UCOW)].ppn != c.pt[s].ppn && c.pt[Slot(q, f.vpn)].ppn != c.pt[s].ppn
  {
    var t := Slot(q, f.vpn);
    assert FaultOk(c, q, f);
    if f.Copying? && c.pt[t].ppn == c.pt[s].ppn {
      assert !HalfDone(c, t);
      assert InView(c, t);
      WriterShares(c, a, s, t);
    }
    assert InView(c, s);
  }

  lemma StoreAgree(c: Machine, a: Eager, s: Slot, off: nat, v: int)
    requires Agree(c, a) && SharedCells(c, a) && SharedPages(c, a) && EntriesOk(c)
    requires s in a.cell && Has(c, s, W) && off < PGSIZE
    ensures Agree(WriteByte(c, c.pt[s].ppn, off, v), WriteCell(a, s, off, v))
  {
    var c', a' := WriteByte(c, c.pt[s].ppn, off, v), WriteCell(a, s, off, v);
    forall t | t in a.cell ensures c'.phys[c'.pt[t].ppn] == a'.val[a'.cell[t]] {
      if c.pt[t].ppn == c.pt[s].ppn {
        WriterShares(c, a, s, t);
      }
    }
    forall t ensures InView(c', t) <==> InView(c, t) {
    }
  }

  lemma StoreSim(c: Machine, a: Eager, s: Slot, off: nat, v: int)
    requires Sim(c, a) && s in a.cell && Has(c, s, W) && off < PGSIZE
    ensures Sim(WriteByte(c, c.pt[s].ppn, off, v), WriteCell(a, s, off, v))
  {
    var c', a' := WriteByte(c, c.pt[s].ppn, off, v), WriteCell(a, s, off, v);
    StoreAgree(c, a, s, off, v);
    assert SharingOk(c', a');
    forall q | q in c.envs && c.envs[q].dup.Some? ensures DupOk(c', q, c.envs[q].dup.value) {
      DupFrame(c, c', q, c.envs[q].dup.value);
    }
    forall q | q in c.envs && c.envs[q].fault.Some? ensures FaultOk(c', q, c.envs[q].fault.value) {
      WriterElsewhere(c, a, s, q, c.envs[q].fault.value);
    }
  }

  // ----- changes of the page tables -----

  /** Not a page that a fork or a fault handler in progress holds to itself. */
  ghost predicate Unguarded(c: Machine, page: nat) {
    && (forall q | q in c.envs && c.envs[q].dup.Some? && c.envs[q].dup.value.half ::
          Slot(q, c.envs[q].dup.value.next) in c.pt ==> c.pt[Slot(q, c.envs[q].dup.value.next)].ppn != page)
    && (forall q | q in c.envs && c.envs[q].fault.Some? ::
          Slot(q, UCOW) in c.pt ==> c.pt[Slot(q, UCOW)].ppn != page)
  }

  ghost predicate KeepsBytes(c: Machine, c': Machine) {
    forall y | y in c.pt && c.pt[y].ppn in c.phys ::
      c.pt[y].ppn in c'.phys && c'.phys[c.pt[y].ppn] == c.phys[c.pt[y].ppn]
  }

  lemma EntryFrame(c: Machine, c': Machine, s: Slot)
    requires EnvsOk(c) && Loose(c, s) && c'.envs == c.envs && KeepsBytes(c, c')
    requires c'.pt.Keys + {s} == c.pt.Keys + {s} && (forall y | y in c.pt && y != s :: c'.pt[y] == c.pt[y])
    requires s in c'.pt ==> Unguarded(c, c'.pt[s].ppn)
    ensures EnvsOk(c')
  {
    assert forall y | y != s :: SameEntry(c, c', y);
    forall q | q in c.envs && c.envs[q].dup.Some? ensures DupOk(c', q, c.envs[q].dup.value) {
      DupFrame(c, c', q, c.envs[q].dup.value);
    }
    forall q | q in c.envs && c.envs[q].fault.Some? ensures FaultOk(c', q, c.envs[q].fault.value) {
      FaultFrame(c, c', q, c.envs[q].fault.value);
    }
  }

  lemma GrantSharing(c: Machine, a: Eager, s: Slot)
    requires SharingOk(c, a) && s in c.pt && Cow !in c.pt[s].perm
    ensures SharingOk(SetPte(c, s, Pte(c.pt[s].ppn, c.pt[s].perm + {W})), a)
  {
  }

  lemma LooseLib(c: Machine, s: Slot)
    requires EnvsOk(c) && s in c.pt && s.vpn != UCOW && !Has(c, s, W) && !Has(c, s, Cow)
    ensures Loose(c, s)
  {
  }

  lemma GrantSim(c: Machine, a: Eager, s: Slot)
    requires Sim(c, a) && InView(c, s) && !Has(c, s, W) && !Has(c, s, Cow)
    ensures Sim(SetPte(c, s, Pte(c.pt[s].ppn, c.pt[s].perm + {W})), a)
  {
    var c' := SetPte(c, s, Pte(c.pt[s].ppn, c.pt[s].perm + {W}));
    GrantSharing(c, a, s);
    assert Agree(c', a) by {
      assert forall t :: InView(c', t) <==> InView(c, t);
    }
    LooseLib(c, s);
    RemapLibEnvs(c, s, s, c.pt[s].perm + {W});
  }

  lemma RemapLibEnvs(c: Machine, s: Slot, t: Slot, perm: set<Flag>)
    requires EnvsOk(c) && s in c.pt && s.vpn != UCOW && Lib in c.pt[s].perm && Loose(c, t)
    ensures EnvsOk(SetPte(c, t, Pte(c.pt[s].ppn, perm)))
  {
    LibUnguarded(c, s);
    EntryFrame(c, SetPte(c, t, Pte(c.pt[s].ppn, perm)), t);
  }

  /** Library pages play no part in forks or faults in progress. */
  lemma LibUnguarded(c: Machine, s: Slot)
    requires EnvsOk(c) && s in c.pt && s.vpn != UCOW && Lib in c.pt[s].perm
    ensures Unguarded(c, c.pt[s].ppn) 
  {
    forall q | q in c.envs && c.envs[q].dup.Some? && c.envs[q].dup.value.half
      ensures c.pt[Slot(q, c.envs[q].dup.value.next)].ppn != c.pt[s].ppn
    {
      assert DupOk(c, q, c.envs[q].dup.value);
    }
    forall q | q in c.envs && c.envs[q].fault.Some? && Slot(q, UCOW) in c.pt
      ensures c.pt[Slot(q, UCOW)].ppn != c.pt[s].ppn
    {
      assert FaultOk(c, q, c.envs[q].fault.value);
    }
  }

  lemma MapZeroAgree(c: Machine, a: Eager, s: Slot, page: nat, perm: set<Flag>)
    requires Agree(c, a) && CellsOk(a) && Fresh(c, page) && s.vpn != UCOW && !HalfDone(c, s)
    ensures Agree(MapZero(c, s, page, perm), NewCell(a, s, Zero(), Lib in perm))
  {
    var c', a' := MapZero(c, s, page, perm), NewCell(a, s, Zero(), Lib in perm);
    assert forall t | t != s :: InView(c', t) <==> InView(c, t);
  }

  lemma MapZeroSharing(c: Machine, a: Eager, s: Slot, page: nat, perm: set<Flag>)
    requires SharingOk(c, a) && Fresh(c, page)
    requires Cow !in perm && (W in perm || Lib in perm)
    ensures SharingOk(MapZero(c, s, page, perm), NewCell(a, s, Zero(), Lib in perm))
  {
  }

  lemma MapZeroEnvs(c: Machine, s: Slot, page: nat, perm: set<Flag>)
    requires EnvsOk(c) && Fresh(c, page) && Loose(c, s)
    ensures EnvsOk(MapZero(c, s, page, perm))
  {
    EntryFrame(c, MapZero(c, s, page, perm), s);
  }

  lemma MapZeroSim(c: Machine, a: Eager, s: Slot, page: nat, perm: set<Flag>)
    requires Sim(c, a) && Fresh(c, page) && Loose(c, s) && !HalfDone(c, s)
    requires Cow !in perm && (W in perm || Lib in perm)
    ensures Sim(MapZero(c, s, page, perm), NewCell(a, s, Zero(), Lib in perm))
  {
    MapZeroAgree(c, a, s, page, perm);
    MapZeroSharing(c, a, s, page, perm);
    MapZeroEnvs(c, s, page, perm);
  }

  function ShareCell(a: Eager, s: Slot, t: Slot): Eager {
    if s in a.cell then a.(cell := a.cell[t := a.cell[s]], lib := a.lib + {t}) else a
  }

  lemma ShareAgree(c: Machine, a: Eager, s: Slot, t: Slot, perm: set<Flag>)
    requires Agree(c, a) && s in a.cell && t.vpn != UCOW && !HalfDone(c, t)
    ensures Agree(SetPte(c, t, Pte(c.pt[s].ppn, perm)), ShareCell(a, s, t))
  {
    var c' := SetPte(c, t, Pte(c.pt[s].ppn, perm));
    assert forall x | x != t :: InView(c', x) <==> InView(c, x);
  }

  lemma ShareSharing(c: Machine, a: Eager, s: Slot, t: Slot, perm: set<Flag>)
    requires SharingOk(c, a) && s in a.cell && s in a.lib && Lib in perm && Cow !in perm
    ensures SharingOk(SetPte(c, t, Pte(c.pt[s].ppn, perm)), ShareCell(a, s, t))
  {
    var c', a' := SetPte(c, t, Pte(c.pt[s].ppn, perm)), ShareCell(a, s, t);
    assert SharedCells(c', a');
    assert SharedPages(c', a') by {
      forall x | x in a.cell && x in c.pt && x != t && c.pt[x].ppn == c.pt[s].ppn
        ensures a.cell[x] == a.cell[s]
      {
      }
    }
  }

  lemma ShareSim(c: Machine, a: Eager, s: Slot, t: Slot, perm: set<Flag>)
    requires Sim(c, a) && InView(c, s) && Has(c, s, Lib) && Lib in perm && Cow !in perm
    requires Loose(c, t) && !HalfDone(c, t)
    ensures Sim(SetPte(c, t, Pte(c.pt[s].ppn, perm)), ShareCell(a, s, t))
  {
    assert s in a.cell;
    ShareAgree(c, a, s, t, perm);
    ShareSharing(c, a, s, t, perm);
    RemapLibEnvs(c, s, t, perm);
  }

  lemma UnmapAgree(c: Machine, a: Eager, s: Slot)
    requires Agree(c, a) && s.vpn != UCOW
    ensures Agree(c.(pt := c.pt - {s}), Drop(a, s))
  {
    var c' := c.(pt := c.pt - {s});
    assert forall x | x != s :: InView(c', x) <==> InView(c, x);
  }

  lemma UnmapSharing(c: Machine, a: Eager, s: Slot)
    requires SharingOk(c, a)
    ensures SharingOk(c.(pt := c.pt - {s}), Drop(a, s))
  {
  }

  lemma UnmapSim(c: Machine, a: Eager, s: Slot)
    requires Sim(c, a) && Loose(c, s)
    ensures Sim(c.(pt := c.pt - {s}), Drop(a, s))
  {
    UnmapAgree(c, a, s);
    UnmapSharing(c, a, s);
    UnmapEnvs(c, s);
  }

  lemma UnmapEnvs(c: Machine, s: Slot)
    requires EnvsOk(c) && Loose(c, s)
    ensures EnvsOk(c.(pt := c.pt - {s}))
  {
    EntryFrame(c, c.(pt := c.pt - {s}), s);
  }

  /** Only a page of an environment that has not started can be half done. */
  lemma NotHalf(c: Machine, s: Slot)
    requires EnvsOk(c) && (s.proc in c.envs ==> c.envs[s.proc].started)
    ensures !HalfDone(c, s)
  {
  }

  lemma ExitHalf(c: Machine, p: nat, s: Slot)
    requires EnvsOk(c) && Idle(c, p)
    ensures HalfDone(c.(pt := Survivors(c, p), envs := c.envs - {p}), s) <==> HalfDone(c, s)
  {
    if s.proc == p {
      NotHalf(c, s);
    }
  }

  lemma ExitAgree(c: Machine, a: Eager, p: nat)
    requires Agree(c, a) && SharedCells(c, a)
    requires forall s :: HalfDone(c.(pt := Survivors(c, p), envs := c.envs - {p}), s) <==> HalfDone(c, s)
    ensures Agree(c.(pt := Survivors(c, p), envs := c.envs - {p}), a.(cell := Kept(a, p)))
  {
    var c', a' := c.(pt := Survivors(c, p), envs := c.envs - {p}), a.(cell := Kept(a, p));
    forall x ensures InView(c', x) <==> x in a'.cell {
      assert InView(c, x) <==> x in a.cell;
    }
  }

  lemma ExitSharing(c: Machine, a: Eager, p: nat)
    requires SharingOk(c, a)
    ensures SharingOk(c.(pt := Survivors(c, p)), a.(cell := Kept(a, p)))
  {
  }

  lemma ExitEnvs(c: Machine, p: nat)
    requires EnvsOk(c) && Idle(c, p)
    ensures EnvsOk(c.(pt := Survivors(c, p), envs := c.envs - {p}))
  {
    var c' := c.(pt := Survivors(c, p), envs := c.envs - {p});
    forall q | q in c'.envs && c'.envs[q].dup.Some? ensures DupOk(c', q, c'.envs[q].dup.value) {
      assert DupOk(c, q, c.envs[q].dup.value);
      DupFrame(c, c', q, c.envs[q].dup.value);
    }
    forall q | q in c'.envs && c'.envs[q].fault.Some? ensures FaultOk(c', q, c'.envs[q].fault.value) {
      FaultFrame(c, c', q, c.envs[q].fault.value);
    }
  }

  lemma ExitSim(c: Machine, a: Eager, p: nat)
    requires Sim(c, a) && Idle(c, p)
    ensures Sim(c.(pt := Survivors(c, p), envs := c.envs - {p}), a.(cell := Kept(a, p)))
  {
    forall s ensures HalfDone(c.(pt := Survivors(c, p), envs := c.envs - {p}), s) <==> HalfDone(c, s) {
      ExitHalf(c, p, s);
    }
    ExitAgree(c, a, p);
    ExitSharing(c, a, p);
    ExitEnvs(c, p);
  }

  // ----- the fault handler -----

  /** Steps that move one environment's program counter and leave memory alone. */
  lemma FaultPcEnvs(c: Machine, c1: Machine, p: nat, f: Option<Fault>)
    requires EnvsOk(c) && p in c.envs && p in c1.envs && c1.envs == c.envs
    requires forall q | q in c.envs && c.envs[q].dup.Some? :: DupOk(c1, q, c.envs[q].dup.value)
    requires forall q | q in c.envs && q != p && c.envs[q].fault.Some? :: FaultOk(c1, q, c.envs[q].fault.value)
    requires f.Some? ==> FaultOk(SetFault(c1, p, f), p, f.value)
    requires c.envs[p].started
    requires forall s | s in c1.pt && s.vpn == UCOW ::
      s.proc in c.envs && (if s.proc == p then f.Some? else c.envs[s.proc].fault.Some?)
    ensures EnvsOk(SetFault(c1, p, f))
  {
    var c' := SetFault(c1, p, f);
    forall q | q in c'.envs && c'.envs[q].dup.Some? ensures DupOk(c', q, c'.envs[q].dup.value) {
      assert DupOk(c1, q, c.envs[q].dup.value);
    }
    forall q | q in c'.envs && c'.envs[q].fault.Some? ensures FaultOk(c', q, c'.envs[q].fault.value) {
      if q != p {
        FaultFrame(c1, c', q, c.envs[q].fault.value);
      }
    }
  }

  ghost predicate SameForks(c: Machine, c': Machine) {
    && c'.envs.Keys == c.envs.Keys
    && (forall p | p in c.envs :: c'.envs[p].dup == c.envs[p].dup && c'.envs[p].parent == c.envs[p].parent)
  }

  /** Changes confined to the handler's scratch slots are invisible to the programs. */
  lemma ScratchAgree(c: Machine, c': Machine, a: Eager)
    requires Agree(c, a) && SameForks(c, c')
    requires forall s: Slot | s.vpn != UCOW :: SameEntry(c, c', s)
    requires forall s | s in c.pt && s.vpn != UCOW && c.pt[s].ppn in c.phys ::
      c.pt[s].ppn in c'.phys && c'.phys[c.pt[s].ppn] == c.phys[c.pt[s].ppn]
    ensures Agree(c', a)
  {
    forall s ensures InView(c', s) <==> InView(c, s) {
    }
  }

  lemma ScratchSharing(c: Machine, c': Machine, a: Eager)
    requires SharingOk(c, a) && Agree(c, a) && EntriesOk(c') && PrivateOk(c')
    requires forall s: Slot | s.vpn != UCOW :: SameEntry(c, c', s)
    ensures SharingOk(c', a)
  {
    assert forall s | s in a.cell :: InView(c, s);
  }

  lemma FaultEnterSim(c: Machine, a: Eager, p: nat, vpn: nat)
    requires Sim(c, a) && Active(c, p) && vpn != UCOW && Has(c, Slot(p, vpn), Cow)
    ensures Sim(SetFault(c, p, Some(Entered(vpn))), a)
  {
    ScratchAgree(c, SetFault(c, p, Some(Entered(vpn))), a);
    FaultPcEnvs(c, c, p, Some(Entered(vpn)));
  }

  lemma FaultAllocEnvs(c: Machine, p: nat, page: nat, vpn: nat)
    requires EnvsOk(c) && EntriesOk(c) && Fresh(c, page)
    requires p in c.envs && c.envs[p].fault == Some(Entered(vpn)) && Slot(p, vpn) in c.pt
    ensures EnvsOk(SetFault(MapZero(c, Slot(p, UCOW), page, Owned(c.pt[Slot(p, vpn)].perm)), p, Some(Copying(vpn, 0))))
  {
    var c1 := MapZero(c, Slot(p, UCOW), page, Owned(c.pt[Slot(p, vpn)].perm));
    assert FaultOk(c, p, Entered(vpn));
    forall q | q in c.envs && c.envs[q].dup.Some? ensures DupOk(c1, q, c.envs[q].dup.value) {
      DupFrame(c, c1, q, c.envs[q].dup.value);
    }
    forall q | q in c.envs && q != p && c.envs[q].fault.Some? ensures FaultOk(c1, q, c.envs[q].fault.value) {
      FaultFrame(c, c1, q, c.envs[q].fault.value);
    }
    FaultPcEnvs(c, c1, p, Some(Copying(vpn, 0)));
  }

  lemma FaultAllocShared(c: Machine, a: Eager, p: nat, page: nat, vpn: nat)
    requires Agree(c, a) && SharingOk(c, a) && Fresh(c, page) && p in c.envs && Slot(p, vpn) in c.pt
    ensures var c' := SetFault(MapZero(c, Slot(p, UCOW), page, Owned(c.pt[Slot(p, vpn)].perm)), p,
            Some(Copying(vpn, 0)));
            Agree(c', a) && SharingOk(c', a)
  {
    var c' := SetFault(MapZero(c, Slot(p, UCOW), page, Owned(c.pt[Slot(p, vpn)].perm)), p, Some(Copying(vpn, 0)));
    ScratchAgree(c, c', a);
    ScratchSharing(c, c', a);
  }

  lemma FaultAllocSim(c: Machine, a: Eager, p: nat, page: nat, vpn: nat)
    requires Sim(c, a) && Fresh(c, page)
    requires p in c.envs && c.envs[p].fault == Some(Entered(vpn)) && Slot(p, vpn) in c.pt
    ensures Sim(SetFault(MapZero(c, Slot(p, UCOW), page, Owned(c.pt[Slot(p, vpn)].perm)), p, Some(Copying(vpn, 0))), a)
  {
    FaultAllocShared(c, a, p, page, vpn);
    FaultAllocEnvs(c, p, page, vpn);
  }

  lemma FaultCopyEnvs(c: Machine, p: nat, vpn: nat, k: nat)
    requires EnvsOk(c) && EntriesOk(c)
    requires p in c.envs && c.envs[p].fault == Some(Copying(vpn, k)) && k < PGSIZE
    requires CopyOk(c, Slot(p, UCOW), Slot(p, vpn), k)
    ensures EnvsOk(SetFault(WriteByte(c, c.pt[Slot(p, UCOW)].ppn, k, c.phys[c.pt[Slot(p, vpn)].ppn][k]),
                            p, Some(Copying(vpn, k + 1))))
  {
    var c1 := WriteByte(c, c.pt[Slot(p, UCOW)].ppn, k, c.phys[c.pt[Slot(p, vpn)].ppn][k]);
    assert FaultOk(c, p, Copying(vpn, k));
    forall q | q in c.envs && c.envs[q].dup.Some? ensures DupOk(c1, q, c.envs[q].dup.value) {
      DupFrame(c, c1, q, c.envs[q].dup.value);
    }
    forall q | q in c.envs && q != p && c.envs[q].fault.Some? ensures FaultOk(c1, q, c.envs[q].fault.value) {
      assert FaultOk(c, q, c.envs[q].fault.value);
      FaultFrame(c, c1, q, c.envs[q].fault.value);
    }
    FaultPcEnvs(c, c1, p, Some(Copying(vpn, k + 1)));
  }

  lemma FaultCopySim(c: Machine, a: Eager, p: nat, vpn: nat, k: nat)
    requires Sim(c, a)
    requires p in c.envs && c.envs[p].fault == Some(Copying(vpn, k)) && k < PGSIZE
    ensures CopyOk(c, Slot(p, UCOW), Slot(p, vpn), k)
    ensures Sim(SetFault(WriteByte(c, c.pt[Slot(p, UCOW)].ppn, k, c.phys[c.pt[Slot(p, vpn)].ppn][k]),
                         p, Some(Copying(vpn, k + 1))), a)
  {
    assert FaultOk(c, p, Copying(vpn, k));
    var c' := SetFault(WriteByte(c, c.pt[Slot(p, UCOW)].ppn, k, c.phys[c.pt[Slot(p, vpn)].ppn][k]),
                       p, Some(Copying(vpn, k + 1)));
    ScratchAgree(c, c', a);
    ScratchSharing(c, c', a);
    FaultCopyEnvs(c, p, vpn, k);
  }

  lemma FaultMapEnvs(c: Machine, p: nat, vpn: nat)
    requires EnvsOk(c) && EntriesOk(c)
    requires p in c.envs && c.envs[p].fault == Some(Copying(vpn, PGSIZE))
    requires CopyOk(c, Slot(p, UCOW), Slot(p, vpn), PGSIZE)
    ensures EnvsOk(SetFault(SetPte(c, Slot(p, vpn), Pte(c.pt[Slot(p, UCOW)].ppn, Owned(c.pt[Slot(p, vpn)].perm))),
                            p, Some(Mapped(vpn))))
  {
    var s := Slot(p, vpn);
    var c1 := SetPte(c, s, Pte(c.pt[Slot(p, UCOW)].ppn, Owned(c.pt[s].perm)));
    assert FaultOk(c, p, Copying(vpn, PGSIZE));
    forall q | q in c.envs && c.envs[q].dup.Some? ensures DupOk(c1, q, c.envs[q].dup.value) {
      assert DupOk(c, q, c.envs[q].dup.value);
      DupFrame(c, c1, q, c.envs[q].dup.value);
    }
    forall q | q in c.envs && q != p && c.envs[q].fault.Some? ensures FaultOk(c1, q, c.envs[q].fault.value) {
      assert FaultOk(c, q, c.envs[q].fault.value);
      FaultFrame(c, c1, q, c.envs[q].fault.value);
    }
    FaultPcEnvs(c, c1, p, Some(Mapped(vpn)));
  }

  lemma FaultMapAgree(c: Machine, a: Eager, p: nat, vpn: nat)
    requires Agree(c, a) && vpn != UCOW && p in c.envs && CopyOk(c, Slot(p, UCOW), Slot(p, vpn), PGSIZE)
    ensures Agree(SetFault(SetPte(c, Slot(p, vpn), Pte(c.pt[Slot(p, UCOW)].ppn, Owned(c.pt[Slot(p, vpn)].perm))),
                           p, Some(Mapped(vpn))), a)
  {
    var s := Slot(p, vpn);
    var c' := SetFault(SetPte(c, s, Pte(c.pt[Slot(p, UCOW)].ppn, Owned(c.pt[s].perm))), p, Some(Mapped(vpn)));
    var copy, orig := c.phys[c.pt[Slot(p, UCOW)].ppn], c.phys[c.pt[s].ppn];
    assert copy == copy[..PGSIZE] == orig[..PGSIZE] == orig;
    forall x ensures InView(c', x) <==> InView(c, x) {
    }
  }

  lemma FaultMapSharing(c: Machine, a: Eager, s: Slot, u: Slot)
    requires SharingOk(c, a) && Agree(c, a) && u.vpn == UCOW && s in a.cell && CopyOk(c, u, s, PGSIZE)
    ensures SharingOk(SetPte(c, s, Pte(c.pt[u].ppn, Owned(c.pt[s].perm))), a)
  {
    assert forall x | x in a.cell :: InView(c, x);
  }

  lemma FaultMapSim(c: Machine, a: Eager, p: nat, vpn: nat)
    requires Sim(c, a)
    requires p in c.envs && c.envs[p].fault == Some(Copying(vpn, PGSIZE))
    ensures CopyOk(c, Slot(p, UCOW), Slot(p, vpn), PGSIZE)
    ensures Sim(SetFault(SetPte(c, Slot(p, vpn), Pte(c.pt[Slot(p, UCOW)].ppn, Owned(c.pt[Slot(p, vpn)].perm))),
                         p, Some(Mapped(vpn))), a)
  {
    assert FaultOk(c, p, Copying(vpn, PGSIZE));
    NotHalf(c, Slot(p, vpn));
    assert InView(c, Slot(p, vpn));
    FaultMapAgree(c, a, p, vpn);
    FaultMapSharing(c, a, Slot(p, vpn), Slot(p, UCOW));
    FaultMapEnvs(c, p, vpn);
  }

  lemma FaultUnmapEnvs(c: Machine, p: nat, vpn: nat)
    requires EnvsOk(c) && p in c.envs && c.envs[p].fault == Some(Mapped(vpn))
    ensures EnvsOk(SetFault(c.(pt := c.pt - {Slot(p, UCOW)}), p, None))
  {
    var c1 := c.(pt := c.pt - {Slot(p, UCOW)});
    assert FaultOk(c, p, Mapped(vpn));
    forall q | q in c.envs && c.envs[q].dup.Some? ensures DupOk(c1, q, c.envs[q].dup.value) {
      DupFrame(c, c1, q, c.envs[q].dup.value);
    }
    forall q | q in c.envs && q != p && c.envs[q].fault.Some? ensures FaultOk(c1, q, c.envs[q].fault.value) {
      FaultFrame(c, c1, q, c.envs[q].fault.value);
    }
    FaultPcEnvs(c, c1, p, None);
  }

  lemma FaultUnmapShared(c: Machine, a: Eager, p: nat)
    requires Agree(c, a) && SharingOk(c, a) && p in c.envs
    ensures var c' := SetFault(c.(pt := c.pt - {Slot(p, UCOW)}), p, None);
            Agree(c', a) && SharingOk(c', a)
  {
    var c' := SetFault(c.(pt := c.pt - {Slot(p, UCOW)}), p, None);
    ScratchAgree(c, c', a);
    ScratchSharing(c, c', a);
  }

  lemma FaultUnmapSim(c: Machine, a: Eager, p: nat, vpn: nat)
    requires Sim(c, a) && p in c.envs && c.envs[p].fault == Some(Mapped(vpn))
    ensures Sim(SetFault(c.(pt := c.pt - {Slot(p, UCOW)}), p, None), a)
  {
    FaultUnmapShared(c, a, p);
    FaultUnmapEnvs(c, p, vpn);
  }

  // ----- fork -----

  lemma DupPcEnvs(c: Machine, c1: Machine, p: nat, d: Option<Dup>)
    requires EnvsOk(c) && p in c.envs && c.envs[p].started && c1.envs == c.envs
    requires forall q | q in c.envs && q != p && c.envs[q].dup.Some? :: DupOk(c1, q, c.envs[q].dup.value)
    requires forall q | q in c.envs && c.envs[q].fault.Some? :: FaultOk(c1, q, c.envs[q].fault.value)
    requires d.Some? ==> DupOk(SetDup(c1, p, d), p, d.value)
    requires forall s: Slot | s in c1.pt && s.vpn == UCOW :: s in c.pt
    ensures EnvsOk(SetDup(c1, p, d))
  {
    var c' := SetDup(c1, p, d);
    forall q | q in c'.envs && c'.envs[q].dup.Some? ensures DupOk(c', q, c'.envs[q].dup.value) {
      if q != p {
        DupFrame(c1, c', q, c.envs[q].dup.value);
      }
    }
    forall q | q in c'.envs && c'.envs[q].fault.Some? ensures FaultOk(c', q, c'.envs[q].fault.value) {
      FaultFrame(c1, c', q, c.envs[q].fault.value);
    }
  }

  /** Moving the fork loop on, with no page half done before or after. */
  lemma DupPcSim(c: Machine, a: Eager, p: nat, d: Dup, d': Dup)
    requires Sim(c, a) && p in c.envs && c.envs[p].dup == Some(d) && !d.half && !d'.half
    requires d'.child == d.child && d'.next <= LIMIT
    ensures Sim(SetDup(c, p, Some(d')), a)
  {
    var c' := SetDup(c, p, Some(d'));
    assert DupOk(c, p, d);
    assert Agree(c', a) by {
      assert forall s :: InView(c', s) <==> InView(c, s);
    }
    DupPcEnvs(c, c, p, Some(d'));
  }

  lemma ExoforkEnvs(c: Machine, p: nat, child: nat)
    requires EnvsOk(c) && Idle(c, p) && child !in c.envs
    ensures var c1 := SetDup(c, p, Some(Dup(child, 0, false)));
            EnvsOk(c1.(envs := c1.envs[child := Env(false, p, None, None)]))
  {
    var c1 := SetDup(c, p, Some(Dup(child, 0, false)));
    var c' := c1.(envs := c1.envs[child := Env(false, p, None, None)]);
    forall q | q in c'.envs && c'.envs[q].dup.Some? ensures DupOk(c', q, c'.envs[q].dup.value) {
      if q != p {
        assert DupOk(c, q, c.envs[q].dup.value);
        DupFrame(c, c', q, c.envs[q].dup.value);
      }
    }
    forall q | q in c'.envs && c'.envs[q].fault.Some? ensures FaultOk(c', q, c'.envs[q].fault.value) {
      FaultFrame(c, c', q, c.envs[q].fault.value);
    }
  }

  lemma NewbornLoose(c: Machine, t: Slot)
    requires EnvsOk(c) && t.proc !in c.envs && t.vpn != UCOW
    ensures Loose(c, t) && !HalfDone(c, t)
  {
    forall q | q in c.envs && c.envs[q].dup.Some? ensures c.envs[q].dup.value.child != t.proc {
      assert DupOk(c, q, c.envs[q].dup.value);
    }
  }

  lemma ExoforkAgree(c: Machine, a: Eager, p: nat, child: nat)
    requires Agree(c, a) && Idle(c, p) && child !in c.envs
    ensures var c1 := SetDup(c, p, Some(Dup(child, 0, false)));
            Agree(c1.(envs := c1.envs[child := Env(false, p, None, None)]), a)
  {
    var c1 := SetDup(c, p, Some(Dup(child, 0, false)));
    var c' := c1.(envs := c1.envs[child := Env(false, p, None, None)]);
    forall s ensures InView(c', s) <==> InView(c, s) {
    }
  }

  lemma ExoforkSim(c: Machine, a: Eager, p: nat, child: nat, page: nat)
    requires Sim(c, a) && Idle(c, p) && child !in c.envs && Fresh(c, page)
    ensures Sim(DoExofork(c, p, child, page), NewCell(a, Slot(child, STACK), Zero(), false))
  {
    var t := Slot(child, STACK);
    var c1, a' := MapZero(c, t, page, {R, W, U}), NewCell(a, t, Zero(), false);
    NewbornLoose(c, t);
    MapZeroSim(c, a, t, page, {R, W, U});
    ExoforkEnvs(c1, p, child);
    ExoforkAgree(c1, a', p, child);
    assert SharingOk(DoExofork(c, p, child, page), a');
  }

  lemma ChildLoose(c: Machine, p: nat, d: Dup)
    requires EnvsOk(c) && p in c.envs && c.envs[p].dup == Some(d) && !d.half && d.next != UCOW
    ensures Loose(c, Slot(d.child, d.next)) && !HalfDone(c, Slot(d.child, d.next))
  {
    assert DupOk(c, p, d);
    forall q | q in c.envs && c.envs[q].dup.Some? && c.envs[q].dup.value.half
      ensures c.envs[q].dup.value.child != d.child && q != d.child
    {
      assert DupOk(c, q, c.envs[q].dup.value);
    }
  }

  /** A page of a started, idle environment is not guarded by anyone's fork or fault. */
  lemma ActiveUnguarded(c: Machine, s: Slot)
    requires EnvsOk(c) && Active(c, s.proc) && s in c.pt
    requires c.envs[s.proc].dup.Some? ==> !c.envs[s.proc].dup.value.half
    ensures Unguarded(c, c.pt[s].ppn) && s.vpn != UCOW && !HalfDone(c, s)
  {
    NotHalf(c, s);
    forall q | q in c.envs && c.envs[q].dup.Some? && c.envs[q].dup.value.half
      ensures c.pt[Slot(q, c.envs[q].dup.value.next)].ppn != c.pt[s].ppn
    {
      assert DupOk(c, q, c.envs[q].dup.value);
    }
    forall q | q in c.envs && c.envs[q].fault.Some? && Slot(q, UCOW) in c.pt
      ensures c.pt[Slot(q, UCOW)].ppn != c.pt[s].ppn
    {
      assert FaultOk(c, q, c.envs[q].fault.value);
    }
  }

  lemma CopyLazyAgree(c: Machine, a: Eager, s: Slot, t: Slot)
    requires Agree(c, a) && CellsOk(a) && s in a.cell && t.vpn != UCOW && !HalfDone(c, t)
    ensures Agree(SetPte(c, t, c.pt[s]), NewCell(a, t, a.val[a.cell[s]], false))
  {
    var c' := SetPte(c, t, c.pt[s]);
    assert forall x | x != t :: InView(c', x) <==> InView(c, x);
  }

  lemma CopyLazySharing(c: Machine, a: Eager, s: Slot, t: Slot, page: Page)
    requires SharingOk(c, a) && s in a.cell && s != t && Cow in c.pt[s].perm
    ensures SharingOk(SetPte(c, t, c.pt[s]), NewCell(a, t, page, false))
  {
    var c', a' := SetPte(c, t, c.pt[s]), NewCell(a, t, page, false);
    assert SharedCells(c', a');
    assert SharedPages(c', a') by {
      forall x | x in a.cell && x in c.pt && x != t && c.pt[x].ppn == c.pt[s].ppn ensures Cow in c.pt[x].perm {
      }
    }
  }

  lemma DupWholeSim(c: Machine, a: Eager, p: nat, child: nat, vpn: nat)
    requires Sim(c, a) && AtPage(c, p, child, vpn, false) && Slot(p, vpn) in c.pt
    requires MapsAsIs(c.pt[Slot(p, vpn)].perm)
    ensures Sim(SetDup(SetPte(c, Slot(child, vpn), c.pt[Slot(p, vpn)]), p, Some(Dup(child, vpn + 1, false))),
                Inherit(a, Slot(p, vpn), Slot(child, vpn)))
  {
    var s, t := Slot(p, vpn), Slot(child, vpn);
    ActiveUnguarded(c, s);
    assert InView(c, s);
    ChildLoose(c, p, Dup(child, vpn, false));
    var c1 := SetPte(c, t, c.pt[s]);
    if s in a.lib {
      ShareSim(c, a, s, t, c.pt[s].perm);
    } else {
      assert DupOk(c, p, Dup(child, vpn, false));
      CopyLazyAgree(c, a, s, t);
      CopyLazySharing(c, a, s, t, a.val[a.cell[s]]);
      EntryFrame(c, c1, t);
    }
    DupPcSim(c1, Inherit(a, s, t), p, Dup(child, vpn, false), Dup(child, vpn + 1, false));
  }

  lemma HalfGuarded(c: Machine, x: Slot)
    requires EnvsOk(c)
    ensures HalfDone(c, x) && x in c.pt ==> !Unguarded(c, c.pt[x].ppn)
  {
    if HalfDone(c, x) {
      assert DupOk(c, c.envs[x.proc].parent, c.envs[c.envs[x.proc].parent].dup.value);
    }
  }

  /** A private writable page of an environment that is neither faulting nor between the two
      calls of `duppage` has no other mapping, in any address space. */
  lemma PrivateAlone(c: Machine, a: Eager, s: Slot)
    requires Sim(c, a) && Active(c, s.proc) && Has(c, s, W) && !Has(c, s, Lib)
    requires c.envs[s.proc].dup.Some? ==> !c.envs[s.proc].dup.value.half
    ensures OnlyAt(c, c.pt[s].ppn, s, s)
  {
    ActiveUnguarded(c, s);
    assert InView(c, s);
    forall x | x in c.pt && c.pt[x].ppn == c.pt[s].ppn ensures x == s {
      HalfGuarded(c, x);
      if InView(c, x) {
        WriterShares(c, a, s, x);
      }
    }
  }

  lemma DupHalfEnvs(c: Machine, p: nat, child: nat, vpn: nat)
    requires EnvsOk(c) && AtPage(c, p, child, vpn, false) && Has(c, Slot(p, vpn), W) && !Has(c, Slot(p, vpn), Lib)
    requires vpn != UCOW && OnlyAt(c, c.pt[Slot(p, vpn)].ppn, Slot(p, vpn), Slot(p, vpn))
    ensures EnvsOk(SetDup(SetPte(c, Slot(child, vpn), Pte(c.pt[Slot(p, vpn)].ppn, Lazy(c.pt[Slot(p, vpn)].perm))),
                          p, Some(Dup(child, vpn, true))))
  {
    var s, t := Slot(p, vpn), Slot(child, vpn);
    assert DupOk(c, p, Dup(child, vpn, false));
    ActiveUnguarded(c, s);
    ChildLoose(c, p, Dup(child, vpn, false));
    var c1 := SetPte(c, t, Pte(c.pt[s].ppn, Lazy(c.pt[s].perm)));
    EntryFrame(c, c1, t);
    DupPcEnvs(c1, c1, p, Some(Dup(child, vpn, true)));
  }

  lemma DupHalfAgree(c: Machine, a: Eager, p: nat, child: nat, vpn: nat, e: Pte)
    requires Agree(c, a) && p in c.envs && child in c.envs && child != p && c.envs[child].parent == p && vpn != UCOW
    requires c.envs[p].dup == Some(Dup(child, vpn, false))
    ensures Agree(SetDup(SetPte(c, Slot(child, vpn), e), p, Some(Dup(child, vpn, true))), Drop(a, Slot(child, vpn)))
  {
    var c' := SetDup(SetPte(c, Slot(child, vpn), e), p, Some(Dup(child, vpn, true)));
    forall s | s != Slot(child, vpn) ensures InView(c', s) <==> InView(c, s) {
    }
    assert HalfDone(c', Slot(child, vpn));
  }

  lemma DropSharing(c: Machine, a: Eager, t: Slot, e: Pte)
    requires SharingOk(c, a) && e.ppn in c.phys && Cow in e.perm && W !in e.perm && Lib !in e.perm
    ensures SharingOk(SetPte(c, t, e), Drop(a, t))
  {
  }

  lemma DupHalfSim(c: Machine, a: Eager, p: nat, child: nat, vpn: nat)
    requires Sim(c, a) && AtPage(c, p, child, vpn, false) && Slot(p, vpn) in c.pt
    requires !MapsAsIs(c.pt[Slot(p, vpn)].perm)
    ensures Sim(SetDup(SetPte(c, Slot(child, vpn), Pte(c.pt[Slot(p, vpn)].ppn, Lazy(c.pt[Slot(p, vpn)].perm))),
                       p, Some(Dup(child, vpn, true))), Drop(a, Slot(child, vpn)))
  {
    var s, t := Slot(p, vpn), Slot(child, vpn);
    assert DupOk(c, p, Dup(child, vpn, false));
    ActiveUnguarded(c, s);
    PrivateAlone(c, a, s);
    DupHalfEnvs(c, p, child, vpn);
    DupHalfAgree(c, a, p, child, vpn, Pte(c.pt[s].ppn, Lazy(c.pt[s].perm)));
    DropSharing(c, a, t, Pte(c.pt[s].ppn, Lazy(c.pt[s].perm)));
  }

  lemma DupRemapEnvs(c: Machine, p: nat, child: nat, vpn: nat)
    requires EnvsOk(c) && AtPage(c, p, child, vpn, true)
    requires HalfOk(c, Slot(p, vpn), Slot(child, vpn))
    ensures EnvsOk(SetDup(SetPte(c, Slot(p, vpn), Pte(c.pt[Slot(p, vpn)].ppn, Lazy(c.pt[Slot(p, vpn)].perm))),
                          p, Some(Dup(child, vpn + 1, false))))
  {
    var s := Slot(p, vpn);
    var c1 := SetPte(c, s, Pte(c.pt[s].ppn, Lazy(c.pt[s].perm)));
    assert DupOk(c, p, Dup(child, vpn, true));
    forall q | q in c.envs && q != p && c.envs[q].dup.Some? ensures DupOk(c1, q, c.envs[q].dup.value) {
      assert DupOk(c, q, c.envs[q].dup.value);
      DupFrame(c, c1, q, c.envs[q].dup.value);
    }
    forall q | q in c.envs && c.envs[q].fault.Some? ensures FaultOk(c1, q, c.envs[q].fault.value) {
      assert FaultOk(c, q, c.envs[q].fault.value);
      FaultFrame(c, c1, q, c.envs[q].fault.value);
    }
    DupPcEnvs(c, c1, p, Some(Dup(child, vpn + 1, false)));
  }

  lemma DupRemapAgree(c: Machine, a: Eager, p: nat, child: nat, vpn: nat)
    requires Agree(c, a) && CellsOk(a) && AtPage(c, p, child, vpn, true)
    requires child in c.envs && child != p && c.envs[child].parent == p
    requires HalfOk(c, Slot(p, vpn), Slot(child, vpn)) && Slot(p, vpn) in a.cell
    ensures Agree(SetDup(SetPte(c, Slot(p, vpn), Pte(c.pt[Slot(p, vpn)].ppn, Lazy(c.pt[Slot(p, vpn)].perm))),
                         p, Some(Dup(child, vpn + 1, false))),
                  NewCell(a, Slot(child, vpn), a.val[a.cell[Slot(p, vpn)]], false))
  {
    var s, t := Slot(p, vpn), Slot(child, vpn);
    var c' := SetDup(SetPte(c, s, Pte(c.pt[s].ppn, Lazy(c.pt[s].perm))), p, Some(Dup(child, vpn + 1, false)));
    forall x | x != t ensures InView(c', x) <==> InView(c, x) {
    }
    assert !HalfDone(c', t);
  }

  lemma RemapCells(c: Machine, a: Eager, s: Slot, t: Slot, page: Page)
    requires CellsOk(a) && SharedCells(c, a) && HalfOk(c, s, t) && s in a.cell && t !in a.cell
    ensures var a' := NewCell(a, t, page, false);
            CellsOk(a') && SharedCells(SetPte(c, s, Pte(c.pt[s].ppn, Lazy(c.pt[s].perm))), a')
  {
  }

  lemma RemapPages(c: Machine, a: Eager, s: Slot, t: Slot, page: Page)
    requires SharedPages(c, a) && HalfOk(c, s, t) && s in a.cell && t !in a.cell
    ensures SharedPages(SetPte(c, s, Pte(c.pt[s].ppn, Lazy(c.pt[s].perm))), NewCell(a, t, page, false))
  {
  }

  lemma RemapEntries(c: Machine, s: Slot)
    requires EntriesOk(c) && PrivateOk(c) && s in c.pt && Lib !in c.pt[s].perm
    ensures var c' := SetPte(c, s, Pte(c.pt[s].ppn, Lazy(c.pt[s].perm))); EntriesOk(c') && PrivateOk(c')
  {
  }

  lemma DupRemapSharing(c: Machine, a: Eager, s: Slot, t: Slot, page: Page)
    requires SharingOk(c, a) && HalfOk(c, s, t) && s in a.cell && t !in a.cell
    ensures SharingOk(SetPte(c, s, Pte(c.pt[s].ppn, Lazy(c.pt[s].perm))), NewCell(a, t, page, false))
  {
    RemapCells(c, a, s, t, page);
    RemapPages(c, a, s, t, page);
    RemapEntries(c, s);
  }

  lemma RemapView(c: Machine, a: Eager, p: nat, child: nat, vpn: nat)
    requires Sim(c, a) && AtPage(c, p, child, vpn, true) && Slot(p, vpn) in c.pt
    ensures HalfOk(c, Slot(p, vpn), Slot(child, vpn))
    ensures Slot(p, vpn) in a.cell && a.cell[Slot(p, vpn)] in a.val && Slot(child, vpn) !in a.cell
    ensures Slot(p, vpn) !in a.lib
  {
    var s, t := Slot(p, vpn), Slot(child, vpn);
    assert DupOk(c, p, Dup(child, vpn, true));
    NotHalf(c, s);
    assert InView(c, s) && HalfDone(c, t) && !InView(c, t);
  }

  /** The parent's entry becomes copy-on-write; what programs see and share stays in order. */
  lemma DupRemapMemory(c: Machine, a: Eager, p: nat, child: nat, vpn: nat)
    requires Agree(c, a) && SharingOk(c, a) && AtPage(c, p, child, vpn, true)
    requires child in c.envs && child != p && c.envs[child].parent == p
    requires HalfOk(c, Slot(p, vpn), Slot(child, vpn)) && Slot(p, vpn) in a.cell && Slot(child, vpn) !in a.cell
    ensures var c' := SetDup(SetPte(c, Slot(p, vpn), Pte(c.pt[Slot(p, vpn)].ppn, Lazy(c.pt[Slot(p, vpn)].perm))),
                             p, Some(Dup(child, vpn + 1, false)));
            var a' := NewCell(a, Slot(child, vpn), a.val[a.cell[Slot(p, vpn)]], false);
            Agree(c', a') && SharingOk(c', a')
  {
    DupRemapAgree(c, a, p, child, vpn);
    DupRemapSharing(c, a, Slot(p, vpn), Slot(child, vpn), a.val[a.cell[Slot(p, vpn)]]);
  }

  lemma DupRemapSim(c: Machine, a: Eager, p: nat, child: nat, vpn: nat)
    requires Sim(c, a) && AtPage(c, p, child, vpn, true) && Slot(p, vpn) in c.pt
    ensures Sim(SetDup(SetPte(c, Slot(p, vpn), Pte(c.pt[Slot(p, vpn)].ppn, Lazy(c.pt[Slot(p, vpn)].perm))),
                       p, Some(Dup(child, vpn + 1, false))), Inherit(a, Slot(p, vpn), Slot(child, vpn)))
  {
    RemapView(c, a, p, child, vpn);
    assert DupOk(c, p, Dup(child, vpn, true));
    DupRemapEnvs(c, p, child, vpn);
    DupRemapMemory(c, a, p, child, vpn);
  }

  lemma ForkDoneEnvs(c: Machine, p: nat, d: Dup)
    requires EnvsOk(c) && p in c.envs && c.envs[p].dup == Some(d) && d.child in c.envs
    ensures EnvsOk(DoForkDone(c, p, d.child))
  {
    var c' := DoForkDone(c, p, d.child);
    assert DupOk(c, p, d);
    forall q | q in c'.envs && c'.envs[q].dup.Some? ensures DupOk(c', q, c'.envs[q].dup.value) {
      assert DupOk(c, q, c.envs[q].dup.value);
      DupFrame(c, c', q, c.envs[q].dup.value);
    }
    forall q | q in c'.envs && c'.envs[q].fault.Some? ensures FaultOk(c', q, c'.envs[q].fault.value) {
      FaultFrame(c, c', q, c.envs[q].fault.value);
    }
  }

  lemma ForkDoneAgree(c: Machine, a: Eager, p: nat, d: Dup)
    requires Agree(c, a) && p in c.envs && c.envs[p].dup == Some(d) && !d.half && d.child in c.envs
    requires d.child != p && c.envs[d.child].dup.None?
    ensures Agree(DoForkDone(c, p, d.child), a)
  {
    var c' := DoForkDone(c, p, d.child);
    forall s ensures InView(c', s) <==> InView(c, s) {
    }
  }

  lemma ForkDoneSim(c: Machine, a: Eager, p: nat, d: Dup)
    requires Sim(c, a) && p in c.envs && c.envs[p].dup == Some(d) && !d.half && d.child in c.envs
    ensures Sim(DoForkDone(c, p, d.child), a)
  {
    assert DupOk(c, p, d);
    ForkDoneEnvs(c, p, d);
    ForkDoneAgree(c, a, p, d);
    assert SharingOk(DoForkDone(c, p, d.child), a);
  }

  // ----- every event, every run -----

  /** A slot that an idle environment names in a system call. */
  lemma IdleLoose(c: Machine, s: Slot)
    requires EnvsOk(c) && Idle(c, s.proc) && s.vpn != UCOW
    ensures Loose(c, s) && !HalfDone(c, s)
  {
    NotHalf(c, s);
    forall q | q in c.envs && c.envs[q].dup.Some? ensures c.envs[q].dup.value.child != s.proc {
      assert DupOk(c, q, c.envs[q].dup.value);
    }
  }

  /** A store that faults because nothing is mapped can be at any page but a guarded one. */
  lemma UnmappedLoose(c: Machine, s: Slot)
    requires EnvsOk(c) && Active(c, s.proc) && s.vpn != UCOW && s !in c.pt
    ensures Loose(c, s) && !HalfDone(c, s)
  {
    NotHalf(c, s);
    forall q | q in c.envs && c.envs[q].dup.Some? && c.envs[q].dup.value.half
      ensures s != Slot(q, c.envs[q].dup.value.next) && s != Slot(c.envs[q].dup.value.child, c.envs[q].dup.value.next)
    {
      assert DupOk(c, q, c.envs[q].dup.value);
    }
  }

  lemma UserStepSim(c: Machine, a: Eager, e: Event)
    requires Sim(c, a) && Enabled(c, e) && (e.Store? || e.GrantWrite? || e.ZeroFill?)
    ensures Sim(Step(c, e), EagerStep(a, e))
  {
    NotHalf(c, Slot(e.p, e.vpn));
    match e
    case Store(p, vpn, off, v) =>
      assert InView(c, Slot(p, vpn));
      StoreSim(c, a, Slot(p, vpn), off, v);
    case GrantWrite(p, vpn) =>
      GrantSim(c, a, Slot(p, vpn));
    case ZeroFill(p, vpn, page) =>
      UnmappedLoose(c, Slot(p, vpn));
      MapZeroSim(c, a, Slot(p, vpn), page, {R, W, U});
  }

  predicate FaultEvent(e: Event) {
    e.FaultEnter? || e.FaultAlloc? || e.FaultCopy? || e.FaultMap? || e.FaultUnmap?
  }

  lemma FaultStepSim(c: Machine, a: Eager, e: Event)
    requires Sim(c, a) && Enabled(c, e) && FaultEvent(e)
    ensures Sim(Step(c, e), EagerStep(a, e))
  {
    match e
    case FaultEnter(p, vpn) => FaultEnterSim(c, a, p, vpn);
    case FaultAlloc(p, page) => FaultAllocSim(c, a, p, page, c.envs[p].fault.value.vpn);
    case FaultCopy(p) => FaultCopySim(c, a, p, c.envs[p].fault.value.vpn, c.envs[p].fault.value.done);
    case FaultMap(p) => FaultMapSim(c, a, p, c.envs[p].fault.value.vpn);
    case FaultUnmap(p) => FaultUnmapSim(c, a, p, c.envs[p].fault.value.vpn);
  }

  predicate ForkEvent(e: Event) {
    e.Exofork? || e.DupSkip? || e.ForkDone?
  }

  lemma ForkStepSim(c: Machine, a: Eager, e: Event)
    requires Sim(c, a) && Enabled(c, e) && ForkEvent(e)
    ensures Sim(Step(c, e), EagerStep(a, e))
  {
    match e
    case Exofork(p, child, page) => ExoforkSim(c, a, p, child, page);
    case DupSkip(p) =>
      var d := c.envs[p].dup.value;
      assert c.envs[p].dup == Some(d) && EagerStep(a, e) == a;
      assert Step(c, e) == SetDup(c, p, Some(Dup(d.child, d.next + 1, false)));
      DupPcSim(c, a, p, d, Dup(d.child, d.next + 1, false));
    case ForkDone(p) => ForkDoneSim(c, a, p, c.envs[p].dup.value);
  }

  predicate DuppageEvent(e: Event) {
    e.DupWhole? || e.DupHalf? || e.DupRemap?
  }

  lemma DupWholeStep(c: Machine, a: Eager, p: nat, child: nat, vpn: nat)
    requires Sim(c, a) && Enabled(c, DupWhole(p, child, vpn))
    ensures Sim(Step(c, DupWhole(p, child, vpn)), EagerStep(a, DupWhole(p, child, vpn)))
  {
    DupWholeSim(c, a, p, child, vpn);
  }

  lemma DupHalfStep(c: Machine, a: Eager, p: nat, child: nat, vpn: nat)
    requires Sim(c, a) && Enabled(c, DupHalf(p, child, vpn))
    ensures Sim(Step(c, DupHalf(p, child, vpn)), EagerStep(a, DupHalf(p, child, vpn)))
  {
    DupHalfSim(c, a, p, child, vpn);
  }

  lemma DupRemapStep(c: Machine, a: Eager, p: nat, child: nat, vpn: nat)
    requires Sim(c, a) && Enabled(c, DupRemap(p, child, vpn))
    ensures Sim(Step(c, DupRemap(p, child, vpn)), EagerStep(a, DupRemap(p, child, vpn)))
  {
    DupRemapSim(c, a, p, child, vpn);
  }

  lemma DuppageStepSim(c: Machine, a: Eager, e: Event)
    requires Sim(c, a) && Enabled(c, e) && DuppageEvent(e)
    ensures Sim(Step(c, e), EagerStep(a, e))
  {
    match e
    case DupWhole(p, child, vpn) => DupWholeStep(c, a, p, child, vpn);
    case DupHalf(p, child, vpn) => DupHalfStep(c, a, p, child, vpn);
    case DupRemap(p, child, vpn) => DupRemapStep(c, a, p, child, vpn);
  }

  lemma CallStepSim(c: Machine, a: Eager, e: Event)
    requires Sim(c, a) && Enabled(c, e) && (e.MemAlloc? || e.MemShare? || e.MemUnmap? || e.Exit?)
    ensures Sim(Step(c, e), EagerStep(a, e))
  {
    match e
    case MemAlloc(p, vpn, page, perm) =>
      IdleLoose(c, Slot(p, vpn));
      MapZeroSim(c, a, Slot(p, vpn), page, perm);
    case MemShare(p, vpn, q, dst, perm) =>
      IdleLoose(c, Slot(q, dst));
      NotHalf(c, Slot(p, vpn));
      ShareSim(c, a, Slot(p, vpn), Slot(q, dst), perm);
    case MemUnmap(p, vpn) =>
      IdleLoose(c, Slot(p, vpn));
      UnmapSim(c, a, Slot(p, vpn));
    case Exit(p) => ExitSim(c, a, p);
  }

  lemma StepSim(c: Machine, a: Eager, e: Event)
    requires Sim(c, a) && Enabled(c, e)
    ensures Sim(Step(c, e), EagerStep(a, e))
  {
    if FaultEvent(e) {
      FaultStepSim(c, a, e);
    } else if ForkEvent(e) {
      ForkStepSim(c, a, e);
    } else if DuppageEvent(e) {
      DuppageStepSim(c, a, e);
    } else if e.Load? {
    } else if e.Store? || e.GrantWrite? || e.ZeroFill? {
      UserStepSim(c, a, e);
    } else {
      CallStepSim(c, a, e);
    }
  }

  /** The main result: on every run, every program sees the memory it would have seen had fork
      copied eagerly. */
  lemma {:induction false} CowRefinesEager(c: Machine, a: Eager, es: seq<Event>)
    requires Sim(c, a) && ValidRun(c, es)
    ensures Sim(Run(c, es), EagerRun(a, es))
    decreases |es|
  {
    if es != [] {
      StepSim(c, a, es[0]);
      CowRefinesEager(Step(c, es[0]), EagerStep(a, es[0]), es[1..]);
    }
  }

  /** The byte a `Load` returns, on either machine. */
  ghost function Observed(c: Machine, es: seq<Event>): seq<int>
    requires ValidRun(c, es)
    decreases |es|
  {
    if es == [] then [] else
    var rest := Observed(Step(c, es[0]), es[1..]);
    if es[0].Load? && c.pt[Slot(es[0].p, es[0].vpn)].ppn in c.phys
    then [c.phys[c.pt[Slot(es[0].p, es[0].vpn)].ppn][es[0].off]] + rest else rest
  }

  ghost function EagerObserved(a: Eager, es: seq<Event>): seq<int>
    decreases |es|
  {
    if es == [] then [] else
    var rest := EagerObserved(EagerStep(a, es[0]), es[1..]);
    if es[0].Load? && Slot(es[0].p, es[0].vpn) in a.cell && a.cell[Slot(es[0].p, es[0].vpn)] in a.val
        && es[0].off < PGSIZE
    then [a.val[a.cell[Slot(es[0].p, es[0].vpn)]][es[0].off]] + rest else rest
  }

  /** No program can tell the difference: the loads of a run return the same bytes. */
  lemma {:induction false} SameLoads(c: Machine, a: Eager, es: seq<Event>)
    requires Sim(c, a) && ValidRun(c, es)
    ensures Observed(c, es) == EagerObserved(a, es)
    decreases |es|
  {
    if es != [] {
      StepSim(c, a, es[0]);
      SameLoads(Step(c, es[0]), EagerStep(a, es[0]), es[1..]);
      if es[0].Load? {
        NotHalf(c, Slot(es[0].p, es[0].vpn));
        assert InView(c, Slot(es[0].p, es[0].vpn));
      }
    }
  }

  /** A store reaches exactly the slots that share its cell; for a private page that is the
      storing slot alone. */
  lemma StoreReach(c: Machine, a: Eager, p: nat, vpn: nat, off: nat, v: int, t: Slot)
    requires Sim(c, a) && Enabled(c, Store(p, vpn, off, v)) && InView(c, t)
    ensures var c' := Step(c, Store(p, vpn, off, v));
            && Slot(p, vpn) in a.cell && t in a.cell && c.pt[t].ppn in c.phys && c.pt[t].ppn in c'.phys
            && c'.phys[c.pt[t].ppn] ==
               if a.cell[t] == a.cell[Slot(p, vpn)] then c.phys[c.pt[t].ppn][off := v] else c.phys[c.pt[t].ppn]
    ensures Slot(p, vpn) !in a.lib && t != Slot(p, vpn) ==> a.cell[t] != a.cell[Slot(p, vpn)]
  {
    var s := Slot(p, vpn);
    NotHalf(c, s);
    assert InView(c, s);
    if c.pt[t].ppn == c.pt[s].ppn {
      WriterShares(c, a, s, t);
    }
  }

  /** A page mapped copy-on-write is writable somewhere exactly in the window between the two
      calls of `duppage`, and then only through the parent's entry for the same page. */
  lemma CowWritableOnlyHalfway(c: Machine, a: Eager, s: Slot)
    requires Sim(c, a) && Has(c, s, Cow)
    ensures (exists t :: Has(c, t, W) && c.pt[t].ppn == c.pt[s].ppn) <==> HalfDone(c, s)
    ensures forall t :: Has(c, t, W) && c.pt[t].ppn == c.pt[s].ppn ==>
              HalfDone(c, s) && !c.envs[s.proc].started && t == Slot(c.envs[s.proc].parent, s.vpn)
  {
    if HalfDone(c, s) {
      var q := c.envs[s.proc].parent;
      assert DupOk(c, q, c.envs[q].dup.value);
      assert Has(c, Slot(q, s.vpn), W);
    }
    forall t | Has(c, t, W) && c.pt[t].ppn == c.pt[s].ppn
      ensures HalfDone(c, s) && !c.envs[s.proc].started && t == Slot(c.envs[s.proc].parent, s.vpn)
    {
      CowWriter(c, a, s, t);
    }
  }

  lemma CowWriter(c: Machine, a: Eager, s: Slot, t: Slot)
    requires Sim(c, a) && Has(c, s, Cow) && Has(c, t, W) && c.pt[t].ppn == c.pt[s].ppn
    ensures HalfDone(c, s) && !c.envs[s.proc].started && t == Slot(c.envs[s.proc].parent, s.vpn)
  {
    CowNotScratch(c, s);
    CowNotScratch(c, t);
    assert !HalfDone(c, t) by {
      HalfIsLazy(c, t);
    }
    assert InView(c, t);
    if !HalfDone(c, s) {
      assert InView(c, s);
      WriterShares(c, a, t, s);
    }
    HalfIsLazy(c, s);
  }

  lemma HalfIsLazy(c: Machine, s: Slot)
    requires EnvsOk(c)
    ensures HalfDone(c, s) ==>
              && !Has(c, s, W) && !c.envs[s.proc].started
              && s in c.pt && OnlyAt(c, c.pt[s].ppn, Slot(c.envs[s.proc].parent, s.vpn), s)
  {
    if HalfDone(c, s) {
      assert DupOk(c, c.envs[s.proc].parent, c.envs[c.envs[s.proc].parent].dup.value);
    }
  }

  /** The handler's scratch page never shares a physical page with a copy-on-write entry. */
  lemma CowNotScratch(c: Machine, s: Slot)
    requires EnvsOk(c) && EntriesOk(c) && s in c.pt && (exists t :: Has(c, t, Cow) && c.pt[t].ppn == c.pt[s].ppn)
    ensures s.vpn != UCOW
  {
  }

  // ----- where runs start, and what happens without the hypothesis -----

  const NPAGE: nat := 65536

  /** A state without sharing other than of library pages: what the loader and `pipe` set up. */
  ghost predicate Plain(c: Machine) {
    && (forall p | p in c.envs :: c.envs[p].started && c.envs[p].dup.None? && c.envs[p].fault.None?)
    && (forall n | n in c.phys :: n < NPAGE)
    && (forall s | s in c.pt ::
          && s.proc in c.envs && s.vpn < LIMIT && s.vpn != UCOW
          && c.pt[s].ppn in c.phys && Cow !in c.pt[s].perm)
    && (forall s, t | s in c.pt && t in c.pt && s != t && c.pt[s].ppn == c.pt[t].ppn ::
          Lib in c.pt[s].perm && Lib in c.pt[t].perm)
  }

  /** The eager view of a plain state: one cell for each physical page. */
  function Boot(c: Machine): Eager {
    Eager(map s | s in c.pt :: c.pt[s].ppn, c.phys, (set s | s in c.pt && Lib in c.pt[s].perm), NPAGE)
  }

  lemma BootRelated(c: Machine)
    requires Plain(c)
    ensures Related(c, Boot(c))
  {
    assert forall s :: InView(c, s) <==> s in c.pt;
  }

  /** A private mapping that a store fault would simply make writable (kern/traps.c:143-147). */
  predicate ReadOnlyPrivate(c: Machine, s: Slot) {
    s in c.pt && W !in c.pt[s].perm && Cow !in c.pt[s].perm && Lib !in c.pt[s].perm && c.pt[s].ppn in c.phys
  }

  lemma Prepend(c: Machine, a: Eager, e: Event, rest: seq<Event>)
    requires Enabled(c, e) && ValidRun(Step(c, e), rest)
    ensures ValidRun(c, [e] + rest)
    ensures Run(c, [e] + rest) == Run(Step(c, e), rest)
    ensures EagerRun(a, [e] + rest) == EagerRun(EagerStep(a, e), rest)
  {
    assert ([e] + rest)[1..] == rest;
  }

  /** The fork loop of `p` is on its way to such a page. */
  ghost predicate Doomed(c: Machine, a: Eager, p: nat, child: nat, k: nat, v: nat) {
    && Active(c, p) && c.envs[p].dup == Some(Dup(child, k, false)) && k <= v < LIMIT && v != UCOW
    && child in c.envs && child != p && (forall q | q in c.envs && q != p :: c.envs[q].dup.None?)
    && ReadOnlyPrivate(c, Slot(p, v)) && Slot(p, v) !in a.lib && CellsOk(a)
  }

  lemma DoomedSkip(c: Machine, a: Eager, p: nat, child: nat, k: nat, v: nat)
    requires Doomed(c, a, p, child, k, v) && k < v && Slot(p, k) !in c.pt
    ensures Enabled(c, DupSkip(p)) && Doomed(Step(c, DupSkip(p)), EagerStep(a, DupSkip(p)), p, child, k + 1, v)
  {
  }

  lemma DoomedWhole(c: Machine, a: Eager, p: nat, child: nat, k: nat, v: nat)
    requires Doomed(c, a, p, child, k, v) && k < v && Slot(p, k) in c.pt && MapsAsIs(c.pt[Slot(p, k)].perm)
    ensures var e := DupWhole(p, child, k);
            Enabled(c, e) && Doomed(Step(c, e), EagerStep(a, e), p, child, k + 1, v)
  {
  }

  lemma DoomedHalf(c: Machine, a: Eager, p: nat, child: nat, k: nat, v: nat)
    requires Doomed(c, a, p, child, k, v) && k < v && Slot(p, k) in c.pt && !MapsAsIs(c.pt[Slot(p, k)].perm)
    ensures var e, e' := DupHalf(p, child, k), DupRemap(p, child, k);
            && Enabled(c, e) && Enabled(Step(c, e), e')
            && Doomed(Step(Step(c, e), e'), EagerStep(EagerStep(a, e), e'), p, child, k + 1, v)
  {
  }

  /** The fork loop can be driven to a private page that is neither writable nor copy-on-write,
      and the parent's next store there shows in the child. */
  lemma Diverge(c: Machine, a: Eager, p: nat, child: nat, k: nat, v: nat) returns (es: seq<Event>)
    requires Doomed(c, a, p, child, k, v)
    ensures ValidRun(c, es) && !Agree(Run(c, es), EagerRun(a, es))
    decreases v - k
  {
    if !Agree(c, a) {
      es := [];
    } else if k == v {
      es := DivergeHere(c, a, p, child, v);
    } else if Slot(p, k) !in c.pt {
      DoomedSkip(c, a, p, child, k, v);
      var rest := Diverge(Step(c, DupSkip(p)), EagerStep(a, DupSkip(p)), p, child, k + 1, v);
      Prepend(c, a, DupSkip(p), rest);
      es := [DupSkip(p)] + rest;
    } else if MapsAsIs(c.pt[Slot(p, k)].perm) {
      var e := DupWhole(p, child, k);
      DoomedWhole(c, a, p, child, k, v);
      var rest := Diverge(Step(c, e), EagerStep(a, e), p, child, k + 1, v);
      Prepend(c, a, e, rest);
      es := [e] + rest;
    } else {
      var e, e' := DupHalf(p, child, k), DupRemap(p, child, k);
      DoomedHalf(c, a, p, child, k, v);
      var rest := Diverge(Step(Step(c, e), e'), EagerStep(EagerStep(a, e), e'), p, child, k + 1, v);
      Prepend(Step(c, e), EagerStep(a, e), e', rest);
      Prepend(c, a, e, [e'] + rest);
      es := [e] + ([e'] + rest);
    }
  }

  lemma DivergeHere(c: Machine, a: Eager, p: nat, child: nat, v: nat) returns (es: seq<Event>)
    requires Agree(c, a) && Doomed(c, a, p, child, v, v)
    ensures ValidRun(c, es) && !Agree(Run(c, es), EagerRun(a, es))
  {
    var s, t := Slot(p, v), Slot(child, v);
    assert InView(c, s);
    var x := a.val[a.cell[s]][0] + 1;
    var e0, e1, e2 := DupWhole(p, child, v), GrantWrite(p, v), Store(p, v, 0, x);
    var c1, a1 := Step(c, e0), EagerStep(a, e0);
    var c2 := Step(c1, e1);
    var c3, a3 := Step(c2, e2), EagerStep(a1, e2);
    Prepend(c2, a1, e2, []);
    Prepend(c1, a1, e1, [e2] + []);
    Prepend(c, a, e0, [e1] + ([e2] + []));
    es := [e0] + ([e1] + ([e2] + []));
    assert c3.phys[c3.pt[t].ppn][0] == x;
    assert InView(c3, t);
    assert a1.cell[t] == a.next && a1.cell[s] != a.next;
    assert a3.val[a3.cell[t]][0] == x - 1;
  }

  lemma DivergeFrom(c: Machine, page: nat, child: nat, s: Slot) returns (es: seq<Event>)
    requires Plain(c) && Fresh(c, page) && child !in c.envs && ReadOnlyPrivate(c, s)
    ensures ValidRun(c, es) && !Agree(Run(c, es), EagerRun(Boot(c), es))
  {
    var e := Exofork(s.proc, child, page);
    var c1, a1 := Step(c, e), EagerStep(Boot(c), e);
    assert CellsOk(a1) && s !in a1.lib;
    assert ReadOnlyPrivate(c1, s);
    var rest := Diverge(c1, a1, s.proc, child, 0, s.vpn);
    Prepend(c, Boot(c), e, rest);
    es := [e] + rest;
  }

  /** Copy-on-write is faithful to eager copying on every run from a plain state exactly when
      every private mapping is writable: a caller can check that before the first fork. The free
      page and the free environment id only say that a fork is possible at all. */
  lemma FaithfulIffPrivateWritable(c: Machine, page: nat, child: nat)
    requires Plain(c) && Fresh(c, page) && child !in c.envs
    ensures (forall es | ValidRun(c, es) :: Agree(Run(c, es), EagerRun(Boot(c), es))) <==> PrivateOk(c)
  {
    if PrivateOk(c) {
      BootRelated(c);
      forall es | ValidRun(c, es) ensures Agree(Run(c, es), EagerRun(Boot(c), es)) {
        CowRefinesEager(c, Boot(c), es);
      }
    } else {
      var s :| s in c.pt && !(W in c.pt[s].perm || Cow in c.pt[s].perm || Lib in c.pt[s].perm);
      var es := DivergeFrom(c, page, child, s);
      assert ValidRun(c, es) && !Agree(Run(c, es), EagerRun(Boot(c), es));
    }
  }
}
