/** How the models fit together: the mapping steps of the copy-on-write machine are the kernel's mapping
    calls seen through `page_lookup`, and the mailbox steps of the file-server protocol are the kernel's
    IPC calls. */
module Layers {
  import opened Options
  import C = CowFork
  import M = Pmap
  import E = Envs
  import F = FsRpc

  // ----- page tables -----

  /** The permission bits that module CowFork speaks of. */
  function Flags(perm: bv32): set<C.Flag> {
    (if perm & 0x2 != 0 then {C.R} else {}) + (if perm & 0x4 != 0 then {C.W} else {})
    + (if perm & 0x8 != 0 then {C.X} else {}) + (if perm & 0x10 != 0 then {C.U} else {})
    + (if perm & 0x100 != 0 then {C.Cow} else {}) + (if perm & 0x200 != 0 then {C.Lib} else {})
  }

  const NVPN: nat := 0x10_0000

  /** The entry the machine has at `s`, as an entry of the kernel shows it. */
  predicate Shows(c: C.Machine, s: C.Slot, e: M.Entry) {
    if e.Invalid? then s !in c.pt else s in c.pt && c.pt[s] == C.Pte(e.ppn, Flags(e.perm))
  }

  /** Every environment has a directory of its own, and its lookups are the machine's entries. */
  ghost predicate View(m: M.Mem, c: C.Machine, dirs: map<nat, nat>) {
    && (forall p, q | p in dirs && q in dirs && dirs[p] == dirs[q] :: p == q)
    && (forall p | p in dirs :: dirs[p] in m.roots)
    && (forall s | s in c.pt :: s.proc in dirs && s.vpn < NVPN)
    && (forall p, vpn: nat | p in dirs && vpn < NVPN :: Shows(c, C.Slot(p, vpn), M.Lookup(m, dirs[p], vpn * 0x1000)))
  }

  predicate Place(dirs: map<nat, nat>, t: C.Slot) { t.proc in dirs && t.vpn < NVPN }

  function Addr(t: C.Slot): nat { t.vpn * 0x1000 }

  function Dir(dirs: map<nat, nat>, t: C.Slot): nat
    requires t.proc in dirs
  {
    dirs[t.proc]
  }

  function EntryAt(m: M.Mem, dirs: map<nat, nat>, s: C.Slot): M.Entry
    requires s.proc in dirs
  {
    M.Lookup(m, Dir(dirs, s), Addr(s))
  }

  /** From `m` to `m'` the kernel's entry for `t` becomes `e`, and no other changes. */
  ghost predicate OneEntry(m: M.Mem, m': M.Mem, dirs: map<nat, nat>, t: C.Slot, e: M.Entry) {
    && m'.roots == m.roots
    && forall s | Place(dirs, s) :: EntryAt(m', dirs, s) == if s == t then e else EntryAt(m, dirs, s)
  }

  /** The machine with that entry. */
  function Put(c: C.Machine, t: C.Slot, e: M.Entry): C.Machine {
    if e.Invalid? then c.(pt := c.pt - {t}) else C.SetPte(c, t, C.Pte(e.ppn, Flags(e.perm)))
  }

  lemma ViewPut(m: M.Mem, m': M.Mem, c: C.Machine, dirs: map<nat, nat>, t: C.Slot, e: M.Entry)
    requires View(m, c, dirs) && Place(dirs, t) && OneEntry(m, m', dirs, t, e)
    ensures View(m', Put(c, t, e), dirs)
  {
    var c' := Put(c, t, e);
    forall p, vpn: nat | p in dirs && vpn < NVPN
      ensures Shows(c', C.Slot(p, vpn), M.Lookup(m', dirs[p], vpn * 0x1000))
    {
      var s := C.Slot(p, vpn);
      assert Place(dirs, s) && EntryAt(m', dirs, s) == if s == t then e else EntryAt(m, dirs, s);
      assert Shows(c, s, M.Lookup(m, dirs[p], vpn * 0x1000));
    }
  }

  /** Directories are not shared, so a slot is told by directory and page. */
  lemma SlotAt(dirs: map<nat, nat>, s: C.Slot, t: C.Slot)
    requires Place(dirs, s) && Place(dirs, t)
    requires forall p, q | p in dirs && q in dirs && dirs[p] == dirs[q] :: p == q
    ensures Dir(dirs, s) == Dir(dirs, t) && Addr(s) / 0x1000 == Addr(t) / 0x1000 <==> s == t
    ensures Addr(s) < 0x1_0000_0000 && Addr(t) < 0x1_0000_0000
  {
  }

  // ----- permission bits -----

  /** `perm |= PTE_COW; perm &= ~PTE_W` in `duppage`. */
  function Lending(w: bv32): bv32 { (w | 0x100) & !0x4 }

  /** `(perm & ~PTE_COW) | PTE_W` in `cow_entry`. */
  function Owning(w: bv32): bv32 { (w & !0x100) | 0x4 }

  /** The test of `duppage`. */
  predicate AsIs(w: bv32) { w & 0x4 == 0 || w & 0x200 == 0x200 || w & 0x100 == 0x100 }

  /** The bit operations of `duppage` and `cow_entry` on a permission word are what module CowFork does to the
      flags: the three-way test, PTE_COW set and PTE_W cleared, and the reverse. */
  lemma PermissionBits(perm: bv32)
    ensures AsIs(perm) <==> C.MapsAsIs(Flags(perm))
    ensures Flags(Lending(perm)) == C.Lazy(Flags(perm))
    ensures Flags(Owning(perm)) == C.Owned(Flags(perm))
    ensures Flags(perm & 0xc00003ff) == Flags(perm)
  {
    TestBits(perm);
    LazyBits(perm);
    LazyFlags(perm, Lending(perm));
    OwnedBits(perm);
    OwnedFlags(perm, Owning(perm));
    MaskBits(perm);
    SameFlags(perm, perm & 0xc00003ff);
  }

  predicate SameRest(a: bv32, b: bv32) {
    b & 0x2 == a & 0x2 && b & 0x8 == a & 0x8 && b & 0x10 == a & 0x10 && b & 0x200 == a & 0x200
  }

  lemma LazyFlags(a: bv32, b: bv32)
    requires SameRest(a, b) && b & 0x4 == 0 && b & 0x100 == 0x100
    ensures Flags(b) == C.Lazy(Flags(a))
  {
  }

  lemma OwnedFlags(a: bv32, b: bv32)
    requires SameRest(a, b) && b & 0x4 == 0x4 && b & 0x100 == 0
    ensures Flags(b) == C.Owned(Flags(a))
  {
  }

  lemma SameFlags(a: bv32, b: bv32)
    requires SameRest(a, b) && b & 0x4 == a & 0x4 && b & 0x100 == a & 0x100
    ensures Flags(b) == Flags(a)
  {
  }

  lemma TestBits(perm: bv32)
    ensures C.MapsAsIs(Flags(perm)) <==> perm & 0x4 == 0 || perm & 0x200 == 0x200 || perm & 0x100 == 0x100
  {
    assert perm & 0x200 == 0x200 || perm & 0x200 == 0;
    assert perm & 0x100 == 0x100 || perm & 0x100 == 0;
  }

  lemma MaskBits(perm: bv32)
    ensures (perm & 0xc00003ff) & 0x2 == perm & 0x2 && (perm & 0xc00003ff) & 0x4 == perm & 0x4
    ensures (perm & 0xc00003ff) & 0x8 == perm & 0x8 && (perm & 0xc00003ff) & 0x10 == perm & 0x10
    ensures (perm & 0xc00003ff) & 0x100 == perm & 0x100 && (perm & 0xc00003ff) & 0x200 == perm & 0x200
  {
  }

  lemma LazyBits(perm: bv32)
    ensures ((perm | 0x100) & !0x4) & 0x2 == perm & 0x2 && ((perm | 0x100) & !0x4) & 0x8 == perm & 0x8
    ensures ((perm | 0x100) & !0x4) & 0x10 == perm & 0x10 && ((perm | 0x100) & !0x4) & 0x200 == perm & 0x200
    ensures ((perm | 0x100) & !0x4) & 0x4 == 0 && ((perm | 0x100) & !0x4) & 0x100 == 0x100
  {
  }

  lemma OwnedBits(perm: bv32)
    ensures ((perm & !0x100) | 0x4) & 0x2 == perm & 0x2 && ((perm & !0x100) | 0x4) & 0x8 == perm & 0x8
    ensures ((perm & !0x100) | 0x4) & 0x10 == perm & 0x10 && ((perm & !0x100) | 0x4) & 0x200 == perm & 0x200
    ensures ((perm & !0x100) | 0x4) & 0x4 == 0x4 && ((perm & !0x100) | 0x4) & 0x100 == 0
  {
  }

  lemma MapChanges(m: M.Mem, dirs: map<nat, nat>, s: C.Slot, t: C.Slot, perm: bv32)
    requires M.Inv(m) && Place(dirs, s) && Place(dirs, t)
    requires forall p, q | p in dirs && q in dirs && dirs[p] == dirs[q] :: p == q
    requires M.Fits(m, M.MemMap(Dir(dirs, s), Addr(s), Dir(dirs, t), Addr(t), perm))
    ensures var (r, m') := M.EMemMap(m, Dir(dirs, s), Addr(s), Dir(dirs, t), Addr(t), perm);
            if r == M.Ok
            then EntryAt(m, dirs, s).Entry? && OneEntry(m, m', dirs, t, M.Entry(EntryAt(m, dirs, s).ppn, perm))
            else m' == m
  {
    var (r, m') := M.EMemMap(m, Dir(dirs, s), Addr(s), Dir(dirs, t), Addr(t), perm);
    SlotAt(dirs, s, t);
    M.MemMapLookup(m, Dir(dirs, s), Addr(s), Dir(dirs, t), Addr(t), perm, Dir(dirs, t), Addr(t));
    M.MapRoots(m, Dir(dirs, s), Addr(s), Dir(dirs, t), Addr(t), perm);
    if r == M.Ok {
      forall x | Place(dirs, x)
        ensures EntryAt(m', dirs, x) == if x == t then M.Entry(EntryAt(m, dirs, s).ppn, perm) else EntryAt(m, dirs, x)
      {
        SlotAt(dirs, x, t);
        M.MemMapLookup(m, Dir(dirs, s), Addr(s), Dir(dirs, t), Addr(t), perm, Dir(dirs, x), Addr(x));
      }
    }
  }

  /** `e_mem_map` is one entry written: the step of `duppage`, of the fault handler and of sharing. */
  lemma MapCall(m: M.Mem, c: C.Machine, dirs: map<nat, nat>, s: C.Slot, t: C.Slot, perm: bv32)
    requires M.Inv(m) && View(m, c, dirs) && Place(dirs, s) && Place(dirs, t)
    requires M.Fits(m, M.MemMap(Dir(dirs, s), Addr(s), Dir(dirs, t), Addr(t), perm))
    ensures var (r, m') := M.EMemMap(m, Dir(dirs, s), Addr(s), Dir(dirs, t), Addr(t), perm);
            if r == M.Ok
            then s in c.pt && View(m', C.SetPte(c, t, C.Pte(c.pt[s].ppn, Flags(perm))), dirs)
            else View(m', c, dirs)
  {
    var (r, m') := M.EMemMap(m, Dir(dirs, s), Addr(s), Dir(dirs, t), Addr(t), perm);
    MapChanges(m, dirs, s, t, perm);
    ShowsAt(m, c, dirs, s);
    if r == M.Ok { ViewPut(m, m', c, dirs, t, M.Entry(EntryAt(m, dirs, s).ppn, perm)); }
  }

  lemma ShowsAt(m: M.Mem, c: C.Machine, dirs: map<nat, nat>, s: C.Slot)
    requires View(m, c, dirs) && Place(dirs, s)
    ensures Shows(c, s, EntryAt(m, dirs, s))
  {
    assert s == C.Slot(s.proc, s.vpn) && Shows(c, C.Slot(s.proc, s.vpn), M.Lookup(m, dirs[s.proc], s.vpn * 0x1000));
  }

  /** How many pages it takes to map a new one at `t`. */
  function Needed(m: M.Mem, dirs: map<nat, nat>, t: C.Slot): nat
    requires t.proc in dirs && M.IsDir(m, Dir(dirs, t))
  {
    if m.words[Dir(dirs, t)][M.Pdx(Addr(t))].Invalid? then 2 else 1
  }

  lemma AllocChanges(m: M.Mem, dirs: map<nat, nat>, t: C.Slot, perm: bv32)
    requires M.Inv(m) && Place(dirs, t) && Dir(dirs, t) in m.roots
    requires forall p, q | p in dirs && q in dirs && dirs[p] == dirs[q] :: p == q
    ensures var (r, m') := M.EMemAlloc(m, Dir(dirs, t), Addr(t), perm);
            && (r == M.Ok <==> !M.IllegalVa(Addr(t)) && |m.free| >= Needed(m, dirs, t))
            && (r == M.Ok ==>
              && m.free != [] && M.Refs(m, m.free[0]) == {}
              && OneEntry(m, m', dirs, t, M.Entry(m.free[0], perm)))
  {
    var (r, m') := M.EMemAlloc(m, Dir(dirs, t), Addr(t), perm);
    SlotAt(dirs, t, t);
    M.MemAllocLookup(m, Dir(dirs, t), Addr(t), perm, Dir(dirs, t), Addr(t));
    M.AllocRoots(m, Dir(dirs, t), Addr(t), perm);
    if r == M.Ok {
      forall x | Place(dirs, x)
        ensures EntryAt(m', dirs, x) == if x == t then M.Entry(m.free[0], perm) else EntryAt(m, dirs, x)
      {
        SlotAt(dirs, x, t);
        M.MemAllocLookup(m, Dir(dirs, t), Addr(t), perm, Dir(dirs, x), Addr(x));
      }
    }
  }

  /** `e_mem_alloc` maps a page that no entry of the machine refers to. */
  lemma AllocCall(m: M.Mem, c: C.Machine, dirs: map<nat, nat>, t: C.Slot, perm: bv32)
    requires M.Inv(m) && View(m, c, dirs) && Place(dirs, t)
    ensures var (r, m') := M.EMemAlloc(m, Dir(dirs, t), Addr(t), perm);
            && (r == M.Ok <==> !M.IllegalVa(Addr(t)) && |m.free| >= Needed(m, dirs, t))
            && (r == M.Ok ==>
              && m.free != [] && C.Fresh(c, m.free[0])
              && View(m', C.SetPte(c, t, C.Pte(m.free[0], Flags(perm))), dirs))
  {
    var (r, m') := M.EMemAlloc(m, Dir(dirs, t), Addr(t), perm);
    AllocChanges(m, dirs, t, perm);
    if r == M.Ok {
      FreeIsFresh(m, c, dirs);
      ViewPut(m, m', c, dirs, t, M.Entry(m.free[0], perm));
    }
  }

  lemma FreeIsFresh(m: M.Mem, c: C.Machine, dirs: map<nat, nat>)
    requires View(m, c, dirs) && m.free != [] && M.Refs(m, m.free[0]) == {}
    ensures C.Fresh(c, m.free[0])
  {
    forall s | s in c.pt ensures c.pt[s].ppn != m.free[0] {
      ShowsAt(m, c, dirs, s);
      M.LookupRefers(m, Dir(dirs, s), Addr(s));
    }
  }

  lemma UnmapChanges(m: M.Mem, dirs: map<nat, nat>, t: C.Slot)
    requires M.Inv(m) && Place(dirs, t) && Dir(dirs, t) in m.roots
    requires forall p, q | p in dirs && q in dirs && dirs[p] == dirs[q] :: p == q
    ensures var (r, m') := M.EMemUnmap(m, Dir(dirs, t), Addr(t));
            && (r == M.Ok <==> !M.IllegalVa(Addr(t)))
            && if r == M.Ok then OneEntry(m, m', dirs, t, M.Invalid) else m' == m
  {
    M.RemoveSpec(m, Dir(dirs, t), Addr(t));
    SlotAt(dirs, t, t);
    M.MemUnmapLookup(m, Dir(dirs, t), Addr(t), Dir(dirs, t), Addr(t));
    var (r, m') := M.EMemUnmap(m, Dir(dirs, t), Addr(t));
    if r == M.Ok {
      forall x | Place(dirs, x) ensures EntryAt(m', dirs, x) == if x == t then M.Invalid else EntryAt(m, dirs, x) {
        SlotAt(dirs, x, t);
        M.MemUnmapLookup(m, Dir(dirs, t), Addr(t), Dir(dirs, x), Addr(x));
      }
    }
  }

  /** `e_mem_unmap` of a legal address takes one entry away. */
  lemma UnmapCall(m: M.Mem, c: C.Machine, dirs: map<nat, nat>, t: C.Slot)
    requires M.Inv(m) && View(m, c, dirs) && Place(dirs, t)
    ensures var (r, m') := M.EMemUnmap(m, Dir(dirs, t), Addr(t));
            && (r == M.Ok <==> !M.IllegalVa(Addr(t)))
            && View(m', if r == M.Ok then c.(pt := c.pt - {t}) else c, dirs)
  {
    var (r, m') := M.EMemUnmap(m, Dir(dirs, t), Addr(t));
    UnmapChanges(m, dirs, t);
    if r == M.Ok { ViewPut(m, m', c, dirs, t, M.Invalid); }
  }

  // ----- the steps of fork and of the fault handler are calls on the kernel's tables -----

  /** The permission word that `duppage` and `cow_entry` compute with. */
  function Word(m: M.Mem, dirs: map<nat, nat>, s: C.Slot): bv32
    requires s.proc in dirs && EntryAt(m, dirs, s).Entry?
  {
    EntryAt(m, dirs, s).perm & 0xc00003ff
  }

  /** Only the entries matter to the view. */
  lemma ViewEntries(m: M.Mem, c: C.Machine, c': C.Machine, dirs: map<nat, nat>)
    requires View(m, c, dirs) && c'.pt == c.pt
    ensures View(m, c', dirs)
  {
    forall p, vpn: nat | p in dirs && vpn < NVPN
      ensures Shows(c', C.Slot(p, vpn), M.Lookup(m, dirs[p], vpn * 0x1000))
    {
      assert Shows(c, C.Slot(p, vpn), M.Lookup(m, dirs[p], vpn * 0x1000));
    }
  }

  /** The kernel's entry for `t` becomes `e`, and the machine's step does the same. */
  lemma EntryStep(m: M.Mem, m': M.Mem, c: C.Machine, c': C.Machine, dirs: map<nat, nat>, t: C.Slot, e: M.Entry)
    requires View(m, c, dirs) && Place(dirs, t) && OneEntry(m, m', dirs, t, e) && c'.pt == Put(c, t, e).pt
    ensures View(m', c', dirs)
  {
    ViewPut(m, m', c, dirs, t, e);
    ViewEntries(m', Put(c, t, e), c', dirs);
  }

  /** What the permission word of a page means to the machine: the test of `duppage` on it, the word `duppage`
      computes and the word `cow_entry` computes. */
  lemma WordFlags(m: M.Mem, c: C.Machine, dirs: map<nat, nat>, s: C.Slot)
    requires View(m, c, dirs) && Place(dirs, s) && EntryAt(m, dirs, s).Entry?
    ensures s in c.pt && c.pt[s].ppn == EntryAt(m, dirs, s).ppn && MeansTo(Word(m, dirs, s), c.pt[s].perm)
  {
    ShowsAt(m, c, dirs, s);
    WordMeans(EntryAt(m, dirs, s).perm);
  }

  ghost predicate MeansTo(w: bv32, perm: set<C.Flag>) {
    && Flags(w) == perm && Flags(Lending(w)) == C.Lazy(perm) && Flags(Owning(w)) == C.Owned(perm)
    && (AsIs(w) <==> C.MapsAsIs(perm))
  }

  lemma WordMeans(e: bv32)
    ensures MeansTo(e & 0xc00003ff, Flags(e))
  {
    PermissionBits(e);
    PermissionBits(e & 0xc00003ff);
  }

  /** From `m` to `m'` the page at `s` comes to be mapped at `t` with the word `w`: what a successful `e_mem_map`
      does, by MapChanges. */
  ghost predicate Maps(m: M.Mem, m': M.Mem, dirs: map<nat, nat>, s: C.Slot, t: C.Slot, w: bv32)
    requires s.proc in dirs
  {
    Place(dirs, t) && EntryAt(m, dirs, s).Entry? && OneEntry(m, m', dirs, t, M.Entry(EntryAt(m, dirs, s).ppn, w))
  }

  lemma MapStep(m: M.Mem, m': M.Mem, c: C.Machine, c': C.Machine, dirs: map<nat, nat>, s: C.Slot, t: C.Slot, w: bv32,
                perm: set<C.Flag>)
    requires View(m, c, dirs) && Place(dirs, s) && Maps(m, m', dirs, s, t, w) && Flags(w) == perm
    requires s in c.pt ==> c'.pt == c.pt[t := C.Pte(c.pt[s].ppn, perm)]
    ensures View(m', c', dirs)
  {
    ShowsAt(m, c, dirs, s);
    EntryStep(m, m', c, c', dirs, t, M.Entry(EntryAt(m, dirs, s).ppn, w));
  }

  /** `duppage` on the kernel's tables: its test on the permission word decides between the two kinds of step of
      the machine, and the call with the word it computes is that step. */
  lemma DuppageWhole(m: M.Mem, m': M.Mem, c: C.Machine, dirs: map<nat, nat>, p: nat, child: nat, vpn: nat)
    requires View(m, c, dirs) && Place(dirs, C.Slot(p, vpn)) && EntryAt(m, dirs, C.Slot(p, vpn)).Entry?
    requires C.AtPage(c, p, child, vpn, false) && AsIs(Word(m, dirs, C.Slot(p, vpn)))
    requires Maps(m, m', dirs, C.Slot(p, vpn), C.Slot(child, vpn), Word(m, dirs, C.Slot(p, vpn)))
    ensures C.Enabled(c, C.DupWhole(p, child, vpn)) && View(m', C.Step(c, C.DupWhole(p, child, vpn)), dirs)
  {
    var s, t := C.Slot(p, vpn), C.Slot(child, vpn);
    WordFlags(m, c, dirs, s);
    MapStep(m, m', c, C.Step(c, C.DupWhole(p, child, vpn)), dirs, s, t, Word(m, dirs, s), c.pt[s].perm);
  }

  lemma DuppageHalf(m: M.Mem, m': M.Mem, c: C.Machine, dirs: map<nat, nat>, p: nat, child: nat, vpn: nat)
    requires View(m, c, dirs) && Place(dirs, C.Slot(p, vpn)) && EntryAt(m, dirs, C.Slot(p, vpn)).Entry?
    requires C.AtPage(c, p, child, vpn, false) && !AsIs(Word(m, dirs, C.Slot(p, vpn)))
    requires Maps(m, m', dirs, C.Slot(p, vpn), C.Slot(child, vpn), Lending(Word(m, dirs, C.Slot(p, vpn))))
    ensures C.Enabled(c, C.DupHalf(p, child, vpn)) && View(m', C.Step(c, C.DupHalf(p, child, vpn)), dirs)
  {
    var s, t := C.Slot(p, vpn), C.Slot(child, vpn);
    WordFlags(m, c, dirs, s);
    MapStep(m, m', c, C.Step(c, C.DupHalf(p, child, vpn)), dirs, s, t, Lending(Word(m, dirs, s)), C.Lazy(c.pt[s].perm));
  }

  /** ... and its second call. */
  lemma DuppageRemap(m: M.Mem, m': M.Mem, c: C.Machine, dirs: map<nat, nat>, p: nat, child: nat, vpn: nat)
    requires View(m, c, dirs) && Place(dirs, C.Slot(p, vpn)) && EntryAt(m, dirs, C.Slot(p, vpn)).Entry?
    requires C.AtPage(c, p, child, vpn, true)
    requires Maps(m, m', dirs, C.Slot(p, vpn), C.Slot(p, vpn), Lending(Word(m, dirs, C.Slot(p, vpn))))
    ensures C.Enabled(c, C.DupRemap(p, child, vpn)) && View(m', C.Step(c, C.DupRemap(p, child, vpn)), dirs)
  {
    var s := C.Slot(p, vpn);
    WordFlags(m, c, dirs, s);
    MapStep(m, m', c, C.Step(c, C.DupRemap(p, child, vpn)), dirs, s, s, Lending(Word(m, dirs, s)),
            C.Lazy(c.pt[s].perm));
  }

  /** `cow_entry` on the kernel's tables: its scratch page, a fresh one, with PTE_W and without PTE_COW ... */
  lemma HandlerAlloc(m: M.Mem, m': M.Mem, c: C.Machine, dirs: map<nat, nat>, p: nat, vpn: nat, page: nat)
    requires View(m, c, dirs) && Place(dirs, C.Slot(p, vpn)) && EntryAt(m, dirs, C.Slot(p, vpn)).Entry?
    requires p in c.envs && c.envs[p].fault == Some(C.Entered(vpn)) && C.Fresh(c, page)
    requires OneEntry(m, m', dirs, C.Slot(p, C.UCOW), M.Entry(page, Owning(Word(m, dirs, C.Slot(p, vpn)))))
    ensures C.Enabled(c, C.FaultAlloc(p, page)) && View(m', C.Step(c, C.FaultAlloc(p, page)), dirs)
  {
    var s, u := C.Slot(p, vpn), C.Slot(p, C.UCOW);
    WordFlags(m, c, dirs, s);
    EntryStep(m, m', c, C.Step(c, C.FaultAlloc(p, page)), dirs, u, M.Entry(page, Owning(Word(m, dirs, s))));
  }

  /** ... mapped over the shared page with the same word ... */
  lemma HandlerMap(m: M.Mem, m': M.Mem, c: C.Machine, dirs: map<nat, nat>, p: nat, vpn: nat)
    requires View(m, c, dirs) && Place(dirs, C.Slot(p, vpn)) && EntryAt(m, dirs, C.Slot(p, vpn)).Entry?
    requires p in c.envs && c.envs[p].fault == Some(C.Copying(vpn, C.PGSIZE))
    requires Maps(m, m', dirs, C.Slot(p, C.UCOW), C.Slot(p, vpn), Owning(Word(m, dirs, C.Slot(p, vpn))))
    ensures C.Enabled(c, C.FaultMap(p)) && View(m', C.Step(c, C.FaultMap(p)), dirs)
  {
    var s, u := C.Slot(p, vpn), C.Slot(p, C.UCOW);
    WordFlags(m, c, dirs, s);
    ShowsAt(m, c, dirs, u);
    MapStep(m, m', c, C.Step(c, C.FaultMap(p)), dirs, u, s, Owning(Word(m, dirs, s)), C.Owned(c.pt[s].perm));
  }

  /** ... and unmapped. */
  lemma HandlerUnmap(m: M.Mem, m': M.Mem, c: C.Machine, dirs: map<nat, nat>, p: nat, vpn: nat)
    requires View(m, c, dirs) && p in dirs && p in c.envs && c.envs[p].fault == Some(C.Mapped(vpn))
    requires OneEntry(m, m', dirs, C.Slot(p, C.UCOW), M.Invalid)
    ensures C.Enabled(c, C.FaultUnmap(p)) && View(m', C.Step(c, C.FaultUnmap(p)), dirs)
  {
    EntryStep(m, m', c, C.Step(c, C.FaultUnmap(p)), dirs, C.Slot(p, C.UCOW), M.Invalid);
  }

  /** The mapping calls of a program outside `fork`. */
  lemma ProgramAlloc(m: M.Mem, m': M.Mem, c: C.Machine, dirs: map<nat, nat>, t: C.Slot, page: nat, w: bv32)
    requires View(m, c, dirs) && Place(dirs, t) && OneEntry(m, m', dirs, t, M.Entry(page, w))
    requires C.Enabled(c, C.MemAlloc(t.proc, t.vpn, page, Flags(w)))
    ensures View(m', C.Step(c, C.MemAlloc(t.proc, t.vpn, page, Flags(w))), dirs)
  {
    assert t == C.Slot(t.proc, t.vpn);
    EntryStep(m, m', c, C.Step(c, C.MemAlloc(t.proc, t.vpn, page, Flags(w))), dirs, t, M.Entry(page, w));
  }

  lemma ProgramShare(m: M.Mem, m': M.Mem, c: C.Machine, dirs: map<nat, nat>, s: C.Slot, t: C.Slot, w: bv32)
    requires View(m, c, dirs) && Place(dirs, s) && Maps(m, m', dirs, s, t, w)
    requires C.Enabled(c, C.MemShare(s.proc, s.vpn, t.proc, t.vpn, Flags(w)))
    ensures View(m', C.Step(c, C.MemShare(s.proc, s.vpn, t.proc, t.vpn, Flags(w))), dirs)
  {
    assert s == C.Slot(s.proc, s.vpn) && t == C.Slot(t.proc, t.vpn);
    var c' := C.Step(c, C.MemShare(s.proc, s.vpn, t.proc, t.vpn, Flags(w)));
    MapStep(m, m', c, c', dirs, s, t, w, Flags(w));
  }

  lemma ProgramUnmap(m: M.Mem, m': M.Mem, c: C.Machine, dirs: map<nat, nat>, t: C.Slot)
    requires View(m, c, dirs) && Place(dirs, t) && OneEntry(m, m', dirs, t, M.Invalid)
    requires C.Enabled(c, C.MemUnmap(t.proc, t.vpn))
    ensures View(m', C.Step(c, C.MemUnmap(t.proc, t.vpn)), dirs)
  {
    assert t == C.Slot(t.proc, t.vpn);
    EntryStep(m, m', c, C.Step(c, C.MemUnmap(t.proc, t.vpn)), dirs, t, M.Invalid);
  }

  // ----- mailboxes -----

  /** The IPC fields of environment `i`. */
  function Box(k: E.K, i: nat): F.Mailbox
    requires i < |k.envs|
  {
    F.Mailbox(k.envs[i].recving, k.envs[i].value, k.envs[i].from)
  }

  /** `e_ipc_try_send` is the delivery of the protocol: it fills the mailbox of a receiver and no other. */
  lemma SendCall(k: E.K, envid: nat, value: nat, srcva: nat, mapped: bool, x: nat)
    requires E.Running(k) && x < E.NENV && !(srcva != 0 && E.IllegalVa(srcva))
    ensures var e := E.Send(envid, value, srcva, mapped);
            && E.Enabled(k, e) && E.Do(k, e).Some? && |E.Do(k, e).value.envs| == E.NENV
            && Box(E.Do(k, e).value, x) ==
               if E.Named(k.cur.value, envid) == x && Box(k, x).recving
               then F.Mailbox(false, value, k.envs[k.cur.value].id) else Box(k, x)
  {
    E.EnvsAfter(k, E.Send(envid, value, srcva, mapped));
    E.ResolveIff(k, k.cur.value, envid, false);
  }

  /** `e_ipc_recv` marks the caller's mailbox, and no other. */
  lemma RecvCall(k: E.K, dstva: nat, x: nat)
    requires E.Running(k) && x < E.NENV && !(dstva != 0 && E.IllegalVa(dstva))
    requires E.Do(k, E.Recv(dstva)).Some?
    ensures var k' := E.Do(k, E.Recv(dstva)).value;
            && |k'.envs| == E.NENV
            && Box(k', x) == if x == k.cur.value then Box(k, x).(recving := true) else Box(k, x)
  {
    E.EnvsAfter(k, E.Recv(dstva));
  }
}
