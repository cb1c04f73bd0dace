/** Physical pages, the free list and two-level page tables (kern/pmap.c), with the mapping
    calls on top (kern/ecall_all.c). `Mem` is the whole memory state as a value; the class
    `PageMap` at the end runs the kernel's code on it step by step. */
module Pmap {
  import opened Options

  const NPAGE: nat := 65536            // 256 MB of memory in 4 KB pages
  const NENTRY: nat := 1024
  const REF_LIMIT: nat := 65536        // pp_ref is a u_short

  /** A decoded entry: `Invalid` is a word without PTE_V. See module Sv32 for the words. */
  datatype Entry = Invalid | Entry(ppn: nat, perm: bv32)

  /** `words` holds the contents of the pages that serve as directories and tables. `roots` are
      the page directories in use. `pins` counts the references the kernel holds outside any
      table, such as `env_pgdir`. `limbo` are pages that `page_alloc` has handed out and that
      nothing refers to. */
  datatype Mem = Mem(refs: seq<nat>, free: seq<nat>, words: map<nat, seq<Entry>>,
                     roots: set<nat>, pins: map<nat, nat>, limbo: set<nat>)

  function Pdx(va: nat): nat { va / 0x400000 % 1024 }

  function Ptx(va: nat): nat { va / 0x1000 % 1024 }

  function ZeroTable(): seq<Entry> { seq(NENTRY, i => Invalid) }

  // ----- the operations of kern/pmap.c as functions of the state -----

  function PageAlloc(m: Mem): (Option<nat>, Mem) {
    if m.free == [] then (None, m)
    else (Some(m.free[0]),
          m.(free := m.free[1..], words := m.words[m.free[0] := ZeroTable()], limbo := m.limbo + {m.free[0]}))
  }

  predicate IsDir(m: Mem, d: nat) {
    d in m.roots && d in m.words && |m.words[d]| == NENTRY
  }

  /** The table behind directory entry `i`, if that entry is valid. */
  function TableAt(m: Mem, d: nat, i: nat): Option<nat> {
    if IsDir(m, d) && i < NENTRY && m.words[d][i].Entry? && m.words[d][i].ppn in m.words
       && |m.words[m.words[d][i].ppn]| == NENTRY
    then Some(m.words[d][i].ppn) else None
  }

  /** Entry `j` of that table. */
  function PteAt(m: Mem, d: nat, i: nat, j: nat): Entry {
    var t := TableAt(m, d, i);
    if t.Some? && j < NENTRY then m.words[t.value][j] else Invalid
  }

  /** `page_lookup`: the entry for `va`, if valid. */
  function Lookup(m: Mem, d: nat, va: nat): Entry {
    PteAt(m, d, Pdx(va), Ptx(va))
  }

  function SetEntry(m: Mem, t: nat, k: nat, e: Entry): Mem
    requires t in m.words && k < |m.words[t]|
  {
    m.(words := m.words[t := m.words[t][k := e]])
  }

  function Incref(m: Mem, p: nat): Mem
    requires p < |m.refs|
  {
    m.(refs := m.refs[p := (m.refs[p] + 1) % REF_LIMIT], limbo := m.limbo - {p})
  }

  function Decref(m: Mem, p: nat): Mem
    requires p < |m.refs| && m.refs[p] > 0
  {
    var m1 := m.(refs := m.refs[p := m.refs[p] - 1]);
    if m1.refs[p] == 0 then m1.(free := [p] + m1.free) else m1
  }

  // ----- counting references -----

  /** Where a reference to a page can sit. */
  datatype Ref = PteRef(d: nat, i: nat, j: nat) | PdeRef(d: nat, i: nat) | Pin(k: nat)

  ghost predicate Refers(m: Mem, r: Ref, p: nat) {
    match r
    case PteRef(d, i, j) => PteAt(m, d, i, j).Entry? && PteAt(m, d, i, j).ppn == p
    case PdeRef(d, i) => TableAt(m, d, i) == Some(p)
    case Pin(k) => p in m.pins && k < m.pins[p]
  }

  ghost function AllRefs(m: Mem, p: nat): set<Ref> {
    (set d, i, j | d in m.roots && 0 <= i < NENTRY && 0 <= j < NENTRY :: PteRef(d, i, j))
    + (set d, i | d in m.roots && 0 <= i < NENTRY :: PdeRef(d, i))
    + (set k | 0 <= k < (if p in m.pins then m.pins[p] else 0) :: Pin(k))
  }

  /** Every reference to `p`: valid table entries, valid directory entries and pins. */
  ghost function Refs(m: Mem, p: nat): set<Ref> {
    set r | r in AllRefs(m, p) && Refers(m, r, p)
  }

  lemma RefsComplete(m: Mem, p: nat)
    ensures forall r :: r in Refs(m, p) <==> Refers(m, r, p)
  {
    forall r | Refers(m, r, p) ensures r in AllRefs(m, p) {
      match r
      case PteRef(d, i, j) =>
      case PdeRef(d, i) =>
      case Pin(k) =>
    }
  }

  // ----- the invariant -----

  /** Directories are pinned, every valid directory entry leads to a table of its own, and no
      table entry maps a directory or a table. */
  ghost predicate Shape(m: Mem) {
    && |m.refs| == NPAGE
    && (forall d | d in m.roots :: IsDir(m, d) && d < NPAGE && d in m.pins && m.pins[d] > 0)
    && (forall d, i | d in m.roots && 0 <= i < NENTRY && m.words[d][i].Entry? ::
          TableAt(m, d, i).Some? && m.words[d][i].ppn < NPAGE && m.words[d][i].ppn !in m.roots)
    && (forall d, i, d', i' :: TableAt(m, d, i).Some? && TableAt(m, d, i) == TableAt(m, d', i') ==> d == d' && i == i')
    && (forall d, i, j :: PteAt(m, d, i, j).Entry? ==>
          PteAt(m, d, i, j).ppn < NPAGE && PteAt(m, d, i, j).ppn !in m.roots)
    && (forall d, i, j, d', i' :: PteAt(m, d, i, j).Entry? ==> TableAt(m, d', i') != Some(PteAt(m, d, i, j).ppn))
  }

  ghost predicate FreeOk(m: Mem) {
    && (forall a, b | 0 <= a < b < |m.free| :: m.free[a] != m.free[b])
    && (forall a | 0 <= a < |m.free| :: m.free[a] < NPAGE && m.free[a] !in m.limbo)
    && (forall p | p in m.limbo :: p < NPAGE)
  }

  /** Conservation: `pp_ref` is the number of references, and a page without any is on the free
      list or in limbo. */
  ghost predicate Conserved(m: Mem) {
    && |m.refs| == NPAGE
    && (forall p | 0 <= p < NPAGE :: m.refs[p] == |Refs(m, p)| && m.refs[p] < REF_LIMIT)
    && (forall p | 0 <= p < NPAGE :: Refs(m, p) == {} <==> p in m.free || p in m.limbo)
  }

  ghost predicate Inv(m: Mem) {
    Shape(m) && FreeOk(m) && Conserved(m)
  }

  // ----- the rest of kern/pmap.c -----

  datatype Code = Ok | NoMem | Inval

  /** What the kernel's own `assert`s and `addr2page` rely on. */
  ghost predicate Counted(m: Mem) {
    && |m.refs| == NPAGE
    && (forall d, i, j :: PteAt(m, d, i, j).Entry? ==>
          PteAt(m, d, i, j).ppn < NPAGE && m.refs[PteAt(m, d, i, j).ppn] > 0)
    && (forall a | 0 <= a < |m.free| :: m.free[a] < NPAGE)
    && (forall d | d in m.roots :: IsDir(m, d) && d !in m.free)
  }

  /** `page_remove`. */
  function Remove(m: Mem, d: nat, va: nat): (m': Mem)
    requires Counted(m)
  {
    var e := Lookup(m, d, va);
    if e.Invalid? then m
    else SetEntry(Decref(m, e.ppn), TableAt(m, d, Pdx(va)).value, Ptx(va), Invalid)
  }

  /** `pgdir_walk` with `create`: the directory entry is valid afterwards, or memory is out. */
  function EnsureTable(m: Mem, d: nat, i: nat): (Code, Mem)
    requires Counted(m) && d in m.roots && i < NENTRY
  {
    if m.words[d][i].Entry? then (Ok, m)
    else if m.free == [] then (NoMem, m)
    else
      var t := m.free[0];
      (Ok, Incref(SetEntry(PageAlloc(m).1, d, i, Entry(t, 0)), t))
  }

  /** `page_insert`. */
  function Insert(m: Mem, d: nat, p: nat, va: nat, perm: bv32): (Code, Mem)
    requires Counted(m) && d in m.roots && p < NPAGE
  {
    var e := Lookup(m, d, va);
    if e.Entry? && e.ppn == p then
      (Ok, SetEntry(m, TableAt(m, d, Pdx(va)).value, Ptx(va), Entry(p, perm)))
    else
      var m1 := Remove(m, d, va);
      if e.Entry? then (Ok, Incref(SetEntry(m1, TableAt(m, d, Pdx(va)).value, Ptx(va), Entry(p, perm)), p))
      else
        var (code, m2) := EnsureTable(m1, d, Pdx(va));
        var t := TableAt(m2, d, Pdx(va));
        if code == Ok && t.Some? then (Ok, Incref(SetEntry(m2, t.value, Ptx(va), Entry(p, perm)), p))
        else (code, m2)
  }

  // ----- one entry at a time -----

  ghost predicate SameTables(m: Mem, m': Mem) {
    forall d, i :: TableAt(m', d, i) == TableAt(m, d, i)
  }

  ghost predicate OnlyPteChanged(m: Mem, m': Mem, d: nat, i: nat, j: nat, e: Entry) {
    forall d', i', j' :: PteAt(m', d', i', j') == if d' == d && i' == i && j' == j then e else PteAt(m, d', i', j')
  }

  ghost predicate IsTable(m: Mem, p: nat) {
    exists d, i :: TableAt(m, d, i) == Some(p)
  }

  /** Writing one table entry changes what that entry translates, and nothing else. */
  lemma WritePte(m: Mem, d: nat, i: nat, j: nat, e: Entry)
    requires Shape(m) && TableAt(m, d, i).Some? && j < NENTRY
    requires e.Entry? ==> e.ppn < NPAGE && e.ppn !in m.roots && !IsTable(m, e.ppn)
    ensures var m' := SetEntry(m, TableAt(m, d, i).value, j, e);
            SameTables(m, m') && OnlyPteChanged(m, m', d, i, j, e) && Shape(m')
  {
    var t := TableAt(m, d, i).value;
    var m' := SetEntry(m, t, j, e);
    forall d', i' ensures TableAt(m', d', i') == TableAt(m, d', i') {
    }
    forall d', i', j'
      ensures PteAt(m', d', i', j') == if d' == d && i' == i && j' == j then e else PteAt(m, d', i', j')
    {
      assert TableAt(m', d', i') == TableAt(m, d', i');
      assert TableAt(m, d', i') == Some(t) ==> d' == d && i' == i;
    }
    assert Shape(m');
  }

  /** Hanging a zeroed page into an empty directory entry adds a table and no translation. */
  lemma WritePde(m: Mem, d: nat, i: nat, t: nat, perm: bv32)
    requires Shape(m) && d in m.roots && i < NENTRY && m.words[d][i].Invalid?
    requires t in m.words && m.words[t] == ZeroTable() && t < NPAGE && t !in m.roots && !IsTable(m, t)
    requires forall d', i', j' :: PteAt(m, d', i', j').Entry? ==> PteAt(m, d', i', j').ppn != t
    ensures var m' := SetEntry(m, d, i, Entry(t, perm));
            && (forall d', i' :: TableAt(m', d', i') == if d' == d && i' == i then Some(t) else TableAt(m, d', i'))
            && (forall d', i', j' :: PteAt(m', d', i', j') == PteAt(m, d', i', j'))
            && Shape(m')
  {
    var m' := SetEntry(m, d, i, Entry(t, perm));
    forall d', i' ensures TableAt(m', d', i') == if d' == d && i' == i then Some(t) else TableAt(m, d', i') {
    }
    forall d', i', j' ensures PteAt(m', d', i', j') == PteAt(m, d', i', j') {
    }
    assert Shape(m');
  }

  // ----- references after a change -----

  lemma InvCounted(m: Mem)
    requires Inv(m)
    ensures Counted(m)
  {
    forall d, i, j | PteAt(m, d, i, j).Entry? ensures m.refs[PteAt(m, d, i, j).ppn] > 0 {
      RefsComplete(m, PteAt(m, d, i, j).ppn);
      assert PteRef(d, i, j) in Refs(m, PteAt(m, d, i, j).ppn);
    }
    forall d | d in m.roots ensures d !in m.free {
      RefsComplete(m, d);
      assert Refers(m, Pin(0), d);
    }
  }

  /** One table entry changed: its old page lost a reference, its new one gained it. */
  lemma RefsAfterPte(m: Mem, m': Mem, d: nat, i: nat, j: nat, e: Entry, q: nat)
    requires SameTables(m, m') && OnlyPteChanged(m, m', d, i, j, e) && m'.pins == m.pins
    ensures Refs(m', q) == Refs(m, q) - {PteRef(d, i, j)} + if e.Entry? && e.ppn == q then {PteRef(d, i, j)} else {}
  {
    RefsComplete(m, q);
    RefsComplete(m', q);
    forall r ensures Refers(m', r, q) <==>
                     if r == PteRef(d, i, j) then e.Entry? && e.ppn == q else Refers(m, r, q)
    {
    }
  }

  lemma RefersOld(m: Mem, d: nat, i: nat, j: nat, q: nat)
    ensures PteRef(d, i, j) in Refs(m, q) <==> PteAt(m, d, i, j).Entry? && PteAt(m, d, i, j).ppn == q
  {
    RefsComplete(m, q);
  }

  lemma SameRefs(m: Mem, m': Mem, q: nat)
    requires SameTables(m, m') && (forall d, i, j :: PteAt(m', d, i, j) == PteAt(m, d, i, j)) && m'.pins == m.pins
    ensures Refs(m', q) == Refs(m, q)
  {
    RefsComplete(m, q);
    RefsComplete(m', q);
    forall r ensures Refers(m', r, q) <==> Refers(m, r, q) {
    }
  }

  lemma RefsAfterPde(m: Mem, m': Mem, d: nat, i: nat, t: nat, q: nat)
    requires TableAt(m, d, i) == None && m'.pins == m.pins
    requires forall d', i' :: TableAt(m', d', i') == if d' == d && i' == i then Some(t) else TableAt(m, d', i')
    requires forall d', i', j' :: PteAt(m', d', i', j') == PteAt(m, d', i', j')
    ensures Refs(m', q) == Refs(m, q) + if q == t then {PdeRef(d, i)} else {}
    ensures PdeRef(d, i) !in Refs(m, q)
  {
    RefsComplete(m, q);
    RefsComplete(m', q);
    forall r ensures Refers(m', r, q) <==> if r == PdeRef(d, i) then q == t else Refers(m, r, q) {
    }
  }

  // ----- page_remove -----

  /** `page_remove` drops one translation and its reference; the page goes back to the free list
      exactly when that was its last one. */
  lemma RemoveSpec(m: Mem, d: nat, va: nat)
    requires Inv(m) && d in m.roots
    ensures Counted(m)
    ensures Inv(Remove(m, d, va)) && SameTables(m, Remove(m, d, va))
    ensures OnlyPteChanged(m, Remove(m, d, va), d, Pdx(va), Ptx(va), Invalid)
    ensures var e := Lookup(m, d, va);
            Remove(m, d, va).free ==
              if e.Entry? && Refs(m, e.ppn) == {PteRef(d, Pdx(va), Ptx(va))} then [e.ppn] + m.free else m.free
    ensures Remove(m, d, va).limbo == m.limbo && Remove(m, d, va).roots == m.roots && Remove(m, d, va).pins == m.pins
  {
    InvCounted(m);
    var e := Lookup(m, d, va);
    if e.Entry? {
      RemoveOne(m, d, Pdx(va), Ptx(va));
    }
  }

  /** Translation depends on the tables alone, not on counts or lists. */
  lemma SameWords(m: Mem, m': Mem)
    requires m'.words == m.words && m'.roots == m.roots && m'.pins == m.pins && |m'.refs| == |m.refs|
    ensures SameTables(m, m') && (forall d, i, j :: PteAt(m', d, i, j) == PteAt(m, d, i, j))
    ensures Shape(m) ==> Shape(m')
    ensures forall q :: Refs(m', q) == Refs(m, q)
  {
    forall d, i ensures TableAt(m', d, i) == TableAt(m, d, i) {
    }
    forall d, i, j ensures PteAt(m', d, i, j) == PteAt(m, d, i, j) {
    }
    forall q ensures Refs(m', q) == Refs(m, q) {
      SameRefs(m, m', q);
    }
  }

  /** Bookkeeping of one reference less. */
  lemma DropRef(m: Mem, m': Mem, p: nat, r: Ref)
    requires FreeOk(m) && Conserved(m) && p < NPAGE && r in Refs(m, p) && m.refs[p] > 0
    requires Refs(m', p) == Refs(m, p) - {r} && (forall q | 0 <= q < NPAGE && q != p :: Refs(m', q) == Refs(m, q))
    requires m'.refs == Decref(m, p).refs && m'.free == Decref(m, p).free && m'.limbo == m.limbo
    ensures Conserved(m') && FreeOk(m')
    ensures m'.free == if Refs(m, p) == {r} then [p] + m.free else m.free
  {
    assert |Refs(m', p)| == |Refs(m, p)| - 1;
    assert Refs(m, p) == {r} <==> Refs(m', p) == {};
    assert p !in m.free && p !in m.limbo;
  }

  lemma RemoveOneCounts(m: Mem, m': Mem, d: nat, i: nat, j: nat)
    requires FreeOk(m) && Conserved(m) && PteAt(m, d, i, j).Entry? && PteAt(m, d, i, j).ppn < NPAGE
    requires SameTables(m, m') && OnlyPteChanged(m, m', d, i, j, Invalid) && m'.pins == m.pins
    requires m.refs[PteAt(m, d, i, j).ppn] > 0 && m'.limbo == m.limbo
    requires m'.refs == Decref(m, PteAt(m, d, i, j).ppn).refs && m'.free == Decref(m, PteAt(m, d, i, j).ppn).free
    ensures Conserved(m') && FreeOk(m')
    ensures var p := PteAt(m, d, i, j).ppn;
            m'.free == if Refs(m, p) == {PteRef(d, i, j)} then [p] + m.free else m.free
  {
    var p, r := PteAt(m, d, i, j).ppn, PteRef(d, i, j);
    RefersOld(m, d, i, j, p);
    RefsAfterPte(m, m', d, i, j, Invalid, p);
    forall q | 0 <= q < NPAGE && q != p ensures Refs(m', q) == Refs(m, q) {
      RefersOld(m, d, i, j, q);
      RefsAfterPte(m, m', d, i, j, Invalid, q);
    }
    DropRef(m, m', p, r);
  }

  lemma RemoveOne(m: Mem, d: nat, i: nat, j: nat)
    requires Inv(m) && Counted(m) && PteAt(m, d, i, j).Entry?
    ensures var e := PteAt(m, d, i, j);
            var m' := SetEntry(Decref(m, e.ppn), TableAt(m, d, i).value, j, Invalid);
            && Inv(m') && SameTables(m, m') && OnlyPteChanged(m, m', d, i, j, Invalid)
            && m'.free == (if Refs(m, e.ppn) == {PteRef(d, i, j)} then [e.ppn] + m.free else m.free)
  {
    var m' := SetEntry(Decref(m, PteAt(m, d, i, j).ppn), TableAt(m, d, i).value, j, Invalid);
    var w := SetEntry(m, TableAt(m, d, i).value, j, Invalid);
    WritePte(m, d, i, j, Invalid);
    SameWords(w, m');
    RemoveOneCounts(m, m', d, i, j);
  }

  // ----- page_alloc -----

  lemma NoRefs(m: Mem, p: nat)
    requires Shape(m) && Refs(m, p) == {}
    ensures p !in m.roots && !IsTable(m, p)
    ensures forall d, i, j :: PteAt(m, d, i, j).Entry? ==> PteAt(m, d, i, j).ppn != p
  {
    RefsComplete(m, p);
    if p in m.roots {
      assert Refers(m, Pin(0), p);
    }
    if IsTable(m, p) {
      var d, i :| TableAt(m, d, i) == Some(p);
      assert Refers(m, PdeRef(d, i), p);
    }
    forall d, i, j | PteAt(m, d, i, j).Entry? ensures PteAt(m, d, i, j).ppn != p {
      assert PteAt(m, d, i, j).ppn == p ==> Refers(m, PteRef(d, i, j), p);
    }
  }

  /** Filling a page that is no directory and no table is invisible to translation. */
  lemma ZeroPage(m: Mem, p: nat)
    requires Shape(m) && p !in m.roots && !IsTable(m, p)
    ensures var m' := m.(words := m.words[p := ZeroTable()]);
            && SameTables(m, m') && (forall d, i, j :: PteAt(m', d, i, j) == PteAt(m, d, i, j))
            && Shape(m') && (forall q :: Refs(m', q) == Refs(m, q))
  {
    var m' := m.(words := m.words[p := ZeroTable()]);
    forall d: nat, i: nat ensures TableAt(m', d, i) == TableAt(m, d, i) {
      if IsDir(m, d) && i < NENTRY && m.words[d][i].Entry? {
        assert TableAt(m, d, i) == Some(m.words[d][i].ppn);
      }
    }
    forall d, i, j ensures PteAt(m', d, i, j) == PteAt(m, d, i, j) {
      assert TableAt(m, d, i) != Some(p);
    }
    forall q ensures Refs(m', q) == Refs(m, q) {
      SameRefs(m, m', q);
    }
    assert Shape(m');
  }

  /** `page_alloc` takes the head of the free list, a page that nothing refers to, returns it
      zeroed, and disturbs no translation. */
  lemma PageAllocSpec(m: Mem)
    requires Inv(m) && m.free != []
    ensures var p, m' := m.free[0], PageAlloc(m).1;
            && PageAlloc(m).0 == Some(p) && p < NPAGE && Refs(m, p) == {} && p !in m.roots && !IsTable(m, p)
            && Inv(m') && p in m'.words && m'.words[p] == ZeroTable()
            && SameTables(m, m') && (forall d, i, j :: PteAt(m', d, i, j) == PteAt(m, d, i, j))
            && (forall q :: Refs(m', q) == Refs(m, q))
            && m'.free == m.free[1..] && p !in m'.free && m'.limbo == m.limbo + {p}
  {
    var p, m' := m.free[0], PageAlloc(m).1;
    assert p in m.free;
    NoRefs(m, p);
    var w := m.(words := m.words[p := ZeroTable()]);
    ZeroPage(m, p);
    SameWords(w, m');
    forall q ensures q in m.free <==> q in m'.free || q == p {
    }
    assert Conserved(m');
  }

  /** Bookkeeping of one reference more. */
  lemma AddRef(m: Mem, m': Mem, p: nat, r: Ref)
    requires FreeOk(m) && Conserved(m) && p < NPAGE && p !in m.free && r !in Refs(m, p)
    requires m.refs[p] + 1 < REF_LIMIT
    requires Refs(m', p) == Refs(m, p) + {r} && (forall q | 0 <= q < NPAGE && q != p :: Refs(m', q) == Refs(m, q))
    requires m'.refs == Incref(m, p).refs && m'.free == m.free && m'.limbo == m.limbo - {p}
    ensures Conserved(m') && FreeOk(m')
  {
    AddRefCounts(m, m', p, r);
    AddRefLists(m, m', p, r);
  }

  /** `pp_ref` of `p` goes up by one and no other count changes. */
  lemma IncrefAt(m: Mem, refs: seq<nat>, p: nat, q: nat)
    requires |m.refs| == NPAGE && p < NPAGE && q < NPAGE && m.refs[p] + 1 < REF_LIMIT && refs == Incref(m, p).refs
    ensures |refs| == NPAGE && refs[q] == if q == p then m.refs[p] + 1 else m.refs[q]
  {
  }

  lemma AddRefCounts(m: Mem, m': Mem, p: nat, r: Ref)
    requires |m.refs| == NPAGE && (forall q | 0 <= q < NPAGE :: m.refs[q] == |Refs(m, q)| && m.refs[q] < REF_LIMIT)
    requires p < NPAGE && r !in Refs(m, p) && m.refs[p] + 1 < REF_LIMIT && m'.refs == Incref(m, p).refs
    requires Refs(m', p) == Refs(m, p) + {r} && (forall q | 0 <= q < NPAGE && q != p :: Refs(m', q) == Refs(m, q))
    ensures forall q | 0 <= q < NPAGE :: m'.refs[q] == |Refs(m', q)| && m'.refs[q] < REF_LIMIT
  {
    OneMore(Refs(m, p), Refs(m', p), r);
    forall q | 0 <= q < NPAGE ensures m'.refs[q] == |Refs(m', q)| && m'.refs[q] < REF_LIMIT {
      IncrefAt(m, m'.refs, p, q);
    }
  }

  lemma AddRefLists(m: Mem, m': Mem, p: nat, r: Ref)
    requires FreeOk(m) && Conserved(m) && p < NPAGE && p !in m.free && r !in Refs(m, p)
    requires m.refs[p] + 1 < REF_LIMIT
    requires Refs(m', p) == Refs(m, p) + {r} && (forall q | 0 <= q < NPAGE && q != p :: Refs(m', q) == Refs(m, q))
    requires m'.refs == Incref(m, p).refs && m'.free == m.free && m'.limbo == m.limbo - {p}
    ensures FreeOk(m') && forall q | 0 <= q < NPAGE :: Refs(m', q) == {} <==> q in m'.free || q in m'.limbo
  {
    OneMore(Refs(m, p), Refs(m', p), r);
  }

  lemma OneMore<T>(s: set<T>, s': set<T>, r: T)
    requires r !in s && s' == s + {r}
    ensures |s'| == |s| + 1 && s' != {}
  {
    assert r in s';
  }

  // ----- pgdir_walk with create -----

  lemma EnsureTableSpec(m: Mem, d: nat, i: nat)
    requires Inv(m) && d in m.roots && i < NENTRY
    ensures Counted(m)
    ensures EnsureTable(m, d, i).0 == (if m.words[d][i].Invalid? && m.free == [] then NoMem else Ok)
    ensures m.words[d][i].Entry? || m.free == [] ==> EnsureTable(m, d, i).1 == m
    ensures EnsureTable(m, d, i).0 == Ok ==>
              var m' := EnsureTable(m, d, i).1;
              && Inv(m') && TableAt(m', d, i).Some? && m'.roots == m.roots && m'.pins == m.pins
              && (forall d', i', j' :: PteAt(m', d', i', j') == PteAt(m, d', i', j'))
              && (forall p | p !in m.free ::
                    p !in m'.free && (IsTable(m', p) ==> IsTable(m, p)) && Refs(m', p) == Refs(m, p))
              && m'.free == (if m.words[d][i].Entry? then m.free else m.free[1..])
  {
    InvCounted(m);
    if m.words[d][i].Entry? {
      assert TableAt(m, d, i).Some?;
    } else if m.free != [] {
      NewTable(m, d, i);
    }
  }

  lemma NewTable(m: Mem, d: nat, i: nat)
    requires Inv(m) && Counted(m) && d in m.roots && i < NENTRY && m.words[d][i].Invalid? && m.free != []
    ensures var m' := EnsureTable(m, d, i).1;
            && Inv(m') && TableAt(m', d, i) == Some(m.free[0])
            && (forall d', i', j' :: PteAt(m', d', i', j') == PteAt(m, d', i', j'))
            && (forall p | p !in m.free :: (IsTable(m', p) ==> IsTable(m, p)) && Refs(m', p) == Refs(m, p))
  {
    var t, m1 := m.free[0], PageAlloc(m).1;
    PageAllocSpec(m);
    NoRefs(m1, t);
    assert m1.words[d] == m.words[d];
    var m' := HangTable(m1, d, i, t);
    HangTableSpec(m1, d, i, t);
    forall p | p !in m.free && IsTable(m', p) ensures IsTable(m, p) {
      var d', i' :| TableAt(m', d', i') == Some(p);
      assert TableAt(m, d', i') == Some(p);
    }
  }

  function HangTable(m: Mem, d: nat, i: nat, t: nat): Mem
    requires d in m.words && i < |m.words[d]| && t < |m.refs|
  {
    Incref(SetEntry(m, d, i, Entry(t, 0)), t)
  }

  /** What that changes: one table more, and one reference to it. */
  lemma HangTableRefs(m: Mem, d: nat, i: nat, t: nat)
    requires Shape(m) && d in m.roots && i < NENTRY && m.words[d][i].Invalid?
    requires t < NPAGE && t in m.words && m.words[t] == ZeroTable() && Refs(m, t) == {}
    ensures var m' := HangTable(m, d, i, t);
            && Shape(m')
            && (forall d', i' :: TableAt(m', d', i') == if d' == d && i' == i then Some(t) else TableAt(m, d', i'))
            && (forall d', i', j' :: PteAt(m', d', i', j') == PteAt(m, d', i', j'))
            && (forall q :: Refs(m', q) == Refs(m, q) + if q == t then {PdeRef(d, i)} else {})
  {
    NoRefs(m, t);
    WritePde(m, d, i, t, 0);
    var w, m' := SetEntry(m, d, i, Entry(t, 0)), HangTable(m, d, i, t);
    SameWords(w, m');
    forall q ensures Refs(m', q) == Refs(m, q) + (if q == t then {PdeRef(d, i)} else {}) {
      RefsAfterPde(m, w, d, i, t, q);
    }
  }

  lemma HangTableSpec(m: Mem, d: nat, i: nat, t: nat)
    requires Inv(m) && d in m.roots && i < NENTRY && m.words[d][i].Invalid?
    requires t < NPAGE && t in m.words && m.words[t] == ZeroTable() && Refs(m, t) == {} && t !in m.free
    ensures var m' := HangTable(m, d, i, t);
            && Inv(m')
            && (forall d', i' :: TableAt(m', d', i') == if d' == d && i' == i then Some(t) else TableAt(m, d', i'))
            && (forall d', i', j' :: PteAt(m', d', i', j') == PteAt(m, d', i', j'))
            && (forall q | q != t :: Refs(m', q) == Refs(m, q))
  {
    HangTableRefs(m, d, i, t);
    AddRef(m, HangTable(m, d, i, t), t, PdeRef(d, i));
  }

  // ----- page_insert -----

  /** A page that may be mapped: in use or just allocated, no directory and no table, and with
      room in its 16-bit count. */
  ghost predicate Mappable(m: Mem, p: nat) {
    && p < NPAGE && |m.refs| == NPAGE && p !in m.free && p !in m.roots && !IsTable(m, p)
    && m.refs[p] + 1 < REF_LIMIT
  }

  lemma MapOne(m: Mem, d: nat, i: nat, j: nat, p: nat, perm: bv32)
    requires Inv(m) && TableAt(m, d, i).Some? && j < NENTRY && PteAt(m, d, i, j).Invalid? && Mappable(m, p)
    ensures var m' := Incref(SetEntry(m, TableAt(m, d, i).value, j, Entry(p, perm)), p);
            Inv(m') && SameTables(m, m') && OnlyPteChanged(m, m', d, i, j, Entry(p, perm))
  {
    var e, r := Entry(p, perm), PteRef(d, i, j);
    WritePte(m, d, i, j, e);
    var w := SetEntry(m, TableAt(m, d, i).value, j, e);
    var m' := Incref(w, p);
    SameWords(w, m');
    RefersOld(m, d, i, j, p);
    RefsAfterPte(m, m', d, i, j, e, p);
    forall q | 0 <= q < NPAGE && q != p ensures Refs(m', q) == Refs(m, q) {
      RefersOld(m, d, i, j, q);
      RefsAfterPte(m, m', d, i, j, e, q);
    }
    AddRef(m, m', p, r);
  }

  lemma RemapSame(m: Mem, d: nat, i: nat, j: nat, perm: bv32)
    requires Inv(m) && TableAt(m, d, i).Some? && j < NENTRY && PteAt(m, d, i, j).Entry?
    ensures var e := Entry(PteAt(m, d, i, j).ppn, perm);
            var m' := SetEntry(m, TableAt(m, d, i).value, j, e);
            Inv(m') && SameTables(m, m') && OnlyPteChanged(m, m', d, i, j, e)
  {
    var p := PteAt(m, d, i, j).ppn;
    var e := Entry(p, perm);
    assert !IsTable(m, p);
    WritePte(m, d, i, j, e);
    var m' := SetEntry(m, TableAt(m, d, i).value, j, e);
    forall q ensures Refs(m', q) == Refs(m, q) {
      RefersOld(m, d, i, j, q);
      RefsAfterPte(m, m', d, i, j, e, q);
    }
    assert Conserved(m');
  }

  /** The state after `page_insert` succeeds, seen through the entries. */
  ghost predicate Inserted(m: Mem, m': Mem, d: nat, va: nat, e: Entry) {
    && Inv(m') && m'.roots == m.roots && m'.pins == m.pins
    && OnlyPteChanged(m, m', d, Pdx(va), Ptx(va), e)
  }

  /** What becomes of the free list: a replaced page comes back if that was its last reference,
      and a missing table is paid for with the head of the list. */
  ghost function FreeAfterInsert(m: Mem, d: nat, p: nat, va: nat): seq<nat>
    requires IsDir(m, d)
  {
    var e := Lookup(m, d, va);
    if e.Entry? && e.ppn != p && Refs(m, e.ppn) == {PteRef(d, Pdx(va), Ptx(va))} then [e.ppn] + m.free
    else if m.words[d][Pdx(va)].Invalid? && m.free != [] then m.free[1..]
    else m.free
  }

  /** `page_insert` refines an update of a finite map from page numbers to entries. It fails
      exactly when a table is missing and memory is out, and then nothing has changed; inserting
      the page that is already there moves no reference. */
  lemma InsertSpec(m: Mem, d: nat, p: nat, va: nat, perm: bv32)
    requires Inv(m) && d in m.roots && Mappable(m, p)
    ensures Counted(m)
    ensures Insert(m, d, p, va, perm).0 == (if m.words[d][Pdx(va)].Invalid? && m.free == [] then NoMem else Ok)
    ensures Insert(m, d, p, va, perm).0 == NoMem ==> Insert(m, d, p, va, perm).1 == m
    ensures Insert(m, d, p, va, perm).0 == Ok ==>
              && Inserted(m, Insert(m, d, p, va, perm).1, d, va, Entry(p, perm))
              && Insert(m, d, p, va, perm).1.free == FreeAfterInsert(m, d, p, va)
              && Insert(m, d, p, va, perm).1.limbo <= m.limbo
  {
    InvCounted(m);
    var e := Lookup(m, d, va);
    var i, j := Pdx(va), Ptx(va);
    if e.Entry? && e.ppn == p {
      RemapSame(m, d, i, j, perm);
    } else if e.Entry? {
      InsertReplacing(m, d, p, va, perm);
    } else {
      InsertFresh(m, d, p, va, perm);
    }
  }

  lemma InsertReplacing(m: Mem, d: nat, p: nat, va: nat, perm: bv32)
    requires Inv(m) && Counted(m) && d in m.roots && Mappable(m, p) && Lookup(m, d, va).Entry?
             && Lookup(m, d, va).ppn != p
    ensures Insert(m, d, p, va, perm).0 == Ok && m.words[d][Pdx(va)].Entry?
    ensures Inserted(m, Insert(m, d, p, va, perm).1, d, va, Entry(p, perm))
    ensures Insert(m, d, p, va, perm).1.free == FreeAfterInsert(m, d, p, va)
    ensures Insert(m, d, p, va, perm).1.limbo <= m.limbo
  {
    var m1 := Remove(m, d, va);
    RemoveSpec(m, d, va);
    assert m1.refs[p] == m.refs[p];
    forall d', i' ensures TableAt(m1, d', i') != Some(p) {
      assert TableAt(m, d', i') != Some(p);
    }
    MapOne(m1, d, Pdx(va), Ptx(va), p, perm);
  }

  /** Mapping into a table that is there, or has just been made. */
  lemma InsertInTable(m: Mem, m2: Mem, d: nat, p: nat, va: nat, perm: bv32)
    requires Inv(m) && Mappable(m, p) && Lookup(m, d, va).Invalid?
    requires Inv(m2) && TableAt(m2, d, Pdx(va)).Some? && m2.roots == m.roots && m2.pins == m.pins
    requires forall d', i', j' :: PteAt(m2, d', i', j') == PteAt(m, d', i', j')
    requires p !in m2.free && (IsTable(m2, p) ==> IsTable(m, p)) && Refs(m2, p) == Refs(m, p)
    ensures var m' := Incref(SetEntry(m2, TableAt(m2, d, Pdx(va)).value, Ptx(va), Entry(p, perm)), p);
            Inserted(m, m', d, va, Entry(p, perm)) && m'.free == m2.free && m'.limbo <= m2.limbo
  {
    assert m2.refs[p] == m.refs[p];
    MapOne(m2, d, Pdx(va), Ptx(va), p, perm);
  }

  lemma InsertFresh(m: Mem, d: nat, p: nat, va: nat, perm: bv32)
    requires Inv(m) && Counted(m) && d in m.roots && Mappable(m, p) && Lookup(m, d, va).Invalid?
    ensures Insert(m, d, p, va, perm).0 == (if m.words[d][Pdx(va)].Invalid? && m.free == [] then NoMem else Ok)
    ensures Insert(m, d, p, va, perm).0 == NoMem ==> Insert(m, d, p, va, perm).1 == m
    ensures Insert(m, d, p, va, perm).0 == Ok ==>
              && Inserted(m, Insert(m, d, p, va, perm).1, d, va, Entry(p, perm))
              && Insert(m, d, p, va, perm).1.free == FreeAfterInsert(m, d, p, va)
              && Insert(m, d, p, va, perm).1.limbo <= m.limbo
  {
    EnsureTableSpec(m, d, Pdx(va));
    var (code, m2) := EnsureTable(m, d, Pdx(va));
    if code == Ok { InsertInTable(m, m2, d, p, va, perm); }
  }

  /** Two addresses have the same table entry exactly when they lie in the same page. */
  lemma SamePage(va: nat, va': nat)
    requires va < 0x1_0000_0000 && va' < 0x1_0000_0000
    ensures Pdx(va) == Pdx(va') && Ptx(va) == Ptx(va') <==> va / 0x1000 == va' / 0x1000
  {
    assert va / 0x1000 == Pdx(va) * 1024 + Ptx(va);
    assert va' / 0x1000 == Pdx(va') * 1024 + Ptx(va');
  }

  /** The map law in terms of addresses. */
  lemma InsertLookup(m: Mem, d: nat, p: nat, va: nat, perm: bv32, d': nat, va': nat)
    requires Inv(m) && d in m.roots && Mappable(m, p) && va < 0x1_0000_0000 && va' < 0x1_0000_0000
    requires Counted(m) && Insert(m, d, p, va, perm).0 == Ok
    ensures Lookup(Insert(m, d, p, va, perm).1, d', va') ==
            if d' == d && va' / 0x1000 == va / 0x1000 then Entry(p, perm) else Lookup(m, d', va')
  {
    InsertSpec(m, d, p, va, perm);
    SamePage(va, va');
  }

  lemma RemoveLookup(m: Mem, d: nat, va: nat, d': nat, va': nat)
    requires Inv(m) && d in m.roots && va < 0x1_0000_0000 && va' < 0x1_0000_0000 && Counted(m)
    ensures Lookup(Remove(m, d, va), d', va') ==
            if d' == d && va' / 0x1000 == va / 0x1000 then Invalid else Lookup(m, d', va')
  {
    RemoveSpec(m, d, va);
    SamePage(va, va');
  }

  // ----- the mapping calls of kern/ecall_all.c -----

  const UTEMP: nat := 0x3fe000
  const UTOP: nat := 0x7f400000

  predicate IllegalVa(va: nat) { va < UTEMP || va >= UTOP }

  /** `d` stands for the directory of the environment the call names. */
  datatype Call =
    | MemAlloc(d: nat, va: nat, perm: bv32)
    | MemMap(sd: nat, sva: nat, d: nat, va: nat, perm: bv32)
    | MemUnmap(d: nat, va: nat)
    | NewDir
    | FreeDir(d: nat)

  function EMemAlloc(m: Mem, d: nat, va: nat, perm: bv32): (Code, Mem)
    requires Inv(m) && d in m.roots
  {
    if IllegalVa(va) then (Inval, m)
    else if m.free == [] then (NoMem, m)
    else
      PageAllocSpec(m); InvCounted(PageAlloc(m).1);
      Insert(PageAlloc(m).1, d, m.free[0], va, perm)
  }

  function EMemMap(m: Mem, sd: nat, sva: nat, d: nat, va: nat, perm: bv32): (Code, Mem)
    requires Inv(m) && d in m.roots
  {
    if IllegalVa(sva) || IllegalVa(va) then (Inval, m)
    else
      var e := Lookup(m, sd, sva);
      InvCounted(m);
      if e.Invalid? then (Inval, m) else Insert(m, d, e.ppn, va, perm)
  }

  function EMemUnmap(m: Mem, d: nat, va: nat): (Code, Mem)
    requires Inv(m) && d in m.roots
  {
    if IllegalVa(va) then (Inval, m) else InvCounted(m); (Ok, Remove(m, d, va))
  }

  /** The directory page of a new environment: allocated, then referenced by `env_pgdir`. The
      kernel half copied from `base_pgdir` is not part of this model. */
  function NewDirectory(m: Mem): (Code, Mem)
    requires Inv(m)
  {
    if m.free == [] then (NoMem, m)
    else
      PageAllocSpec(m);
      var p := m.free[0];
      var m1 := Incref(PageAlloc(m).1, p);
      (Ok, m1.(roots := m1.roots + {p}, pins := m1.pins[p := 1]))
  }

  /** The callers name live directories, and counts stay within 16 bits. */
  ghost predicate Fits(m: Mem, c: Call) {
    match c
    case MemAlloc(d, _, _) => d in m.roots
    case MemMap(sd, sva, d, _, _) =>
      d in m.roots && (Lookup(m, sd, sva).Entry? ==> |Refs(m, Lookup(m, sd, sva).ppn)| + 1 < REF_LIMIT)
    case MemUnmap(d, _) => d in m.roots
    case NewDir => true
    case FreeDir(d) => Released(m, d) && NoLib(m, d)
  }

  function Do(m: Mem, c: Call): (Code, Mem)
    requires Inv(m) && Fits(m, c)
  {
    match c
    case MemAlloc(d, va, perm) => EMemAlloc(m, d, va, perm)
    case MemMap(sd, sva, d, va, perm) => EMemMap(m, sd, sva, d, va, perm)
    case MemUnmap(d, va) => EMemUnmap(m, d, va)
    case NewDir => NewDirectory(m)
    case FreeDir(d) => (Ok, TearDown(m, d))
  }

  /** What any call may do to the lists: a page is freed only by losing its references, and put
      in limbo only from the free list. */
  ghost predicate ListsOk(m: Mem, m': Mem) {
    && (forall p | p in m'.free :: p in m.free || Refs(m, p) != {})
    && (forall p | p in m'.limbo :: p in m.limbo || p in m.free)
  }

  lemma MemAllocKeeps(m: Mem, d: nat, va: nat, perm: bv32)
    requires Inv(m) && d in m.roots
    ensures Inv(EMemAlloc(m, d, va, perm).1) && ListsOk(m, EMemAlloc(m, d, va, perm).1)
  {
    if !IllegalVa(va) && m.free != [] {
      PageAllocSpec(m);
      var p, m1 := m.free[0], PageAlloc(m).1;
      NoRefs(m1, p);
      assert |Refs(m1, p)| == 0;
      InsertSpec(m1, d, p, va, perm);
      InsertLists(m1, d, p, va, perm);
    }
  }

  lemma InsertLists(m: Mem, d: nat, p: nat, va: nat, perm: bv32)
    requires Inv(m) && d in m.roots && Mappable(m, p)
    ensures Counted(m) && ListsOk(m, Insert(m, d, p, va, perm).1)
  {
    InsertSpec(m, d, p, va, perm);
  }

  lemma MemMapKeeps(m: Mem, sd: nat, sva: nat, d: nat, va: nat, perm: bv32)
    requires Inv(m) && Fits(m, MemMap(sd, sva, d, va, perm))
    ensures Inv(EMemMap(m, sd, sva, d, va, perm).1) && ListsOk(m, EMemMap(m, sd, sva, d, va, perm).1)
  {
    var e := Lookup(m, sd, sva);
    if !IllegalVa(sva) && !IllegalVa(va) && e.Entry? {
      RefersOld(m, sd, Pdx(sva), Ptx(sva), e.ppn);
      assert !IsTable(m, e.ppn);
      InsertSpec(m, d, e.ppn, va, perm);
      InsertLists(m, d, e.ppn, va, perm);
    }
  }

  lemma MemUnmapKeeps(m: Mem, d: nat, va: nat)
    requires Inv(m) && d in m.roots
    ensures Inv(EMemUnmap(m, d, va).1) && ListsOk(m, EMemUnmap(m, d, va).1)
  {
    RemoveSpec(m, d, va);
  }

  lemma NewDirectoryKeeps(m: Mem)
    requires Inv(m)
    ensures Inv(NewDirectory(m).1) && ListsOk(m, NewDirectory(m).1)
  {
    if m.free != [] {
      PageAllocSpec(m);
      AddRoot(PageAlloc(m).1, m.free[0]);
    }
  }

  function WithRoot(m: Mem, p: nat): Mem
    requires p < |m.refs|
  {
    Incref(m, p).(roots := m.roots + {p}, pins := m.pins[p := 1])
  }

  lemma AddRoot(m: Mem, p: nat)
    requires Inv(m) && p < NPAGE && p in m.words && m.words[p] == ZeroTable() && Refs(m, p) == {} && p !in m.free
    ensures Inv(WithRoot(m, p))
  {
    var m' := WithRoot(m, p);
    NoRefs(m, p);
    forall d: nat, i: nat ensures TableAt(m', d, i) == TableAt(m, d, i) {
    }
    forall d, i, j ensures PteAt(m', d, i, j) == PteAt(m, d, i, j) {
    }
    assert Shape(m');
    RefsComplete(m, p);
    RefsComplete(m', p);
    assert p in m.pins ==> m.pins[p] == 0 by {
      assert Refers(m, Pin(0), p) <==> p in m.pins && 0 < m.pins[p];
    }
    forall r ensures r in Refs(m', p) <==> r == Pin(0) {
      assert r.PteRef? || r.PdeRef? ==> (Refers(m', r, p) <==> Refers(m, r, p));
    }
    forall q | q != p ensures Refs(m', q) == Refs(m, q) {
      RefsComplete(m, q);
      RefsComplete(m', q);
      forall r ensures Refers(m', r, q) <==> Refers(m, r, q) {
      }
    }
    AddRef(m, m', p, Pin(0));
  }

  /** `e_mem_map` as the two environments see it: the destination page shows the source's page with
      the permission asked for, and nothing else changes anywhere; if it fails nothing changes. */
  lemma MemMapLookup(m: Mem, sd: nat, sva: nat, d: nat, va: nat, perm: bv32, d': nat, va': nat)
    requires Inv(m) && Fits(m, MemMap(sd, sva, d, va, perm))
    requires sva < 0x1_0000_0000 && va < 0x1_0000_0000 && va' < 0x1_0000_0000
    ensures var (r, m') := EMemMap(m, sd, sva, d, va, perm);
            && (r == Ok <==> !IllegalVa(sva) && !IllegalVa(va) && Lookup(m, sd, sva).Entry?
                             && !(m.words[d][Pdx(va)].Invalid? && m.free == []))
            && (r == Inval <==> IllegalVa(sva) || IllegalVa(va) || Lookup(m, sd, sva).Invalid?)
            && (r != Ok ==> m' == m)
            && (r == Ok ==>
                  Lookup(m', d', va') ==
                  (if d' == d && va' / 0x1000 == va / 0x1000 then Entry(Lookup(m, sd, sva).ppn, perm)
                   else Lookup(m, d', va')))
  {
    var e := Lookup(m, sd, sva);
    InvCounted(m);
    if !IllegalVa(sva) && !IllegalVa(va) && e.Entry? {
      RefersOld(m, sd, Pdx(sva), Ptx(sva), e.ppn);
      assert !IsTable(m, e.ppn);
      InsertSpec(m, d, e.ppn, va, perm);
      if Insert(m, d, e.ppn, va, perm).0 == Ok { InsertLookup(m, d, e.ppn, va, perm, d', va'); }
    }
  }

  /** `e_mem_alloc`: it succeeds exactly for a legal address with a free page, and a second one if the table is
      missing. The page that appears was referenced nowhere; every other translation stays, and all of them do
      if it fails. */
  lemma MemAllocLookup(m: Mem, d: nat, va: nat, perm: bv32, d': nat, va': nat)
    requires Inv(m) && d in m.roots && va < 0x1_0000_0000 && va' < 0x1_0000_0000
    ensures var (r, m') := EMemAlloc(m, d, va, perm);
            && (r == Ok <==> !IllegalVa(va) && |m.free| >= if m.words[d][Pdx(va)].Invalid? then 2 else 1)
            && (r == Inval <==> IllegalVa(va))
            && Lookup(m', d', va') ==
               if r == Ok && d' == d && va' / 0x1000 == va / 0x1000 && m.free != [] then Entry(m.free[0], perm)
               else Lookup(m, d', va')
    ensures EMemAlloc(m, d, va, perm).0 == Ok ==> m.free != [] && Refs(m, m.free[0]) == {}
  {
    if !IllegalVa(va) && m.free != [] {
      PageAllocSpec(m);
      var p, m1 := m.free[0], PageAlloc(m).1;
      InvCounted(m1);
      NoRefs(m1, p);
      assert |Refs(m1, p)| == 0;
      assert m1.words[d] == m.words[d];
      InsertSpec(m1, d, p, va, perm);
      if Insert(m1, d, p, va, perm).0 == Ok { InsertLookup(m1, d, p, va, perm, d', va'); }
    }
  }

  /** `e_mem_unmap` succeeds exactly for a legal address, mapped or not: the page is then unmapped, and every
      other translation of every address space stays. If it fails nothing changes. */
  lemma MemUnmapLookup(m: Mem, d: nat, va: nat, d': nat, va': nat)
    requires Inv(m) && d in m.roots && va < 0x1_0000_0000 && va' < 0x1_0000_0000
    ensures var (r, m') := EMemUnmap(m, d, va);
            && (r == Ok <==> !IllegalVa(va)) && (r == Inval <==> IllegalVa(va))
            && (r != Ok ==> m' == m)
            && (r == Ok ==>
                  Lookup(m', d', va') ==
                    if d' == d && va' / 0x1000 == va / 0x1000 then Invalid else Lookup(m, d', va'))
  {
    InvCounted(m);
    RemoveLookup(m, d, va, d', va');
  }

  /** A new address space: there is one exactly if a page is free; nothing is mapped in it, and every other
      address space is as it was. */
  lemma NewDirLookup(m: Mem, d': nat, va': nat)
    requires Inv(m) && va' < 0x1_0000_0000
    ensures var (r, m') := NewDirectory(m);
            && (r == Ok <==> m.free != []) && (r != Ok ==> m' == m)
            && (r == Ok ==>
                  && m.free[0] !in m.roots && m'.roots == m.roots + {m.free[0]} && Released(m', m.free[0])
                  && Lookup(m', d', va') == Lookup(m, d', va') && Lookup(m', m.free[0], va').Invalid?)
  {
    if m.free != [] {
      PageAllocSpec(m);
      RootLookups(PageAlloc(m).1, m.free[0]);
    }
  }

  lemma RootLookups(m: Mem, p: nat)
    requires Inv(m) && p < NPAGE && p in m.words && m.words[p] == ZeroTable() && p !in m.roots
    ensures var m' := WithRoot(m, p);
            forall d: nat, i: nat, j: nat :: PteAt(m', d, i, j) == PteAt(m, d, i, j)
    ensures forall i: nat, j: nat :: PteAt(WithRoot(m, p), p, i, j).Invalid?
  {
    var m' := WithRoot(m, p);
    forall d: nat, i: nat ensures TableAt(m', d, i) == TableAt(m, d, i) {
    }
  }

  /** Mapping calls leave the family of directories alone. */
  lemma MapRoots(m: Mem, sd: nat, sva: nat, d: nat, va: nat, perm: bv32)
    requires Inv(m) && Fits(m, MemMap(sd, sva, d, va, perm))
    ensures EMemMap(m, sd, sva, d, va, perm).1.roots == m.roots
  {
  }

  lemma AllocRoots(m: Mem, d: nat, va: nat, perm: bv32)
    requires Inv(m) && d in m.roots
    ensures EMemAlloc(m, d, va, perm).1.roots == m.roots
  {
  }

  /** What a lookup finds is a reference. */
  lemma LookupRefers(m: Mem, d: nat, va: nat)
    ensures Lookup(m, d, va).Entry? ==> PteRef(d, Pdx(va), Ptx(va)) in Refs(m, Lookup(m, d, va).ppn)
  {
    if Lookup(m, d, va).Entry? { RefsComplete(m, Lookup(m, d, va).ppn); }
  }

  lemma DoKeeps(m: Mem, c: Call)
    requires Inv(m) && Fits(m, c)
    ensures Inv(Do(m, c).1) && ListsOk(m, Do(m, c).1)
  {
    match c
    case MemAlloc(d, va, perm) => MemAllocKeeps(m, d, va, perm);
    case MemMap(sd, sva, d, va, perm) => MemMapKeeps(m, sd, sva, d, va, perm);
    case MemUnmap(d, va) => MemUnmapKeeps(m, d, va);
    case NewDir => NewDirectoryKeeps(m);
    case FreeDir(d) =>
      TearDownKeepsIff(m, d);
      TearDownOthers(m, d);
      ListsFrom(m, TearDown(m, d));
  }

  /** A page comes back to the free list in a call exactly when the call takes its last
      reference; in particular once for each time it was in use. */
  lemma FreedExactlyAtLastRef(m: Mem, c: Call, p: nat)
    requires Inv(m) && Fits(m, c) && p < NPAGE
    ensures p !in m.free && p in Do(m, c).1.free <==> Refs(m, p) != {} && Refs(Do(m, c).1, p) == {}
  {
    DoKeeps(m, c);
  }

  ghost predicate ValidCalls(m: Mem, cs: seq<Call>)
    requires Inv(m)
    decreases |cs|
  {
    cs == [] || (Fits(m, cs[0]) && (DoKeeps(m, cs[0]); ValidCalls(Do(m, cs[0]).1, cs[1..])))
  }

  ghost function DoAll(m: Mem, cs: seq<Call>): Mem
    requires Inv(m) && ValidCalls(m, cs)
    decreases |cs|
  {
    if cs == [] then m else DoKeeps(m, cs[0]); DoAll(Do(m, cs[0]).1, cs[1..])
  }

  /** Reference conservation over every run of mapping calls on any family of directories. */
  lemma {:induction false} RunConserves(m: Mem, cs: seq<Call>)
    requires Inv(m) && ValidCalls(m, cs)
    ensures Inv(DoAll(m, cs))
    decreases |cs|
  {
    if cs != [] {
      DoKeeps(m, cs[0]);
      RunConserves(Do(m, cs[0]).1, cs[1..]);
    }
  }

  /** `e_mem_alloc` loses a page (handed out, mapped nowhere, on no list) exactly when the last
      free page goes to a mapping whose table is missing. */
  lemma MemAllocLeaksIff(m: Mem, d: nat, va: nat, perm: bv32)
    requires Inv(m) && d in m.roots
    ensures EMemAlloc(m, d, va, perm).1.limbo - m.limbo != {} <==>
            !IllegalVa(va) && |m.free| == 1 && m.words[d][Pdx(va)].Invalid?
  {
    if !IllegalVa(va) && m.free != [] {
      PageAllocSpec(m);
      var p, m1 := m.free[0], PageAlloc(m).1;
      NoRefs(m1, p);
      assert |Refs(m1, p)| == 0;
      InsertSpec(m1, d, p, va, perm);
      assert m1.words[d] == m.words[d];
      var m' := EMemAlloc(m, d, va, perm).1;
      if EMemAlloc(m, d, va, perm).0 == Ok {
        RefersOld(m', d, Pdx(va), Ptx(va), p);
        assert p !in m'.limbo;
        assert m'.limbo - m.limbo == {};
      } else {
        assert m' == m1;
        assert p in m'.limbo - m.limbo;
      }
    }
  }

  // ----- env_free: taking an address space down -----

  const PTE_LIBRARY: bv32 := 0x200

  predicate IsLib(e: Entry) { e.Entry? && e.perm & PTE_LIBRARY != 0 }

  /** The directory indices `env_free` passes over: shared kernel tables. */
  predicate Skipped(i: nat) { 0x1fd <= i < 0x1ff || 0x200 <= i < 0x240 || i >= 0x3ff }

  ghost predicate NoLib(m: Mem, d: nat) {
    forall i, j :: !IsLib(PteAt(m, d, i, j))
  }

  /** `env_pgdir[i] = 0; page_decref(table)`. */
  function DropTable(m: Mem, d: nat, i: nat): Mem
    requires d in m.words && i < |m.words[d]| && TableAt(m, d, i).Some?
    requires TableAt(m, d, i).value < |m.refs| && m.refs[TableAt(m, d, i).value] > 0
  {
    Decref(SetEntry(m, d, i, Invalid), TableAt(m, d, i).value)
  }

  function PageAddress(i: nat, j: nat): nat { i * 0x400000 + j * 0x1000 }

  predicate HoldsLib(m: Mem, d: nat, i: nat) { exists j: nat | j < NENTRY :: IsLib(PteAt(m, d, i, j)) }

  /** What stays of the translations of table `i` from entry `j` on: library entries. */
  ghost predicate EntriesCleared(m: Mem, m': Mem, d: nat, i: nat, j: nat) {
    forall d': nat, i': nat, k: nat ::
      PteAt(m', d', i', k) ==
        if d' == d && i' == i && k >= j && !IsLib(PteAt(m, d, i, k)) then Invalid else PteAt(m, d', i', k)
  }

  ghost predicate SameOwners(m: Mem, m': Mem) { m'.roots == m.roots && m'.pins == m.pins && m'.limbo == m.limbo }

  function ClearOne(m: Mem, d: nat, i: nat, j: nat): Mem
    requires Inv(m) && d in m.roots && i < NENTRY && j < NENTRY
  {
    InvCounted(m);
    if IsLib(PteAt(m, d, i, j)) then m else Remove(m, d, PageAddress(i, j))
  }

  lemma RemoveAt(m: Mem, d: nat, i: nat, j: nat, va: nat)
    requires Inv(m) && d in m.roots && Pdx(va) == i && Ptx(va) == j
    ensures Counted(m)
    ensures var m' := Remove(m, d, va);
            Inv(m') && SameTables(m, m') && SameOwners(m, m') && OnlyPteChanged(m, m', d, i, j, Invalid)
  {
    RemoveSpec(m, d, va);
  }

  lemma ClearOneSpec(m: Mem, d: nat, i: nat, j: nat)
    requires Inv(m) && d in m.roots && i < NENTRY && j < NENTRY
    ensures var m' := ClearOne(m, d, i, j);
            && Inv(m') && SameTables(m, m') && SameOwners(m, m')
            && (if IsLib(PteAt(m, d, i, j)) then m' == m else OnlyPteChanged(m, m', d, i, j, Invalid))
  {
    if !IsLib(PteAt(m, d, i, j)) {
      AddressOf(i, j);
      RemoveAt(m, d, i, j, PageAddress(i, j));
    }
  }

  lemma ClearedMore(m: Mem, m1: Mem, m2: Mem, d: nat, i: nat, j: nat)
    requires EntriesCleared(m1, m2, d, i, j + 1)
    requires if IsLib(PteAt(m, d, i, j)) then m1 == m else OnlyPteChanged(m, m1, d, i, j, Invalid)
    ensures EntriesCleared(m, m2, d, i, j)
  {
    forall d': nat, i': nat, k: nat
      ensures PteAt(m2, d', i', k) ==
                if d' == d && i' == i && k >= j && !IsLib(PteAt(m, d, i, k)) then Invalid else PteAt(m, d', i', k)
    {
      assert k != j ==> PteAt(m1, d', i', k) == PteAt(m, d', i', k);
    }
  }

  /** The inner loop of `env_free` from entry `j` on: `page_remove` of whatever is not a library entry. */
  function ClearFrom(m: Mem, d: nat, i: nat, j: nat): (m': Mem)
    requires Inv(m) && d in m.roots && i < NENTRY && j <= NENTRY
    ensures Inv(m') && SameTables(m, m') && SameOwners(m, m')
    decreases NENTRY - j, d
  {
    if j == NENTRY then m else ClearOneSpec(m, d, i, j); ClearFrom(ClearOne(m, d, i, j), d, i, j + 1)
  }

  /** After it, the table has its library entries and no others. */
  lemma {:induction false} ClearFromSpec(m: Mem, d: nat, i: nat, j: nat)
    requires Inv(m) && d in m.roots && i < NENTRY && j <= NENTRY
    ensures EntriesCleared(m, ClearFrom(m, d, i, j), d, i, j)
    decreases NENTRY - j, d
  {
    if j < NENTRY {
      ClearOneSpec(m, d, i, j);
      ClearFromSpec(ClearOne(m, d, i, j), d, i, j + 1);
      ClearedMore(m, ClearOne(m, d, i, j), ClearFrom(m, d, i, j), d, i, j);
    } else {
      forall k: nat | k >= NENTRY ensures PteAt(m, d, i, k) == Invalid {
      }
    }
  }

  /** One turn of the outer loop: the table goes too, unless it holds a library entry. */
  function DropFrom(m: Mem, d: nat, i: nat): (m': Mem)
    requires Inv(m) && d in m.roots && i < NENTRY
    ensures Inv(m') && SameOwners(m, m')
  {
    if m.words[d][i].Invalid? then m
    else
      ClearFromSpec(m, d, i, 0);
      LibStays(m, ClearFrom(m, d, i, 0), d, i);
      if HoldsLib(m, d, i) then ClearFrom(m, d, i, 0) else EmptyDropped(ClearFrom(m, d, i, 0), d, i)
  }

  function EmptyDropped(m: Mem, d: nat, i: nat): (m': Mem)
    requires Inv(m) && TableAt(m, d, i).Some? && (forall j :: PteAt(m, d, i, j).Invalid?)
    ensures Inv(m') && SameOwners(m, m')
  {
    DropTableSpec(m, d, i);
    DropTable(m, d, i)
  }

  lemma DropFromSpec(m: Mem, d: nat, i: nat)
    requires Inv(m) && d in m.roots && i < NENTRY
    ensures var m' := DropFrom(m, d, i);
            && EntriesCleared(m, m', d, i, 0)
            && (m'.words[d][i].Entry? <==> m.words[d][i].Entry? && HoldsLib(m, d, i))
            && (forall k | 0 <= k < NENTRY && k != i :: m'.words[d][k].Entry? == m.words[d][k].Entry?)
  {
    if m.words[d][i].Invalid? {
      NoEntries(m, d, i);
    } else {
      var m1 := ClearFrom(m, d, i, 0);
      ClearFromSpec(m, d, i, 0);
      SameDirectory(m, m1, d);
      LibStays(m, m1, d, i);
      if !HoldsLib(m, d, i) {
        DropTableSpec(m1, d, i);
        SameOther(m1, d, i);
      }
    }
  }

  lemma NoEntries(m: Mem, d: nat, i: nat)
    requires Shape(m) && d in m.roots && i < NENTRY && m.words[d][i].Invalid?
    ensures forall j :: PteAt(m, d, i, j).Invalid?
  {
  }

  lemma LibStays(m: Mem, m': Mem, d: nat, i: nat)
    requires Shape(m) && d in m.roots && i < NENTRY && m.words[d][i].Entry? && EntriesCleared(m, m', d, i, 0)
    ensures TableAt(m, d, i).Some?
    ensures !HoldsLib(m, d, i) ==> forall j :: PteAt(m', d, i, j).Invalid?
  {
    assert forall j: nat :: j >= NENTRY ==> PteAt(m, d, i, j).Invalid?;
  }

  lemma SameOther(m: Mem, d: nat, i: nat)
    requires Inv(m) && d in m.roots && TableAt(m, d, i).Some?
    requires TableAt(m, d, i).value < |m.refs| && m.refs[TableAt(m, d, i).value] > 0
    ensures forall k | 0 <= k < NENTRY && k != i :: DropTable(m, d, i).words[d][k] == m.words[d][k]
    ensures DropTable(m, d, i).limbo == m.limbo
  {
  }

  /** The outer loop from directory entry `i` on. */
  function ClearDir(m: Mem, d: nat, i: nat): (m': Mem)
    requires Inv(m) && d in m.roots && i <= 0x3ff
    ensures Inv(m') && SameOwners(m, m')
    decreases 0x3ff - i, d
  {
    if i == 0x3ff then m else if Skipped(i) then ClearDir(m, d, i + 1) else ClearDir(DropFrom(m, d, i), d, i + 1)
  }

  lemma {:induction false} ClearDirSpec(m: Mem, d: nat, i: nat)
    requires Inv(m) && d in m.roots && i <= 0x3ff
    ensures var m' := ClearDir(m, d, i);
            && (forall d': nat, k: nat, j: nat | d' != d || k < i || IsLib(PteAt(m, d', k, j)) ::
                  PteAt(m', d', k, j) == PteAt(m, d', k, j))
            && (forall k | 0 <= k < NENTRY :: m'.words[d][k].Entry? ==> m.words[d][k].Entry?)
            && (forall k: nat | i <= k < 0x3ff && !Skipped(k) :: m'.words[d][k].Entry? ==> HoldsLib(m, d, k))
    decreases 0x3ff - i, d
  {
    if i < 0x3ff {
      if Skipped(i) {
        ClearDirSpec(m, d, i + 1);
      } else {
        DropFromSpec(m, d, i);
        ClearDirSpec(DropFrom(m, d, i), d, i + 1);
      }
    }
  }

  /** A directory that an environment gives up: nobody else holds it, and it does not have the kernel's
      shared tables. */
  ghost predicate Released(m: Mem, d: nat) {
    && IsDir(m, d) && d in m.pins && m.pins[d] == 1
    && forall i | 0 <= i < NENTRY && Skipped(i) :: m.words[d][i].Invalid?
  }

  /** `env_free` as far as memory goes. */
  function TearDown(m: Mem, d: nat): Mem
    requires Inv(m) && Released(m, d)
  {
    InvCounted(m); HasRef(ClearDir(m, d, 0), d);
    DropDir(ClearDir(m, d, 0), d)
  }

  lemma HasRef(m: Mem, d: nat)
    requires Inv(m) && d in m.roots
    ensures d < |m.refs| && m.refs[d] > 0
  {
    RefsComplete(m, d);
    assert Refers(m, Pin(0), d);
  }

  /** Nothing is left in the directory but tables with library entries; nothing else has changed. */
  ghost predicate LibLeft(m: Mem, m3: Mem, d: nat) {
    && Inv(m3) && d in m3.roots && d in m3.pins && m3.pins[d] == 1 && SameOwners(m, m3)
    && (forall d': nat, k: nat, j: nat | d' != d || IsLib(PteAt(m, d', k, j)) ::
          PteAt(m3, d', k, j) == PteAt(m, d', k, j))
    && (forall k: nat | k < NENTRY :: m3.words[d][k].Entry? ==> HoldsLib(m, d, k))
  }

  lemma ClearedDir(m: Mem, d: nat)
    requires Inv(m) && Released(m, d)
    ensures LibLeft(m, ClearDir(m, d, 0), d)
  {
    ClearDirSpec(m, d, 0);
  }

  lemma DroppedKeepsIff(m: Mem, m3: Mem, d: nat)
    requires LibLeft(m, m3, d)
    ensures d < |m3.refs| && m3.refs[d] > 0
    ensures Inv(DropDir(m3, d)) <==> NoLib(m, d)
    ensures DropDir(m3, d).roots == m.roots - {d} && DropDir(m3, d).limbo == m.limbo
    ensures forall d': nat, i: nat, j: nat | d' != d :: PteAt(DropDir(m3, d), d', i, j) == PteAt(m, d', i, j)
  {
    forall k | 0 <= k < NENTRY ensures m3.words[d][k].Invalid? || exists j :: IsLib(PteAt(m, d, k, j)) {
      assert m3.words[d][k].Entry? ==> HoldsLib(m, d, k);
    }
    DropDirIff(m, m3, d);
  }

  /** It keeps every count right if and only if no library mapping is left in the address space. */
  lemma TearDownKeepsIff(m: Mem, d: nat)
    requires Inv(m) && Released(m, d)
    ensures Inv(TearDown(m, d)) <==> NoLib(m, d)
  {
    ClearedDir(m, d);
    DroppedKeepsIff(m, ClearDir(m, d, 0), d);
  }

  /** Other address spaces keep their translations in any case. */
  lemma TearDownOthers(m: Mem, d: nat)
    requires Inv(m) && Released(m, d)
    ensures TearDown(m, d).roots == m.roots - {d} && TearDown(m, d).limbo == m.limbo
    ensures forall d': nat, i: nat, j: nat | d' != d :: PteAt(TearDown(m, d), d', i, j) == PteAt(m, d', i, j)
  {
    ClearedDir(m, d);
    DroppedKeepsIff(m, ClearDir(m, d, 0), d);
  }

  lemma ListsFrom(m: Mem, m': Mem)
    requires Inv(m) && Inv(m') && m'.limbo == m.limbo
    ensures ListsOk(m, m')
  {
  }

  lemma ClearPde(m: Mem, d: nat, i: nat)
    requires Shape(m) && TableAt(m, d, i).Some? && (forall j :: PteAt(m, d, i, j).Invalid?)
    ensures var m' := SetEntry(m, d, i, Invalid);
            && (forall d', i' :: TableAt(m', d', i') == if d' == d && i' == i then None else TableAt(m, d', i'))
            && (forall d', i', j' :: PteAt(m', d', i', j') == PteAt(m, d', i', j'))
            && Shape(m')
  {
    var m' := SetEntry(m, d, i, Invalid);
    forall d': nat, i': nat ensures TableAt(m', d', i') == if d' == d && i' == i then None else TableAt(m, d', i') {
    }
    forall d': nat, i': nat, j': nat ensures PteAt(m', d', i', j') == PteAt(m, d', i', j') {
      if d' == d && i' == i {
        assert PteAt(m, d, i, j').Invalid?;
      }
    }
    assert Shape(m');
  }

  lemma DropTableSpec(m: Mem, d: nat, i: nat)
    requires Inv(m) && TableAt(m, d, i).Some? && (forall j :: PteAt(m, d, i, j).Invalid?)
    ensures TableAt(m, d, i).value < NPAGE && m.refs[TableAt(m, d, i).value] > 0
    ensures var m' := DropTable(m, d, i);
            && Inv(m') && m'.words[d][i].Invalid? && m'.roots == m.roots && m'.pins == m.pins
            && (forall d', i' :: TableAt(m', d', i') == if d' == d && i' == i then None else TableAt(m, d', i'))
            && (forall d', i', j' :: PteAt(m', d', i', j') == PteAt(m, d', i', j'))
  {
    var t := TableAt(m, d, i).value;
    RefsComplete(m, t);
    assert Refers(m, PdeRef(d, i), t);
    var w, m' := SetEntry(m, d, i, Invalid), DropTable(m, d, i);
    ClearPde(m, d, i);
    SameWords(w, m');
    RefsAfterDrop(m, w, m', d, i, t);
    DropRef(m, m', t, PdeRef(d, i));
  }

  lemma RefsAfterDrop(m: Mem, w: Mem, m': Mem, d: nat, i: nat, t: nat)
    requires TableAt(m, d, i) == Some(t) && w.pins == m.pins && (forall q :: Refs(m', q) == Refs(w, q))
    requires forall d', i' :: TableAt(w, d', i') == if d' == d && i' == i then None else TableAt(m, d', i')
    requires forall d', i', j' :: PteAt(w, d', i', j') == PteAt(m, d', i', j')
    ensures Refs(m', t) == Refs(m, t) - {PdeRef(d, i)}
    ensures forall q | q != t :: Refs(m', q) == Refs(m, q)
  {
    forall q ensures Refs(m', q) == Refs(m, q) - {PdeRef(d, i)} {
      RefsAfterPde(w, m, d, i, t, q);
    }
    forall q | q != t ensures Refs(m', q) == Refs(m, q) {
      RefsComplete(m, q);
    }
  }

  /** Giving up the directory page itself. */
  function DropDir(m: Mem, d: nat): Mem
    requires d < |m.refs| && m.refs[d] > 0
  {
    Decref(m, d).(roots := m.roots - {d}, pins := m.pins[d := 0])
  }

  lemma DropDirSpec(m: Mem, d: nat)
    requires Inv(m) && d in m.roots && m.pins[d] == 1 && (forall i | 0 <= i < NENTRY :: m.words[d][i].Invalid?)
    ensures m.refs[d] > 0 && Inv(DropDir(m, d))
  {
    RefsComplete(m, d);
    assert Refers(m, Pin(0), d);
    var m' := DropDir(m, d);
    forall d': nat, i: nat ensures TableAt(m', d', i) == TableAt(m, d', i) {
    }
    forall d': nat, i: nat, j: nat ensures PteAt(m', d', i, j) == PteAt(m, d', i, j) {
    }
    assert Shape(m');
    forall q ensures Refs(m', q) == Refs(m, q) - (if q == d then {Pin(0)} else {}) {
      RefsComplete(m, q);
      RefsComplete(m', q);
      forall r ensures Refers(m', r, q) <==> Refers(m, r, q) && !(q == d && r == Pin(0)) {
      }
    }
    DropRef(m, m', d, Pin(0));
  }

  /** Dropping a directory that still holds a table leaves that table counted but unreferenced. */
  lemma DropDirLeaks(m: Mem, d: nat, i: nat)
    requires Inv(m) && d in m.roots && TableAt(m, d, i).Some? && m.pins[d] == 1
    ensures m.refs[d] > 0 && !Conserved(DropDir(m, d))
  {
    RefsComplete(m, d);
    assert Refers(m, Pin(0), d);
    var m', t := DropDir(m, d), TableAt(m, d, i).value;
    RefsComplete(m, t);
    RefsComplete(m', t);
    forall d': nat, k: nat ensures TableAt(m', d', k) == if d' == d then None else TableAt(m, d', k) {
    }
    forall r ensures r in Refs(m', t) ==> r in Refs(m, t) && r != PdeRef(d, i) {
    }
    assert Refs(m', t) <= Refs(m, t) - {PdeRef(d, i)};
    Smaller(Refs(m', t), Refs(m, t) - {PdeRef(d, i)});
    assert Refers(m, PdeRef(d, i), t);
    assert m'.refs[t] == m.refs[t] == |Refs(m, t)|;
  }

  lemma Smaller<T>(a: set<T>, b: set<T>)
    requires a <= b
    ensures |a| <= |b|
  {
    assert b == a + (b - a);
  }

  // ----- the kernel's code, step by step -----

  /** The globals of kern/pmap.c. `roots`, `pins` and `limbo` are bookkeeping for the proof. */
  class PageMap {
    var refs: seq<nat>
    var free: seq<nat>
    var words: map<nat, seq<Entry>>
    ghost var roots: set<nat>
    ghost var pins: map<nat, nat>
    ghost var limbo: set<nat>

    ghost function State(): Mem
      reads this
    {
      Mem(refs, free, words, roots, pins, limbo)
    }

    method AllocPage() returns (r: Code, p: nat)
      requires Inv(State())
      modifies this
      ensures Inv(State()) && State() == PageAlloc(old(State())).1
      ensures r == if old(free) == [] then NoMem else Ok
      ensures r == Ok ==> PageAlloc(old(State())).0 == Some(p)
    {
      if free == [] {
        return NoMem, 0;
      }
      PageAllocSpec(State());
      p := free[0];
      free := free[1..];
      words := words[p := ZeroTable()];
      limbo := limbo + {p};
      r := Ok;
    }

    method DecrefPage(p: nat)
      requires p < |refs| && refs[p] > 0
      modifies this
      ensures State() == Decref(old(State()), p)
    {
      refs := refs[p := refs[p] - 1];
      if refs[p] == 0 {
        free := [p] + free;
      }
    }

    method IncrefPage(p: nat)
      requires p < |refs|
      modifies this
      ensures State() == Incref(old(State()), p)
    {
      refs := refs[p := (refs[p] + 1) % REF_LIMIT];
      limbo := limbo - {p};
    }

    method WriteEntry(t: nat, k: nat, e: Entry)
      requires t in words && k < |words[t]|
      modifies this
      ensures State() == SetEntry(old(State()), t, k, e)
    {
      words := words[t := words[t][k := e]];
    }

    /** `pgdir_walk` with `create`: the table for directory entry `i`, made if missing. */
    method WalkCreate(d: nat, i: nat) returns (r: Code, t: nat)
      requires Inv(State()) && d in roots && i < NENTRY
      modifies this
      ensures Counted(old(State())) && Inv(State())
      ensures (r, State()) == EnsureTable(old(State()), d, i)
      ensures r == Ok ==> TableAt(State(), d, i) == Some(t)
    {
      ghost var m := State();
      EnsureTableSpec(m, d, i);
      if words[d][i].Invalid? {
        PageAllocEntry(m, d);
        var code, p := AllocPage();
        if code == NoMem {
          return NoMem, 0;
        }
        WriteEntry(d, i, Entry(p, 0));
        IncrefPage(p);
        assert State() == EnsureTable(m, d, i).1;
        return Ok, p;
      }
      return Ok, words[d][i].ppn;
    }

    /** `page_lookup`, that is `pgdir_walk` without `create` and a test of PTE_V. */
    method LookupPage(d: nat, va: nat) returns (e: Entry, t: nat)
      requires Inv(State()) && d in roots
      ensures e == Lookup(State(), d, va)
      ensures e.Entry? ==> TableAt(State(), d, Pdx(va)) == Some(t)
    {
      if words[d][Pdx(va)].Invalid? {
        return Invalid, 0;
      }
      assert TableAt(State(), d, Pdx(va)).Some?;
      t := words[d][Pdx(va)].ppn;
      e := words[t][Ptx(va)];
    }

    method RemovePage(d: nat, va: nat)
      requires Inv(State()) && d in roots
      modifies this
      ensures Counted(old(State())) && Inv(State())
      ensures State() == Remove(old(State()), d, va)
    {
      RemoveSpec(State(), d, va);
      var e, t := LookupPage(d, va);
      if e.Invalid? {
        return;
      }
      DecrefPage(e.ppn);
      WriteEntry(t, Ptx(va), Invalid);
    }

    method InsertPage(d: nat, p: nat, va: nat, perm: bv32) returns (r: Code)
      requires Inv(State()) && d in roots && Mappable(State(), p)
      modifies this
      ensures Counted(old(State())) && Inv(State())
      ensures (r, State()) == Insert(old(State()), d, p, va, perm)
    {
      ghost var m := State();
      InsertSpec(m, d, p, va, perm);
      var e, t := LookupPage(d, va);
      if e.Entry? {
        if e.ppn == p {
          WriteEntry(t, Ptx(va), Entry(p, perm));
          return Ok;
        }
        RemoveSpec(m, d, va);
        RemovePage(d, va);
      }
      ghost var m1 := State();
      assert m1 == Remove(m, d, va);
      TablePresent(m1, d, Pdx(va), t, e.Entry?);
      var code, t' := WalkCreate(d, Pdx(va));
      if code != Ok {
        return code;
      }
      WriteEntry(t', Ptx(va), Entry(p, perm));
      IncrefPage(p);
      return Ok;
    }

    method MemAlloc(d: nat, va: nat, perm: bv32) returns (r: Code)
      requires Inv(State()) && d in roots
      modifies this
      ensures (r, State()) == EMemAlloc(old(State()), d, va, perm) && Inv(State())
    {
      if IllegalVa(va) {
        return Inval;
      }
      ghost var m := State();
      MemAllocKeeps(m, d, va, perm);
      if free != [] {
        AllocMappable(m);
      }
      var code, p := AllocPage();
      if code != Ok {
        return code;
      }
      r := InsertPage(d, p, va, perm);
    }

    method MemMap(sd: nat, sva: nat, d: nat, va: nat, perm: bv32) returns (r: Code)
      requires Inv(State()) && sd in roots && Fits(State(), Call.MemMap(sd, sva, d, va, perm))
      modifies this
      ensures (r, State()) == EMemMap(old(State()), sd, sva, d, va, perm) && Inv(State())
    {
      if IllegalVa(sva) || IllegalVa(va) {
        return Inval;
      }
      var e, _ := LookupPage(sd, sva);
      if e.Invalid? {
        return Inval;
      }
      LookupMappable(State(), sd, sva);
      r := InsertPage(d, e.ppn, va, perm);
    }

    method MemUnmap(d: nat, va: nat) returns (r: Code)
      requires Inv(State()) && d in roots
      modifies this
      ensures (r, State()) == EMemUnmap(old(State()), d, va) && Inv(State())
      ensures r == if IllegalVa(va) then Inval else Ok
      ensures !IllegalVa(va) ==> Lookup(State(), d, va).Invalid?
    {
      if IllegalVa(va) {
        return Inval;
      }
      RemoveSpec(State(), d, va);
      RemovePage(d, va);
      return Ok;
    }

    /** The inner loop of `env_free`: unmaps all but the library entries of one table. */
    method ClearTable(d: nat, i: nat) returns (flag: bool)
      requires Inv(State()) && d in roots && i < NENTRY && TableAt(State(), d, i).Some?
      modifies this
      ensures State() == ClearFrom(old(State()), d, i, 0) && Inv(State())
      ensures flag <==> HoldsLib(old(State()), d, i)
    {
      ghost var m := State();
      flag := false;
      var j := 0;
      while j < NENTRY
        invariant j <= NENTRY && Clearing(m, State(), d, i, j) && flag == LibBelow(m, d, i, j)
      {
        ClearTurn(m, State(), d, i, j);
        var lib := ClearEntry(d, i, j);
        flag := flag || lib;
        j := j + 1;
      }
    }

    method ClearEntry(d: nat, i: nat, j: nat) returns (lib: bool)
      requires Inv(State()) && d in roots && i < NENTRY && j < NENTRY
      modifies this
      ensures State() == ClearOne(old(State()), d, i, j)
      ensures lib == IsLib(PteAt(old(State()), d, i, j))
    {
      AddressOf(i, j);
      var e, _ := LookupPage(d, PageAddress(i, j));
      lib := IsLib(e);
      if !lib {
        RemovePage(d, PageAddress(i, j));
      }
    }

    /** One turn of the outer loop of `env_free`. */
    method FreeTable(d: nat, i: nat)
      requires Inv(State()) && d in roots && i < NENTRY && words[d][i].Entry?
      modifies this
      ensures State() == DropFrom(old(State()), d, i) && Inv(State())
    {
      ghost var m := State();
      assert TableAt(m, d, i).Some?;
      ClearFromSpec(m, d, i, 0);
      LibStays(m, ClearFrom(m, d, i, 0), d, i);
      var flag := ClearTable(d, i);
      ghost var m2 := State();
      if !flag {
        DropTableSpec(m2, d, i);
        var t := words[d][i].ppn;
        WriteEntry(d, i, Invalid);
        DecrefPage(t);
      }
    }

    /** `env_free`: unmaps an address space, table by table, then gives up its directory. It keeps
        the reference counts right exactly when there is no PTE_LIBRARY mapping left in it. */
    method EnvFree(d: nat)
      requires Inv(State()) && Released(State(), d)
      modifies this
      ensures State() == TearDown(old(State()), d)
      ensures Inv(State()) <==> NoLib(old(State()), d)
    {
      ghost var m := State();
      TearDownKeepsIff(m, d);
      var i := 0;
      while i < 0x3ff
        invariant i <= 0x3ff && Inv(State()) && d in roots && ClearDir(State(), d, i) == ClearDir(m, d, 0)
      {
        if !Skipped(i) && words[d][i].Entry? {
          FreeTable(d, i);
        }
        i := i + 1;
      }
      HasRef(State(), d);
      DecrefPage(d);
      roots := roots - {d};
      pins := pins[d := 0];
    }
  }

  ghost predicate LibBelow(m: Mem, d: nat, i: nat, j: nat) { exists k: nat | k < j :: IsLib(PteAt(m, d, i, k)) }

  /** The inner loop of `env_free`, begun in `m`, is at entry `j`. */
  ghost predicate Clearing(m: Mem, m1: Mem, d: nat, i: nat, j: nat)
    requires Inv(m) && d in m.roots && i < NENTRY
  {
    && Inv(m1) && d in m1.roots && j <= NENTRY && ClearFrom(m1, d, i, j) == ClearFrom(m, d, i, 0)
    && forall k: nat | k >= j :: PteAt(m1, d, i, k) == PteAt(m, d, i, k)
  }

  lemma ClearTurn(m: Mem, m1: Mem, d: nat, i: nat, j: nat)
    requires Inv(m) && d in m.roots && i < NENTRY && Clearing(m, m1, d, i, j) && j < NENTRY
    ensures Clearing(m, ClearOne(m1, d, i, j), d, i, j + 1)
    ensures LibBelow(m, d, i, j + 1) <==> LibBelow(m, d, i, j) || IsLib(PteAt(m1, d, i, j))
  {
    ClearOneSpec(m1, d, i, j);
  }

  lemma SameDirectory(m: Mem, m': Mem, d: nat)
    requires Inv(m) && Inv(m') && SameTables(m, m') && d in m.roots && d in m'.roots
    ensures forall k | 0 <= k < NENTRY :: m'.words[d][k].Entry? == m.words[d][k].Entry?
  {
  }

  lemma DropDirIff(m: Mem, m3: Mem, d: nat)
    requires Inv(m3) && d in m3.roots && m3.pins[d] == 1
    requires forall k, j :: IsLib(PteAt(m, d, k, j)) ==> PteAt(m3, d, k, j) == PteAt(m, d, k, j)
    requires forall k | 0 <= k < NENTRY :: m3.words[d][k].Invalid? || exists j :: IsLib(PteAt(m, d, k, j))
    ensures m3.refs[d] > 0
    ensures Inv(DropDir(m3, d)) <==> NoLib(m, d)
    ensures forall d', i, j :: d' != d ==> PteAt(DropDir(m3, d), d', i, j) == PteAt(m3, d', i, j)
  {
    if NoLib(m, d) {
      DropDirSpec(m3, d);
    } else {
      var k, j :| IsLib(PteAt(m, d, k, j));
      assert PteAt(m3, d, k, j).Entry?;
      DropDirLeaks(m3, d, k);
    }
  }

  lemma AddressOf(i: nat, j: nat)
    requires i < NENTRY && j < NENTRY
    ensures Pdx(i * 0x400000 + j * 0x1000) == i && Ptx(i * 0x400000 + j * 0x1000) == j
  {
  }

  lemma AllocMappable(m: Mem)
    requires Inv(m) && m.free != []
    ensures Inv(PageAlloc(m).1) && Mappable(PageAlloc(m).1, m.free[0])
  {
    PageAllocSpec(m);
    NoRefs(PageAlloc(m).1, m.free[0]);
    assert |Refs(PageAlloc(m).1, m.free[0])| == 0;
  }

  lemma LookupMappable(m: Mem, sd: nat, sva: nat)
    requires Inv(m) && Lookup(m, sd, sva).Entry? && |Refs(m, Lookup(m, sd, sva).ppn)| + 1 < REF_LIMIT
    ensures Mappable(m, Lookup(m, sd, sva).ppn)
  {
    var p := Lookup(m, sd, sva).ppn;
    RefersOld(m, sd, Pdx(sva), Ptx(sva), p);
    assert !IsTable(m, p);
  }

  lemma PageAllocEntry(m: Mem, d: nat)
    requires Inv(m) && d in m.roots
    ensures Counted(m) && (m.free != [] ==> PageAlloc(m).1.words[d] == m.words[d] && m.free[0] < |m.refs|)
  {
    InvCounted(m);
  }

  lemma TablePresent(m: Mem, d: nat, i: nat, t: nat, present: bool)
    requires Inv(m) && d in m.roots && i < NENTRY && (present ==> TableAt(m, d, i) == Some(t))
    ensures Counted(m) && (present ==> EnsureTable(m, d, i) == (Ok, m))
  {
    InvCounted(m);
  }
}
