/** Loading one segment of an executable (lib/elfloader.c, `elf_load_seg`, with the mapper of
    kern/env.c): the mapper takes a fresh zeroed page, copies bytes to it and maps it at the page of
    the address; mapping a page again replaces what was there. */
module Elf {

  const BY2PG: nat := 4096

  /** `pages` are the mapped pages by number, `calls` the page numbers mapped, in order. */
  datatype Space = Space(pages: map<nat, seq<nat>>, calls: seq<int>)

  function Zeros(n: nat): seq<nat> { seq(n, i => 0) }

  function Content(offset: nat, src: seq<nat>): (p: seq<nat>)
    requires offset + |src| <= BY2PG
    ensures |p| == BY2PG
  {
    Zeros(offset) + src + Zeros(BY2PG - offset - |src|)
  }

  function MapPage(s: Space, va: nat, offset: nat, src: seq<nat>): Space
    requires offset + |src| <= BY2PG
  {
    Space(s.pages[va / BY2PG := Content(offset, src)], s.calls + [va / BY2PG])
  }

  function Min(a: nat, b: nat): nat { if a < b then a else b }

  /** The part of the file that goes to the page at `i`. */
  function Part(bin: seq<nat>, i: nat): seq<nat>
    requires i <= |bin|
  {
    bin[i..Min(i + BY2PG, |bin|)]
  }

  /** Step 1: the pages with file contents. */
  function FileLoop(s: Space, va: nat, bin: seq<nat>, i: nat): (Space, nat)
    decreases |bin| - i
  {
    if i >= |bin| then (s, i) else FileLoop(MapPage(s, va + i, 0, Part(bin, i)), va, bin, i + BY2PG)
  }

  /** Step 2: blank pages up to the segment's size. */
  function ZeroLoop(s: Space, va: nat, memsz: nat, i: nat): Space
    decreases memsz - i
  {
    if i >= memsz then s else ZeroLoop(MapPage(s, va + i, 0, []), va, memsz, i + BY2PG)
  }

  /** The first page, when the segment does not start on a page boundary. */
  function FirstPage(s: Space, va: nat, bin: seq<nat>): (Space, nat) {
    var offset := va % BY2PG;
    if offset == 0 then (s, 0)
    else
      var n := Min(|bin|, BY2PG - offset);
      (MapPage(s, va, offset, bin[..n]), n)
  }

  /** `elf_load_seg`; `bin` is the file part, |bin| is p_filesz. */
  function LoadSeg(s: Space, va: nat, bin: seq<nat>, memsz: nat): Space {
    var (s1, i1) := FirstPage(s, va, bin);
    var (s2, i2) := FileLoop(s1, va, bin, i1);
    ZeroLoop(s2, va, memsz, i2)
  }

  // ----- what loading should give -----

  /** The byte that belongs at address `a`: the file, then zeros. */
  function ByteAt(va: nat, bin: seq<nat>, a: int): nat {
    if va <= a < va + |bin| then bin[a - va] else 0
  }

  function PageOf(va: nat, bin: seq<nat>, p: nat): seq<nat> {
    seq<nat>(BY2PG, x => ByteAt(va, bin, p * BY2PG + x))
  }

  /** The first page past address `a`. */
  function PageEnd(a: nat): nat { (a + BY2PG - 1) / BY2PG }

  /** Pages lo, lo + 1, ..., hi - 1. */
  function Pages(lo: int, hi: int): seq<int> { seq(if lo < hi then hi - lo else 0, i => lo + i) }

  /** `s'` is `s` with pages lo .. hi - 1 mapped in order, once each, with what belongs there. */
  ghost predicate LoadedOnce(s: Space, s': Space, va: nat, bin: seq<nat>, lo: nat, hi: nat) {
    && s'.calls == s.calls + Pages(lo, hi)
    && (forall p: nat | lo <= p < hi :: p in s'.pages && s'.pages[p] == PageOf(va, bin, p))
    && (forall p: nat | !(lo <= p < hi) ::
          (p in s'.pages <==> p in s.pages) && (p in s.pages ==> s'.pages[p] == s.pages[p]))
  }

  lemma OnceThen(s: Space, s1: Space, s2: Space, va: nat, bin: seq<nat>, lo: nat, mid: nat, hi: nat)
    requires lo <= mid <= hi && LoadedOnce(s, s1, va, bin, lo, mid) && LoadedOnce(s1, s2, va, bin, mid, hi)
    ensures LoadedOnce(s, s2, va, bin, lo, hi)
  {
    assert Pages(lo, hi) == Pages(lo, mid) + Pages(mid, hi);
  }

  /** Mapping the page of an aligned address with the file's part there. */
  lemma MapAligned(s: Space, va: nat, bin: seq<nat>, i: nat, src: seq<nat>)
    requires (va + i) % BY2PG == 0 && src == (if i <= |bin| then Part(bin, i) else [])
    ensures LoadedOnce(s, MapPage(s, va + i, 0, src), va, bin, (va + i) / BY2PG, (va + i) / BY2PG + 1)
  {
    var p := (va + i) / BY2PG;
    assert p * BY2PG == va + i;
    forall x: nat | x < BY2PG ensures Content(0, src)[x] == ByteAt(va, bin, p * BY2PG + x) {
    }
    assert Content(0, src) == PageOf(va, bin, p);
  }

  lemma MapFirst(s: Space, va: nat, bin: seq<nat>)
    requires va % BY2PG != 0
    ensures var n := Min(|bin|, BY2PG - va % BY2PG);
            LoadedOnce(s, MapPage(s, va, va % BY2PG, bin[..n]), va, bin, va / BY2PG, va / BY2PG + 1)
  {
    var n, offset, p := Min(|bin|, BY2PG - va % BY2PG), va % BY2PG, va / BY2PG;
    assert p * BY2PG + offset == va;
    forall x: nat | x < BY2PG ensures Content(offset, bin[..n])[x] == ByteAt(va, bin, p * BY2PG + x) {
    }
    assert Content(offset, bin[..n]) == PageOf(va, bin, p);
  }

  lemma NextPage(a: nat)
    requires a % BY2PG == 0
    ensures (a + BY2PG) / BY2PG == a / BY2PG + 1 && (a + BY2PG) % BY2PG == 0
  {
  }

  lemma {:induction false} FileLoopLoads(s: Space, va: nat, bin: seq<nat>, i: nat)
    requires (va + i) % BY2PG == 0
    ensures var (s', i') := FileLoop(s, va, bin, i);
            && i' >= i && i' >= |bin| && (va + i') % BY2PG == 0 && (i' > i ==> i' < |bin| + BY2PG)
            && LoadedOnce(s, s', va, bin, (va + i) / BY2PG, (va + i') / BY2PG)
    decreases |bin| - i
  {
    var lo := (va + i) / BY2PG;
    if i >= |bin| {
      assert Pages(lo, lo) == [];
    } else {
      var s1 := MapPage(s, va + i, 0, Part(bin, i));
      MapAligned(s, va, bin, i, Part(bin, i));
      NextPage(va + i);
      FileLoopLoads(s1, va, bin, i + BY2PG);
      var (s', i') := FileLoop(s1, va, bin, i + BY2PG);
      OnceThen(s, s1, s', va, bin, lo, lo + 1, (va + i') / BY2PG);
    }
  }

  lemma {:induction false} ZeroLoopLoads(s: Space, va: nat, bin: seq<nat>, memsz: nat, i: nat)
    requires (va + i) % BY2PG == 0 && i >= |bin|
    ensures var hi := PageEnd(va + memsz); var lo := (va + i) / BY2PG;
            LoadedOnce(s, ZeroLoop(s, va, memsz, i), va, bin, lo, if lo < hi then hi else lo)
    decreases memsz - i
  {
    var lo, hi := (va + i) / BY2PG, PageEnd(va + memsz);
    if i >= memsz {
      assert Pages(lo, lo) == [] && lo >= hi;
    } else {
      var s1 := MapPage(s, va + i, 0, []);
      assert i == |bin| ==> Part(bin, i) == [];
      MapAligned(s, va, bin, i, []);
      NextPage(va + i);
      ZeroLoopLoads(s1, va, bin, memsz, i + BY2PG);
      assert lo < hi;
      OnceThen(s, s1, ZeroLoop(s1, va, memsz, i + BY2PG), va, bin, lo, lo + 1, if lo + 1 < hi then hi else lo + 1);
    }
  }

  // ----- when loading is right -----

  /** The start is on a page boundary, or the file part reaches the end of the first page, or
      nothing follows the file part. */
  predicate Sound(va: nat, filesz: nat, memsz: nat) {
    va % BY2PG == 0 || filesz >= BY2PG - va % BY2PG || memsz == filesz
  }

  lemma FromAligned(s: Space, s1: Space, va: nat, bin: seq<nat>, memsz: nat, i: nat)
    requires memsz >= |bin| && (va + i) % BY2PG == 0 && i <= |bin|
    requires LoadedOnce(s, s1, va, bin, va / BY2PG, (va + i) / BY2PG)
    ensures var (s2, i2) := FileLoop(s1, va, bin, i);
            LoadedOnce(s, ZeroLoop(s2, va, memsz, i2), va, bin, va / BY2PG, PageEnd(va + memsz))
  {
    var (s2, i2) := FileLoop(s1, va, bin, i);
    FileLoopLoads(s1, va, bin, i);
    ZeroLoopLoads(s2, va, bin, memsz, i2);
    var lo, mid, mid2 := va / BY2PG, (va + i) / BY2PG, (va + i2) / BY2PG;
    var hi := PageEnd(va + memsz);
    EndBound(va, memsz, i2);
    OnceThen(s, s1, s2, va, bin, lo, mid, mid2);
    OnceThen(s, s2, ZeroLoop(s2, va, memsz, i2), va, bin, lo, mid2, hi);
  }

  lemma EndBound(va: nat, memsz: nat, i: nat)
    requires i < memsz + BY2PG && (va + i) % BY2PG == 0
    ensures (va + i) / BY2PG <= PageEnd(va + memsz)
  {
  }

  lemma SoundLoads(s: Space, va: nat, bin: seq<nat>, memsz: nat)
    requires memsz >= |bin| && Sound(va, |bin|, memsz)
    ensures LoadedOnce(s, LoadSeg(s, va, bin, memsz), va, bin, va / BY2PG, PageEnd(va + memsz))
  {
    var offset, lo := va % BY2PG, va / BY2PG;
    if offset == 0 {
      assert Pages(lo, lo) == [];
      FromAligned(s, s, va, bin, memsz, 0);
    } else {
      MapFirst(s, va, bin);
      var n := Min(|bin|, BY2PG - offset);
      var s1 := MapPage(s, va, offset, bin[..n]);
      if |bin| >= BY2PG - offset {
        FirstEnds(va);
        FromAligned(s, s1, va, bin, memsz, n);
      } else {
        OnePage(va, memsz);
      }
    }
  }

  lemma FirstEnds(va: nat)
    ensures (va + (BY2PG - va % BY2PG)) % BY2PG == 0 && (va + (BY2PG - va % BY2PG)) / BY2PG == va / BY2PG + 1
  {
  }

  lemma OnePage(va: nat, n: nat)
    requires 0 < va % BY2PG && va % BY2PG + n < BY2PG
    ensures PageEnd(va + n) == va / BY2PG + 1 && (va + n) / BY2PG == va / BY2PG
  {
  }

  /** Blank pages are added behind the calls made so far, and leave lower pages alone. */
  lemma {:induction false} ZeroLoopExtends(s: Space, va: nat, memsz: nat, i: nat)
    ensures var s' := ZeroLoop(s, va, memsz, i);
            && |s'.calls| >= |s.calls| && s'.calls[..|s.calls|] == s.calls
            && (forall p: nat | p < (va + i) / BY2PG && p in s.pages :: p in s'.pages && s'.pages[p] == s.pages[p])
    decreases memsz - i
  {
    if i < memsz {
      var s1 := MapPage(s, va + i, 0, []);
      ZeroLoopExtends(s1, va, memsz, i + BY2PG);
      var s' := ZeroLoop(s1, va, memsz, i + BY2PG);
      assert s'.calls[..|s.calls|] == s'.calls[..|s1.calls|][..|s.calls|];
      assert (va + i + BY2PG) / BY2PG == (va + i) / BY2PG + 1;
    }
  }

  /** A segment that starts inside a page, whose file part ends in it and which goes on after it,
      has its first page mapped twice; the second time blank, so the file part is lost. */
  lemma ShortStartIsLost(s: Space, va: nat, bin: seq<nat>, memsz: nat)
    requires memsz >= |bin| && !Sound(va, |bin|, memsz)
    ensures var s', p := LoadSeg(s, va, bin, memsz), va / BY2PG;
            && |s'.calls| >= |s.calls| + 2 && s'.calls[|s.calls|] == s'.calls[|s.calls| + 1] == p
            && p in s'.pages && s'.pages[p] == Zeros(BY2PG)
  {
    var offset, p := va % BY2PG, va / BY2PG;
    OnePage(va, |bin|);
    var s1 := MapPage(s, va, offset, bin[..|bin|]);
    var s2 := MapPage(s1, va + |bin|, 0, []);
    assert FirstPage(s, va, bin) == (s1, |bin|);
    assert s2.calls == s.calls + [p, p] && s2.pages[p] == Zeros(BY2PG);
    ZeroLoopExtends(s2, va, memsz, |bin| + BY2PG);
    var s' := ZeroLoop(s2, va, memsz, |bin| + BY2PG);
    assert (va + |bin| + BY2PG) / BY2PG == p + 1;
    assert s'.calls[|s.calls|] == s'.calls[..|s2.calls|][|s.calls|];
    assert s'.calls[|s.calls| + 1] == s'.calls[..|s2.calls|][|s.calls| + 1];
  }

  lemma SecondCall(s: Space, s': Space, va: nat, bin: seq<nat>, lo: nat, hi: nat)
    requires |s'.calls| >= |s.calls| + 2
    ensures LoadedOnce(s, s', va, bin, lo, hi) ==> s'.calls[|s.calls| + 1] == lo + 1
  {
  }

  /** Every covering page is mapped exactly once, with the file bytes followed by zeros, if and only
      if the segment is of the sound kind. */
  lemma LoadIff(s: Space, va: nat, bin: seq<nat>, memsz: nat)
    requires memsz >= |bin|
    ensures LoadedOnce(s, LoadSeg(s, va, bin, memsz), va, bin, va / BY2PG, PageEnd(va + memsz)) <==>
            Sound(va, |bin|, memsz)
  {
    if Sound(va, |bin|, memsz) {
      SoundLoads(s, va, bin, memsz);
    } else {
      ShortStartIsLost(s, va, bin, memsz);
      SecondCall(s, LoadSeg(s, va, bin, memsz), va, bin, va / BY2PG, PageEnd(va + memsz));
    }
  }

  lemma PageInside(va: nat, memsz: nat, j: nat)
    requires j < memsz
    ensures va / BY2PG <= (va + j) / BY2PG < PageEnd(va + memsz)
  {
  }

  /** What the process reads: byte `j` of the segment. */
  lemma SegmentBytes(s: Space, va: nat, bin: seq<nat>, memsz: nat, j: nat)
    requires memsz >= |bin| && Sound(va, |bin|, memsz) && j < memsz
    ensures var s', a := LoadSeg(s, va, bin, memsz), va + j;
            && a / BY2PG in s'.pages && |s'.pages[a / BY2PG]| == BY2PG
            && s'.pages[a / BY2PG][a % BY2PG] == if j < |bin| then bin[j] else 0
  {
    SoundLoads(s, va, bin, memsz);
    var a := va + j;
    assert a == a / BY2PG * BY2PG + a % BY2PG;
    PageInside(va, memsz, j);
    var p: nat := a / BY2PG;
    assert LoadSeg(s, va, bin, memsz).pages[p] == PageOf(va, bin, p);
    assert PageOf(va, bin, p)[a % BY2PG] == ByteAt(va, bin, p * BY2PG + a % BY2PG) == ByteAt(va, bin, a);
  }

  // ----- the loader's own form -----

  lemma {:induction false} FileLoopExtends(s: Space, va: nat, bin: seq<nat>, i: nat)
    ensures |FileLoop(s, va, bin, i).0.calls| >= |s.calls|
    decreases |bin| - i
  {
    if i < |bin| { FileLoopExtends(MapPage(s, va + i, 0, Part(bin, i)), va, bin, i + BY2PG); }
  }

  /** The address space being filled; the mapper fails once `budget` pages have been mapped. */
  class Loader {
    var pages: map<nat, seq<nat>>
    var budget: nat
    ghost var calls: seq<int>

    ghost function State(): Space
      reads this
    {
      Space(pages, calls)
    }

    /** `load_icode_mapper`. */
    method Mapper(va: nat, offset: nat, src: seq<nat>) returns (ok: bool)
      requires offset + |src| <= BY2PG
      modifies this
      ensures ok == (old(budget) > 0)
      ensures ok ==> State() == MapPage(old(State()), va, offset, src) && budget == old(budget) - 1
      ensures !ok ==> State() == old(State()) && budget == old(budget)
    {
      if budget == 0 { return false; }
      budget := budget - 1;
      pages := pages[va / BY2PG := Content(offset, src)];
      calls := calls + [va / BY2PG];
      return true;
    }

    /** `elf_load_seg`: it succeeds exactly when the mapper has enough pages for all calls, and then
        loads what the specification says; when it fails the pages ran out. */
    method ElfLoadSeg(va: nat, bin: seq<nat>, memsz: nat) returns (ok: bool)
      modifies this
      ensures ok <==> |LoadSeg(old(State()), va, bin, memsz).calls| <= |old(calls)| + old(budget)
      ensures ok ==> State() == LoadSeg(old(State()), va, bin, memsz)
      ensures |calls| + budget == |old(calls)| + old(budget)
    {
      ghost var goal := LoadSeg(State(), va, bin, memsz);
      ghost var (s1, i1) := FirstPage(State(), va, bin);
      ghost var (s2, i2) := FileLoop(s1, va, bin, i1);
      FileLoopExtends(s1, va, bin, i1);
      ZeroLoopExtends(s2, va, memsz, i2);
      var offset := va % BY2PG;
      var i := 0;
      if offset != 0 {
        i := Min(|bin|, BY2PG - offset);
        ok := Mapper(va, offset, bin[..i]);
        if !ok { return false; }
      }
      ok, i := LoadFile(va, bin, i);
      if !ok { return false; }
      ok := LoadBlank(va, memsz, i);
    }

    method LoadFile(va: nat, bin: seq<nat>, start: nat) returns (ok: bool, i: nat)
      modifies this
      ensures ok <==> |FileLoop(old(State()), va, bin, start).0.calls| <= |old(calls)| + old(budget)
      ensures ok ==> (State(), i) == FileLoop(old(State()), va, bin, start)
      ensures |calls| + budget == |old(calls)| + old(budget)
    {
      i := start;
      ghost var goal := FileLoop(State(), va, bin, start);
      while i < |bin|
        invariant FileLoop(State(), va, bin, i) == goal
        invariant |calls| + budget == |old(calls)| + old(budget)
        decreases |bin| - i
      {
        FileLoopExtends(MapPage(State(), va + i, 0, Part(bin, i)), va, bin, i + BY2PG);
        ok := Mapper(va + i, 0, bin[i..Min(i + BY2PG, |bin|)]);
        if !ok { return false, i; }
        i := i + BY2PG;
      }
      return true, i;
    }

    method LoadBlank(va: nat, memsz: nat, start: nat) returns (ok: bool)
      modifies this
      ensures ok <==> |ZeroLoop(old(State()), va, memsz, start).calls| <= |old(calls)| + old(budget)
      ensures ok ==> State() == ZeroLoop(old(State()), va, memsz, start)
      ensures |calls| + budget == |old(calls)| + old(budget)
    {
      var i := start;
      ghost var goal := ZeroLoop(State(), va, memsz, start);
      while i < memsz
        invariant i >= 0 && ZeroLoop(State(), va, memsz, i) == goal
        invariant |calls| + budget == |old(calls)| + old(budget)
        decreases memsz - i
      {
        ZeroLoopExtends(MapPage(State(), va + i, 0, []), va, memsz, i + BY2PG);
        ok := Mapper(va + i, 0, []);
        if !ok { return false; }
        i := i + BY2PG;
      }
      return true;
    }
  }
}
