/** Block ownership in the file server (fs/fs.c): the free-block bitmap, the direct and index
    pointers of files, `file_map_block`, `file_clear_block` and `file_truncate`. The disk is an
    array of blocks; write-back is not modelled. */
module FsBlocks {
  import opened Options
  import Bitmap

  const BY2BLK: nat := 4096
  const NDIRECT: nat := 10
  const NINDIRECT: nat := 1024

  datatype File = File(size: nat, direct: seq<nat>, indirect: nat)

  /** `free[b]` is bit b of the bitmap. `words` are the contents of the cached blocks, as the
      server reads them when it uses a block as an index block. */
  datatype Fs = Fs(free: seq<bool>, files: map<nat, File>, words: map<nat, seq<nat>>)

  datatype Code = Ok | NotFound | NoDisk | NoMem | Inval

  // ----- the bitmap -----

  predicate BlockIsFree(s: Fs, b: nat) { b < |s.free| && s.free[b] }

  function FreeBlock(s: Fs, b: nat): Fs {
    if b == 0 || b >= |s.free| then s else s.(free := s.free[b := true])
  }

  /** The scan of `alloc_block_num` from block `b` on. */
  function FirstFree(free: seq<bool>, b: nat): (r: Option<nat>)
    ensures r.Some? ==> b <= r.value < |free| && free[r.value] && forall i | b <= i < r.value :: !free[i]
    ensures r.None? ==> forall i | b <= i < |free| :: !free[i]
    decreases |free| - b
  {
    if b >= |free| then None else if free[b] then Some(b) else FirstFree(free, b + 1)
  }

  /** `alloc_block`; `mem` is false when the block cannot be mapped and is given back. */
  function AllocBlock(s: Fs, mem: bool): (Code, nat, Fs) {
    match FirstFree(s.free, 3)
    case None => (NoDisk, 0, s)
    case Some(b) => if mem then (Ok, b, s.(free := s.free[b := false])) else (NoMem, 0, s)
  }

  // ----- pointers -----

  /** A place that can hold a block number. */
  datatype Ptr = Direct(f: nat, i: nat) | Index(f: nat) | Indirect(f: nat, i: nat)

  predicate ShapeOk(s: Fs) {
    forall f | f in s.files ::
      && |s.files[f].direct| == NDIRECT
      && (s.files[f].indirect != 0 ==>
            s.files[f].indirect in s.words && |s.words[s.files[f].indirect]| == NINDIRECT)
  }

  /** What the place holds; 0 if it holds nothing or does not exist. */
  function Target(s: Fs, p: Ptr): nat
    requires ShapeOk(s)
  {
    match p
    case Direct(f, i) => if f in s.files && i < NDIRECT then s.files[f].direct[i] else 0
    case Index(f) => if f in s.files then s.files[f].indirect else 0
    case Indirect(f, i) =>
      if f in s.files && s.files[f].indirect != 0 && NDIRECT <= i < NINDIRECT
      then s.words[s.files[f].indirect][i] else 0
  }

  /** Every nonzero pointer names a data block of the disk that is marked used, and no two name
      the same one. */
  ghost predicate Own(s: Fs) {
    && ShapeOk(s)
    && (forall p :: Target(s, p) != 0 ==> 3 <= Target(s, p) < |s.free| && !s.free[Target(s, p)])
    && (forall p, q :: Target(s, p) != 0 && Target(s, p) == Target(s, q) ==> p == q)
  }

  /** The pointer for block `n` of a file. */
  function At(f: nat, n: nat): Ptr { if n < NDIRECT then Direct(f, n) else Indirect(f, n) }

  /** The block that holds block `n` of file `f`, 0 for none. */
  function BlockOf(s: Fs, f: nat, n: nat): nat
    requires ShapeOk(s)
  {
    Target(s, At(f, n))
  }

  // ----- writing one pointer -----

  /** `*ptr = b`. */
  function SetPtr(s: Fs, p: Ptr, b: nat): Fs
    requires ShapeOk(s) && p.f in s.files
    requires match p case Direct(f, i) => i < NDIRECT case Index(f) => true
             case Indirect(f, i) => s.files[f].indirect != 0 && NDIRECT <= i < NINDIRECT
  {
    var x := s.files[p.f];
    match p
    case Direct(f, i) => s.(files := s.files[f := x.(direct := x.direct[i := b])])
    case Index(f) => s.(files := s.files[f := x.(indirect := b)])
    case Indirect(f, i) =>
      var w: seq<nat> := s.words[x.indirect][i := b];
      s.(words := s.words[x.indirect := w])
  }

  ghost predicate OnlyChanged(s: Fs, s': Fs, p: Ptr, b: nat) {
    ShapeOk(s) && ShapeOk(s') && forall q :: Target(s', q) == if q == p then b else Target(s, q)
  }

  /** Writing a data pointer changes that pointer alone: index blocks are not shared. */
  lemma SetDataPtr(s: Fs, f: nat, n: nat, b: nat)
    requires Own(s) && f in s.files && n < NINDIRECT && (n >= NDIRECT ==> s.files[f].indirect != 0)
    ensures OnlyChanged(s, SetPtr(s, At(f, n), b), At(f, n), b)
    ensures SetPtr(s, At(f, n), b).free == s.free
    ensures SetPtr(s, At(f, n), b).files.Keys == s.files.Keys
  {
    var s' := SetPtr(s, At(f, n), b);
    if n >= NDIRECT {
      forall g | g in s.files && g != f && s.files[g].indirect != 0
        ensures s.files[g].indirect != s.files[f].indirect
      {
        assert Target(s, Index(g)) == s.files[g].indirect && Target(s, Index(f)) == s.files[f].indirect;
      }
    }
    forall q ensures Target(s', q) == if q == At(f, n) then b else Target(s, q) {
    }
  }

  /** A zeroed index block adds itself and no other pointer. */
  lemma SetIndexPtr(s: Fs, f: nat, b: nat)
    requires Own(s) && f in s.files && s.files[f].indirect == 0 && b != 0
    requires b in s.words && |s.words[b]| == NINDIRECT && forall i | NDIRECT <= i < NINDIRECT :: s.words[b][i] == 0
    ensures OnlyChanged(s, SetPtr(s, Index(f), b), Index(f), b)
  {
    var s' := SetPtr(s, Index(f), b);
    forall q ensures Target(s', q) == if q == Index(f) then b else Target(s, q) {
    }
  }

  /** Taking a free block for a pointer, or giving a pointer's block back, keeps ownership. */
  lemma OwnAfterAlloc(s: Fs, s': Fs, p: Ptr, b: nat)
    requires Own(s) && OnlyChanged(s, s', p, b) && Target(s, p) == 0
    requires 3 <= b < |s.free| && s.free[b] && s'.free == s.free[b := false]
    ensures Own(s')
  {
  }

  lemma OwnAfterFree(s: Fs, s': Fs, p: Ptr)
    requires Own(s) && OnlyChanged(s, s', p, 0) && Target(s, p) != 0
    requires s'.free == s.free[Target(s, p) := true]
    ensures Own(s')
  {
  }

  // ----- file_block_walk, file_map_block, file_clear_block -----

  /** The hypothesis on recycled blocks: the block that would become the index block of `f` reads as
      zeros. `map_block` keeps the old page of a freed block, so the code does not see to it. */
  predicate IndexReady(s: Fs, f: nat) {
    f in s.files && s.files[f].indirect == 0 && FirstFree(s.free, 3).Some? ==>
      var b := FirstFree(s.free, 3).value;
      b in s.words && |s.words[b]| == NINDIRECT && forall i | NDIRECT <= i < NINDIRECT :: s.words[b][i] == 0
  }

  /** `file_block_walk`: afterwards the pointer for block `n` exists. */
  function Walk(s: Fs, f: nat, n: nat, alloc: bool, mem: bool): (Code, Fs)
    requires ShapeOk(s) && f in s.files
  {
    if n < NDIRECT then (Ok, s)
    else if n >= NINDIRECT then (Inval, s)
    else if s.files[f].indirect != 0 then (Ok, s)
    else if !alloc then (NotFound, s)
    else
      var (r, b, s1) := AllocBlock(s, mem);
      if r != Ok then (r, s1) else (Ok, SetPtr(s1, Index(f), b))
  }

  lemma WalkKeeps(s: Fs, f: nat, n: nat, alloc: bool, mem: bool)
    requires Own(s) && f in s.files && (alloc && NDIRECT <= n < NINDIRECT ==> IndexReady(s, f))
    ensures var (r, s1) := Walk(s, f, n, alloc, mem);
            && Own(s1) && s1.files.Keys == s.files.Keys
            && (forall q | q != Index(f) :: Target(s1, q) == Target(s, q))
            && (forall g | g != f && g in s.files :: s1.files[g] == s.files[g])
            && (r == Ok ==> n < NINDIRECT && (n >= NDIRECT ==> s1.files[f].indirect != 0))
            && (r != Ok ==> s1 == s)
            && (s.files[f].indirect != 0 ==> s1 == s)
            && s1.files[f].size == s.files[f].size && |s1.free| == |s.free|
  {
    if NDIRECT <= n < NINDIRECT && s.files[f].indirect == 0 && alloc {
      var (r, b, s1) := AllocBlock(s, mem);
      if r == Ok {
        assert Target(s, Index(f)) == 0;
        SetIndexPtr(s, f, b);
        assert SetPtr(s1, Index(f), b).files == SetPtr(s, Index(f), b).files;
        forall q ensures Target(SetPtr(s1, Index(f), b), q) == Target(SetPtr(s, Index(f), b), q) {
        }
        OwnAfterAlloc(s, SetPtr(s1, Index(f), b), Index(f), b);
      }
    }
  }

  /** `file_map_block`. */
  function MapBlock(s: Fs, f: nat, n: nat, alloc: bool, mem: bool, mem': bool): (Code, nat, Fs)
    requires Own(s) && f in s.files && (alloc && NDIRECT <= n < NINDIRECT ==> IndexReady(s, f))
  {
    WalkKeeps(s, f, n, alloc, mem);
    var (r, s1) := Walk(s, f, n, alloc, mem);
    if r != Ok then (r, 0, s1)
    else if BlockOf(s1, f, n) != 0 then (Ok, BlockOf(s1, f, n), s1)
    else if !alloc then (NotFound, 0, s1)
    else
      var (r', b, s2) := AllocBlock(s1, mem');
      if r' != Ok then (r', 0, s2) else (Ok, b, SetPtr(s2, At(f, n), b))
  }

  /** Placing the first free block in an empty data pointer. */
  lemma PlaceData(s: Fs, f: nat, n: nat, mem: bool)
    requires Own(s) && f in s.files && n < NINDIRECT && (n >= NDIRECT ==> s.files[f].indirect != 0)
    requires BlockOf(s, f, n) == 0 && AllocBlock(s, mem).0 == Ok
    ensures var (_, b, s2) := AllocBlock(s, mem);
            && ShapeOk(s2) && BlockIsFree(s, b) && b != 0
            && Own(SetPtr(s2, At(f, n), b)) && OnlyChanged(s, SetPtr(s2, At(f, n), b), At(f, n), b)
            && SetPtr(s2, At(f, n), b).files.Keys == s.files.Keys
            && |SetPtr(s2, At(f, n), b).free| == |s.free|
  {
    var (_, b, s2) := AllocBlock(s, mem);
    SetDataPtr(s, f, n, b);
    var t, t' := SetPtr(s, At(f, n), b), SetPtr(s2, At(f, n), b);
    assert t'.files == t.files && t'.words == t.words;
    forall q ensures Target(t', q) == Target(t, q) {
    }
    OwnAfterAlloc(s, t', At(f, n), b);
  }

  /** What `file_map_block` promises of its result `(r, b, s')`. */
  ghost predicate Mapped(s: Fs, f: nat, n: nat, alloc: bool, r: Code, b: nat, s': Fs) {
    && Own(s) && Own(s') && s'.files.Keys == s.files.Keys && |s'.free| == |s.free|
    && (r == Ok ==> b != 0 && BlockOf(s', f, n) == b)
    && (BlockOf(s, f, n) != 0 ==> r == Ok && b == BlockOf(s, f, n) && s' == s)
    && (r == Ok && BlockOf(s, f, n) == 0 ==> BlockIsFree(s, b))
    && (forall q | q != Index(f) && q != At(f, n) :: Target(s', q) == Target(s, q))
    && (!alloc ==> s' == s && (r == Ok <==> BlockOf(s, f, n) != 0))
  }

  /** `file_map_block` keeps ownership on every path, also when the index block was allocated and
      the data block was not; it returns the block the pointer now holds, and the only pointers it
      may have changed are that one and the file's index pointer. */
  lemma MapBlockKeeps(s: Fs, f: nat, n: nat, alloc: bool, mem: bool, mem': bool)
    requires Own(s) && f in s.files && (alloc && NDIRECT <= n < NINDIRECT ==> IndexReady(s, f))
    ensures var (r, b, s') := MapBlock(s, f, n, alloc, mem, mem'); Mapped(s, f, n, alloc, r, b, s')
  {
    WalkKeeps(s, f, n, alloc, mem);
    var (r, s1) := Walk(s, f, n, alloc, mem);
    if r == Ok && BlockOf(s1, f, n) == 0 && alloc {
      assert BlockOf(s, f, n) == 0;
      var (r', b, s2) := AllocBlock(s1, mem');
      if r' == Ok {
        PlaceData(s1, f, n, mem');
        FreeBefore(s, f, n, alloc, mem, b);
      }
    }
  }

  /** A block that is free after the walk was free before it. */
  lemma FreeBefore(s: Fs, f: nat, n: nat, alloc: bool, mem: bool, b: nat)
    requires ShapeOk(s) && f in s.files && BlockIsFree(Walk(s, f, n, alloc, mem).1, b)
    ensures BlockIsFree(s, b)
  {
  }

  predicate DataFree(s: Fs, b: nat) { 3 <= b < |s.free| && s.free[b] }

  ghost predicate OneFree(s: Fs) { exists b :: DataFree(s, b) }

  ghost predicate TwoFree(s: Fs) { exists a, b :: a != b && DataFree(s, a) && DataFree(s, b) }

  /** Block `n` has no pointer, because its index block is missing. */
  predicate NeedsIndex(s: Fs, f: nat, n: nat)
    requires f in s.files
  {
    n >= NDIRECT && s.files[f].indirect == 0
  }

  lemma FirstIsOne(s: Fs)
    ensures FirstFree(s.free, 3).Some? <==> OneFree(s)
  {
    if FirstFree(s.free, 3).Some? { assert DataFree(s, FirstFree(s.free, 3).value); }
  }

  /** A second block can be had after a first one was taken exactly if there are two. */
  lemma SecondIsTwo(s: Fs, s1: Fs)
    requires FirstFree(s.free, 3).Some? && s1.free == s.free[FirstFree(s.free, 3).value := false]
    ensures OneFree(s1) <==> TwoFree(s)
  {
    var a := FirstFree(s.free, 3).value;
    assert DataFree(s, a);
    if OneFree(s1) {
      var b :| DataFree(s1, b);
      assert DataFree(s, b) && b != a;
    }
    if TwoFree(s) {
      var b: nat, c: nat :| b != c && DataFree(s, b) && DataFree(s, c);
      assert DataFree(s1, if b == a then c else b);
    }
  }

  /** When `file_map_block` succeeds, on the state before the call: for a block within the limit that is there
      or, if it may be allocated, for which there are enough free blocks, two if the index block is missing;
      and its code otherwise. */
  lemma MapBlockCode(s: Fs, f: nat, n: nat, alloc: bool, mem: bool, mem': bool)
    requires Own(s) && f in s.files && (alloc && NDIRECT <= n < NINDIRECT ==> IndexReady(s, f))
    ensures var r := MapBlock(s, f, n, alloc, mem, mem').0;
            if n >= NINDIRECT then r == Inval
            else if BlockOf(s, f, n) != 0 then r == Ok
            else if !alloc then r == NotFound
            else if !OneFree(s) then r == NoDisk
            else if NeedsIndex(s, f, n) && !mem then r == NoMem
            else if NeedsIndex(s, f, n) && !TwoFree(s) then r == NoDisk
            else r == if mem' then Ok else NoMem
  {
    WalkKeeps(s, f, n, alloc, mem);
    FirstIsOne(s);
    var (r, s1) := Walk(s, f, n, alloc, mem);
    if n < NINDIRECT && BlockOf(s, f, n) == 0 && alloc && r == Ok {
      assert Target(s1, At(f, n)) == Target(s, At(f, n));
      FirstIsOne(s1);
      if NeedsIndex(s, f, n) { SecondIsTwo(s, s1); }
    }
  }

  /** `file_clear_block`. */
  function ClearBlock(s: Fs, f: nat, n: nat): Fs
    requires ShapeOk(s) && f in s.files
  {
    if Walk(s, f, n, false, false).0 != Ok || BlockOf(s, f, n) == 0 then s
    else SetPtr(FreeBlock(s, BlockOf(s, f, n)), At(f, n), 0)
  }

  lemma ClearBlockSpec(s: Fs, f: nat, n: nat)
    requires Own(s) && f in s.files
    ensures var s' := ClearBlock(s, f, n);
            && Own(s') && s'.files.Keys == s.files.Keys && |s'.free| == |s.free|
            && OnlyChanged(s, s', At(f, n), 0)
            && (forall b | 0 <= b < |s.free| :: s'.free[b] == (s.free[b] || (b != 0 && b == BlockOf(s, f, n))))
            && s'.files[f].size == s.files[f].size && s'.files[f].indirect == s.files[f].indirect
            && (forall g | g in s.files && g != f :: s'.files[g] == s.files[g])
  {
    var b, s' := BlockOf(s, f, n), ClearBlock(s, f, n);
    if b != 0 {
      var s1 := FreeBlock(s, b);
      assert n < NINDIRECT && (n >= NDIRECT ==> s.files[f].indirect != 0);
      SetDataPtr(s, f, n, 0);
      forall q ensures Target(s', q) == Target(SetPtr(s, At(f, n), 0), q) {
      }
      OwnAfterFree(s, s', At(f, n));
    }
  }

  // ----- file_truncate -----

  /** The loop of `file_truncate`: clear blocks lo .. hi - 1. */
  function ClearRange(s: Fs, f: nat, lo: nat, hi: nat): Fs
    requires Own(s) && f in s.files
    decreases hi - lo
  {
    if lo >= hi then s
    else
      ClearBlockSpec(s, f, lo);
      ClearRange(ClearBlock(s, f, lo), f, lo + 1, hi)
  }

  /** `p` is the pointer for one of the blocks lo .. hi - 1 of `f`. */
  predicate InRange(p: Ptr, f: nat, lo: nat, hi: nat) {
    match p
    case Direct(g, i) => g == f && i < NDIRECT && lo <= i < hi
    case Index(_) => false
    case Indirect(g, i) => g == f && NDIRECT <= i && lo <= i < hi
  }

  /** `b` holds one of the blocks lo .. hi - 1 of `f`. */
  ghost predicate Holds(s: Fs, f: nat, lo: nat, hi: nat, b: nat)
    requires ShapeOk(s)
  {
    b != 0 && exists n :: lo <= n < hi && BlockOf(s, f, n) == b
  }

  lemma {:induction false} ClearRangeSpec(s: Fs, f: nat, lo: nat, hi: nat)
    requires Own(s) && f in s.files
    ensures var s' := ClearRange(s, f, lo, hi);
            && Own(s') && s'.files.Keys == s.files.Keys && |s'.free| == |s.free|
            && (forall p :: Target(s', p) == if InRange(p, f, lo, hi) then 0 else Target(s, p))
            && (forall b | 0 <= b < |s.free| :: s'.free[b] == (s.free[b] || Holds(s, f, lo, hi, b)))
            && s'.files[f].size == s.files[f].size && s'.files[f].indirect == s.files[f].indirect
            && (forall g | g in s.files && g != f :: s'.files[g] == s.files[g])
    decreases hi - lo
  {
    if lo < hi {
      ClearBlockSpec(s, f, lo);
      var s1 := ClearBlock(s, f, lo);
      ClearRangeSpec(s1, f, lo + 1, hi);
      forall p ensures InRange(p, f, lo, hi) <==> p == At(f, lo) || InRange(p, f, lo + 1, hi) {
      }
      forall b: nat | b < |s.free|
        ensures Holds(s, f, lo, hi, b) <==> (b != 0 && b == BlockOf(s, f, lo)) || Holds(s1, f, lo + 1, hi, b)
      {
        HoldsSplit(s, s1, f, lo, hi, b);
      }
    }
  }

  lemma HoldsSplit(s: Fs, s1: Fs, f: nat, lo: nat, hi: nat, b: nat)
    requires lo < hi && OnlyChanged(s, s1, At(f, lo), 0)
    ensures Holds(s, f, lo, hi, b) <==> (b != 0 && b == BlockOf(s, f, lo)) || Holds(s1, f, lo + 1, hi, b)
  {
    forall n: nat | lo < n ensures BlockOf(s1, f, n) == BlockOf(s, f, n) {
    }
    if Holds(s, f, lo, hi, b) {
      var n :| lo <= n < hi && BlockOf(s, f, n) == b;
      assert n > lo ==> BlockOf(s1, f, n) == b;
    }
    if Holds(s1, f, lo + 1, hi, b) {
      var n :| lo + 1 <= n < hi && BlockOf(s1, f, n) == b;
      assert BlockOf(s, f, n) == b;
    }
  }

  function OldBlocks(size: nat): nat { size / BY2BLK + 1 }

  function NewBlocks(newsize: nat): nat { if newsize == 0 then 0 else newsize / BY2BLK + 1 }

  /** Giving the index block back. */
  function DropIndex(s: Fs, f: nat): Fs
    requires ShapeOk(s) && f in s.files
  {
    if s.files[f].indirect == 0 then s else SetPtr(FreeBlock(s, s.files[f].indirect), Index(f), 0)
  }

  function Resize(s: Fs, f: nat, newsize: nat): Fs
    requires f in s.files
  {
    s.(files := s.files[f := s.files[f].(size := newsize)])
  }

  /** `file_truncate`. */
  function Truncate(s: Fs, f: nat, newsize: nat): Fs
    requires Own(s) && f in s.files
  {
    ClearRangeSpec(s, f, NewBlocks(newsize), OldBlocks(s.files[f].size));
    var s1 := ClearRange(s, f, NewBlocks(newsize), OldBlocks(s.files[f].size));
    Resize(if NewBlocks(newsize) <= NDIRECT then DropIndex(s1, f) else s1, f, newsize)
  }

  lemma DropIndexSpec(s: Fs, f: nat)
    requires Own(s) && f in s.files
    ensures var s' := DropIndex(s, f);
            && Own(s') && s'.files.Keys == s.files.Keys && |s'.free| == |s.free|
            && (forall p :: Target(s', p) == if p == Index(f) || (p.Indirect? && p.f == f) then 0 else Target(s, p))
            && (forall b | 0 <= b < |s.free| :: s'.free[b] == (s.free[b] || (b != 0 && b == s.files[f].indirect)))
            && s'.files[f].size == s.files[f].size
            && (forall g | g in s.files && g != f :: s'.files[g] == s.files[g])
  {
    var b, s' := s.files[f].indirect, DropIndex(s, f);
    if b != 0 {
      assert Target(s, Index(f)) == b;
      assert s'.words == s.words && s'.files == s.files[f := s.files[f].(indirect := 0)];
      forall p
        ensures Target(s', p) == if p == Index(f) || (p.Indirect? && p.f == f) then 0 else Target(s, p)
      {
      }
    }
  }

  lemma ResizeSame(s: Fs, f: nat, newsize: nat)
    requires Own(s) && f in s.files
    ensures var s' := Resize(s, f, newsize);
            Own(s') && (forall p :: Target(s', p) == Target(s, p)) && s'.files.Keys == s.files.Keys
  {
    var s' := Resize(s, f, newsize);
    forall p ensures Target(s', p) == Target(s, p) {
    }
  }

  /** The pointers that truncation sets to zero or drops with the index block. */
  predicate Dropped(p: Ptr, f: nat, now: nat, was: nat) {
    InRange(p, f, now, was) || (now <= NDIRECT && p.f == f && !p.Direct?)
  }

  /** Truncation keeps ownership; it frees exactly the blocks from the new count to the old one and,
      when no block needs it, the index block; pointers below the new count and all pointers of
      other files stay. */
  lemma TruncateSpec(s: Fs, f: nat, newsize: nat)
    requires Own(s) && f in s.files
    ensures var s' := Truncate(s, f, newsize);
            var now, was := NewBlocks(newsize), OldBlocks(s.files[f].size);
            && Own(s') && s'.files.Keys == s.files.Keys && |s'.free| == |s.free|
            && (forall p :: Target(s', p) == if Dropped(p, f, now, was) then 0 else Target(s, p))
            && (forall b | 0 <= b < |s.free| :: s'.free[b] ==
                  (s.free[b] || Holds(s, f, now, was, b) ||
                   (now <= NDIRECT && b != 0 && b == s.files[f].indirect)))
            && s'.files[f].size == newsize
            && (forall g | g in s.files && g != f :: s'.files[g] == s.files[g])
  {
    var now, was := NewBlocks(newsize), OldBlocks(s.files[f].size);
    ClearRangeSpec(s, f, now, was);
    var s1 := ClearRange(s, f, now, was);
    var s2 := if now <= NDIRECT then DropIndex(s1, f) else s1;
    if now <= NDIRECT { DropIndexSpec(s1, f); }
    ResizeSame(s2, f, newsize);
  }

  /** Block `n` lay within the old size and begins beyond the new one. */
  predicate CutOff(n: nat, size: nat, newsize: nat) {
    n * BY2BLK <= size && (newsize == 0 || n * BY2BLK > newsize)
  }

  lemma CountsInBytes(n: nat, size: nat)
    ensures n < OldBlocks(size) <==> n * BY2BLK <= size
    ensures n < NewBlocks(size) <==> size != 0 && n * BY2BLK <= size
    ensures NewBlocks(size) <= NDIRECT <==> size < NDIRECT * BY2BLK
  {
    assert size == BY2BLK * (size / BY2BLK) + size % BY2BLK;
    assert n <= size / BY2BLK <==> n * BY2BLK <= size;
  }

  /** Truncation in bytes: a block with a byte of the file that stays is kept, and not free; a block that lay
      within the old size and begins beyond the new one is cut off, and so are all index pointers when what
      stays fits the direct ones. The blocks freed are exactly those cut off within the old size, and then the
      index block. */
  lemma TruncateBytes(s: Fs, f: nat, newsize: nat)
    requires Own(s) && f in s.files
    ensures Own(Truncate(s, f, newsize)) && |Truncate(s, f, newsize).free| == |s.free|
    ensures forall n: nat | n * BY2BLK < newsize ::
              BlockOf(Truncate(s, f, newsize), f, n) == BlockOf(s, f, n)
    ensures forall n: nat | CutOff(n, s.files[f].size, newsize) :: BlockOf(Truncate(s, f, newsize), f, n) == 0
    ensures forall b | 0 < b < |s.free| ::
              Truncate(s, f, newsize).free[b] <==>
                || s.free[b] || (newsize < NDIRECT * BY2BLK && b == s.files[f].indirect)
                || exists n: nat :: CutOff(n, s.files[f].size, newsize) && BlockOf(s, f, n) == b
  {
    var s', size := Truncate(s, f, newsize), s.files[f].size;
    var now, was := NewBlocks(newsize), OldBlocks(size);
    TruncateSpec(s, f, newsize);
    CountsInBytes(0, newsize);
    forall n: nat ensures now <= n < was <==> CutOff(n, size, newsize) {
      CountsInBytes(n, size);
      CountsInBytes(n, newsize);
    }
    forall n: nat | n * BY2BLK < newsize ensures BlockOf(s', f, n) == BlockOf(s, f, n) {
      CountsInBytes(n, newsize);
      assert !Dropped(At(f, n), f, now, was);
    }
    forall n: nat | CutOff(n, size, newsize) ensures BlockOf(s', f, n) == 0 {
      assert InRange(At(f, n), f, now, was);
    }
    forall b: nat | 0 < b < |s.free|
      ensures Holds(s, f, now, was, b) <==> exists n: nat :: CutOff(n, size, newsize) && BlockOf(s, f, n) == b
    {
      HeldIsCut(s, f, newsize, b);
    }
  }

  lemma HeldIsCut(s: Fs, f: nat, newsize: nat, b: nat)
    requires ShapeOk(s) && f in s.files && b != 0
    requires forall n: nat ::
               NewBlocks(newsize) <= n < OldBlocks(s.files[f].size) <==> CutOff(n, s.files[f].size, newsize)
    ensures Holds(s, f, NewBlocks(newsize), OldBlocks(s.files[f].size), b) <==>
            exists n: nat :: CutOff(n, s.files[f].size, newsize) && BlockOf(s, f, n) == b
  {
  }

  /** So a byte of the file that stays is where it was, in a block that nobody else can get. */
  lemma BytesStay(s: Fs, f: nat, newsize: nat, off: nat)
    requires Own(s) && f in s.files && off < newsize
    ensures var s', b := Truncate(s, f, newsize), BlockOf(s, f, off / BY2BLK);
            Own(s') && BlockOf(s', f, off / BY2BLK) == b && (b != 0 ==> b < |s'.free| && !s'.free[b])
  {
    TruncateBytes(s, f, newsize);
  }

  // ----- truncation conserves blocks -----

  /** No pointer of `f` lies at block `n` or beyond. */
  ghost predicate NoneFrom(s: Fs, f: nat, n: nat)
    requires ShapeOk(s)
  {
    forall k | k >= n :: BlockOf(s, f, k) == 0
  }

  /** `b` is one of the blocks a truncation to `now` blocks has to give back: a block of the file
      at index `now` or beyond, or the index block when direct pointers suffice. */
  ghost predicate Due(s: Fs, f: nat, now: nat, b: nat)
    requires ShapeOk(s) && f in s.files
  {
    b != 0 && ((now <= NDIRECT && b == s.files[f].indirect) || exists n :: n >= now && BlockOf(s, f, n) == b)
  }

  ghost predicate FreesExactly(s: Fs, f: nat, newsize: nat)
    requires Own(s) && f in s.files
  {
    TruncateSpec(s, f, newsize);
    var s' := Truncate(s, f, newsize);
    forall b | 0 <= b < |s.free| :: s'.free[b] == (s.free[b] || Due(s, f, NewBlocks(newsize), b))
  }

  function Max(a: nat, b: nat): nat { if a < b then b else a }

  /** Truncation frees exactly the blocks that are due if and only if no pointer lies beyond both
      the old and the new size. */
  lemma TruncateExactIff(s: Fs, f: nat, newsize: nat)
    requires Own(s) && f in s.files
    ensures FreesExactly(s, f, newsize) <==>
            NoneFrom(s, f, Max(NewBlocks(newsize), OldBlocks(s.files[f].size)))
  {
    var now, was := NewBlocks(newsize), OldBlocks(s.files[f].size);
    TruncateSpec(s, f, newsize);
    if NoneFrom(s, f, Max(now, was)) {
      forall b: nat | b < |s.free|
        ensures Due(s, f, now, b) <==>
                Holds(s, f, now, was, b) || (now <= NDIRECT && b != 0 && b == s.files[f].indirect)
      {
        DueIsHeld(s, f, now, was, b);
      }
    } else {
      var k :| k >= Max(now, was) && BlockOf(s, f, k) != 0;
      LeftBehind(s, f, newsize, k);
    }
  }

  lemma DueIsHeld(s: Fs, f: nat, now: nat, was: nat, b: nat)
    requires ShapeOk(s) && f in s.files && NoneFrom(s, f, Max(now, was))
    ensures Due(s, f, now, b) <==> Holds(s, f, now, was, b) || (now <= NDIRECT && b != 0 && b == s.files[f].indirect)
  {
    if Due(s, f, now, b) && !(now <= NDIRECT && b == s.files[f].indirect) {
      var n :| n >= now && BlockOf(s, f, n) == b;
      assert n < was;
    } else if Holds(s, f, now, was, b) {
      var n :| now <= n < was && BlockOf(s, f, n) == b;
      assert n >= now;
    }
  }

  /** A block beyond both sizes is due and stays marked used. */
  lemma LeftBehind(s: Fs, f: nat, newsize: nat, k: nat)
    requires Own(s) && f in s.files && BlockOf(s, f, k) != 0
    requires k >= NewBlocks(newsize) && k >= OldBlocks(s.files[f].size)
    ensures !FreesExactly(s, f, newsize)
  {
    var now, was := NewBlocks(newsize), OldBlocks(s.files[f].size);
    var b := BlockOf(s, f, k);
    TruncateSpec(s, f, newsize);
    assert Due(s, f, now, b);
    assert Target(s, At(f, k)) == b && Target(s, Index(f)) == s.files[f].indirect;
    forall n: nat | now <= n < was ensures BlockOf(s, f, n) != b {
      assert At(f, n) != At(f, k);
    }
    assert !Holds(s, f, now, was, b);
    assert !Truncate(s, f, newsize).free[b];
  }

  // ----- runs -----

  /** The block operations of the server. `Grow` is `file_set_size` upwards and the growth of a
      directory; `Record` is a zeroed file record in a new directory block; `Write` puts data into a block
      that is no index block, through the server's cache or through a client's mapping of it. */
  datatype Op =
    | Map(f: nat, n: nat, alloc: bool, mem: bool, mem': bool)
    | Clear(f: nat, n: nat)
    | Trunc(f: nat, newsize: nat)
    | Grow(f: nat, newsize: nat)
    | Record(f: nat)
    | Write(b: nat, w: seq<nat>)

  predicate Enabled(s: Fs, op: Op) {
    match op
    case Map(f, n, alloc, _, _) => f in s.files && (alloc && NDIRECT <= n < NINDIRECT ==> IndexReady(s, f))
    case Clear(f, _) => f in s.files
    case Trunc(f, _) => f in s.files
    case Grow(f, size) => f in s.files && s.files[f].size <= size
    case Record(f) => f !in s.files
    case Write(b, w) => |w| == NINDIRECT && forall f | f in s.files :: s.files[f].indirect != b
  }

  function ZeroRecord(): File { File(0, seq(NDIRECT, i => 0), 0) }

  function Do(s: Fs, op: Op): Fs
    requires Own(s) && Enabled(s, op)
  {
    match op
    case Map(f, n, alloc, mem, mem') => MapBlock(s, f, n, alloc, mem, mem').2
    case Clear(f, n) => ClearBlock(s, f, n)
    case Trunc(f, newsize) => Truncate(s, f, newsize)
    case Grow(f, newsize) => Resize(s, f, newsize)
    case Record(f) => s.(files := s.files[f := ZeroRecord()])
    case Write(b, w) => s.(words := s.words[b := w])
  }

  lemma RecordSame(s: Fs, f: nat)
    requires Own(s) && f !in s.files
    ensures var s' := s.(files := s.files[f := ZeroRecord()]);
            Own(s') && forall p :: Target(s', p) == Target(s, p)
  {
    var s' := s.(files := s.files[f := ZeroRecord()]);
    assert |ZeroRecord().direct| == NDIRECT;
    forall p ensures Target(s', p) == Target(s, p) {
    }
  }

  lemma WriteSame(s: Fs, b: nat, w: seq<nat>)
    requires Own(s) && Enabled(s, Write(b, w))
    ensures var s' := s.(words := s.words[b := w]); Own(s') && forall p :: Target(s', p) == Target(s, p)
  {
    var s' := s.(words := s.words[b := w]);
    forall p ensures Target(s', p) == Target(s, p) {
    }
  }

  lemma DoKeeps(s: Fs, op: Op)
    requires Own(s) && Enabled(s, op)
    ensures Own(Do(s, op)) && |Do(s, op).free| == |s.free|
  {
    match op
    case Map(f, n, alloc, mem, mem') => MapBlockKeeps(s, f, n, alloc, mem, mem');
    case Clear(f, n) => ClearBlockSpec(s, f, n);
    case Trunc(f, newsize) => TruncateSpec(s, f, newsize);
    case Grow(f, newsize) => ResizeSame(s, f, newsize);
    case Record(f) => RecordSame(s, f);
    case Write(b, w) => WriteSame(s, b, w);
  }

  /** The contents of all blocks but `x` are the same. */
  ghost predicate SameData(s: Fs, s': Fs, x: nat) {
    forall b | b in s.words && b != x :: b in s'.words && s'.words[b] == s.words[b]
  }

  lemma {:induction false} ClearRangeData(s: Fs, f: nat, lo: nat, hi: nat)
    requires Own(s) && f in s.files
    ensures f in ClearRange(s, f, lo, hi).files && SameData(s, ClearRange(s, f, lo, hi), s.files[f].indirect)
    decreases hi - lo
  {
    if lo < hi {
      ClearBlockSpec(s, f, lo);
      ClearRangeData(ClearBlock(s, f, lo), f, lo + 1, hi);
    }
  }

  lemma MapBlockData(s: Fs, f: nat, n: nat, alloc: bool, mem: bool, mem': bool)
    requires Own(s) && f in s.files && (alloc && NDIRECT <= n < NINDIRECT ==> IndexReady(s, f))
    ensures var s' := MapBlock(s, f, n, alloc, mem, mem').2; f in s'.files && SameData(s, s', s'.files[f].indirect)
  {
    MapBlockKeeps(s, f, n, alloc, mem, mem');
    WalkKeeps(s, f, n, alloc, mem);
  }

  /** No operation changes what a data block holds, but a write to that block; and that write is all it does. */
  lemma DataStays(s: Fs, op: Op, b: nat)
    requires Own(s) && Enabled(s, op) && b in s.words && !(op.Write? && op.b == b)
    requires forall f | f in s.files :: s.files[f].indirect != b
    requires forall f | f in Do(s, op).files :: Do(s, op).files[f].indirect != b
    ensures b in Do(s, op).words && Do(s, op).words[b] == s.words[b]
  {
    match op
    case Map(f, n, alloc, mem, mem') => MapBlockData(s, f, n, alloc, mem, mem');
    case Trunc(f, newsize) => ClearRangeData(s, f, NewBlocks(newsize), OldBlocks(s.files[f].size));
    case _ =>
  }

  lemma WriteOnly(s: Fs, b: nat, w: seq<nat>)
    requires Own(s) && Enabled(s, Write(b, w))
    ensures var s' := Do(s, Write(b, w));
            && b in s'.words && s'.words[b] == w && SameData(s, s', b) && s'.files == s.files && s'.free == s.free
            && (forall f, n :: BlockOf(s', f, n) == BlockOf(s, f, n))
  {
    WriteSame(s, b, w);
  }

  ghost predicate Run(ss: seq<Fs>, ops: seq<Op>) {
    && |ss| == |ops| + 1
    && Own(ss[0])
    && forall k: nat | k < |ops| :: Own(ss[k]) ==> Enabled(ss[k], ops[k]) && ss[k + 1] == Do(ss[k], ops[k])
  }

  /** Ownership holds in every state of every run. */
  lemma {:induction false} RunKeeps(ss: seq<Fs>, ops: seq<Op>, k: nat)
    requires Run(ss, ops) && k < |ss|
    ensures Own(ss[k])
  {
    if k > 0 {
      RunKeeps(ss, ops, k - 1);
      DoKeeps(ss[k - 1], ops[k - 1]);
    }
  }

  // ----- no block is lost -----

  /** No file has a pointer beyond its size, and each used block from `base` on, the first one after
      the bitmap, is some pointer's. */
  ghost predicate Tight(s: Fs, base: nat) {
    && Own(s)
    && (forall f | f in s.files :: NoneFrom(s, f, OldBlocks(s.files[f].size)))
    && NoLeak(s, base)
  }

  ghost predicate NoLeak(s: Fs, base: nat)
    requires ShapeOk(s)
  {
    forall b | base <= b < |s.free| && !s.free[b] && b != 0 :: exists p :: Target(s, p) == b
  }

  /** Blocks are mapped inside the file. A block beyond both sizes would be lost by truncation. */
  predicate InSize(s: Fs, op: Op) {
    op.Map? && op.f in s.files ==> op.n < OldBlocks(s.files[op.f].size)
  }

  ghost predicate TakesOnly(s: Fs, s': Fs, b: nat) {
    && |s'.free| == |s.free|
    && (forall c | 0 <= c < |s.free| && s.free[c] && !s'.free[c] :: c == b)
    && (forall g | g in s.files :: g in s'.files && s'.files[g].size == s.files[g].size)
  }

  lemma WalkTakes(s: Fs, f: nat, n: nat, alloc: bool, mem: bool)
    requires ShapeOk(s) && f in s.files
    ensures var s1 := Walk(s, f, n, alloc, mem).1;
            && f in s1.files && TakesOnly(s, s1, s1.files[f].indirect)
            && (s.files[f].indirect != 0 ==> s1.files[f].indirect == s.files[f].indirect)
  {
  }

  lemma PlaceTakes(s: Fs, f: nat, n: nat, mem: bool)
    requires ShapeOk(s) && f in s.files && n < NINDIRECT && (n >= NDIRECT ==> s.files[f].indirect != 0)
    requires AllocBlock(s, mem).0 == Ok
    ensures var (_, b, s2) := AllocBlock(s, mem);
            var s' := SetPtr(s2, At(f, n), b);
            && ShapeOk(s2) && TakesOnly(s, s', b) && s'.files[f].indirect == s.files[f].indirect
  {
  }

  /** The blocks that `file_map_block` takes are the index block and the data block of the pointer. */
  lemma MapBlockTakes(s: Fs, f: nat, n: nat, alloc: bool, mem: bool, mem': bool)
    requires Own(s) && f in s.files && (alloc && NDIRECT <= n < NINDIRECT ==> IndexReady(s, f))
    ensures var (r, b, s') := MapBlock(s, f, n, alloc, mem, mem');
            && |s'.free| == |s.free| && f in s'.files
            && (forall c | 0 <= c < |s.free| && s.free[c] && !s'.free[c] ::
                  c == s'.files[f].indirect || (r == Ok && c == b))
            && (s.files[f].indirect != 0 ==> s'.files[f].indirect == s.files[f].indirect)
            && (forall g | g in s.files :: g in s'.files && s'.files[g].size == s.files[g].size)
  {
    WalkKeeps(s, f, n, alloc, mem);
    WalkTakes(s, f, n, alloc, mem);
    var (r, s1) := Walk(s, f, n, alloc, mem);
    if r == Ok && BlockOf(s1, f, n) == 0 && alloc && AllocBlock(s1, mem').0 == Ok {
      PlaceTakes(s1, f, n, mem');
    }
  }

  /** `s'` is `s` with some free blocks taken by the index pointer and the pointer for block `n`. */
  ghost predicate Extended(s: Fs, s': Fs, f: nat, n: nat) {
    && ShapeOk(s) && ShapeOk(s') && |s'.free| == |s.free| && s'.files.Keys == s.files.Keys
    && (forall q | Target(s, q) != 0 || (q != Index(f) && q != At(f, n)) :: Target(s', q) == Target(s, q))
    && (forall c | 0 <= c < |s.free| && s.free[c] && !s'.free[c] ::
          c == Target(s', Index(f)) || c == Target(s', At(f, n)))
    && (forall g | g in s.files :: s'.files[g].size == s.files[g].size)
  }

  lemma ExtendedTight(s: Fs, s': Fs, base: nat, f: nat, n: nat)
    requires Tight(s, base) && Own(s') && Extended(s, s', f, n) && f in s.files && n < OldBlocks(s.files[f].size)
    ensures Tight(s', base)
  {
    forall b: nat | base <= b < |s'.free| && !s'.free[b] && b != 0 ensures exists p :: Target(s', p) == b {
      if s.free[b] {
        assert b == Target(s', Index(f)) || b == Target(s', At(f, n));
      } else {
        var p :| Target(s, p) == b;
        assert Target(s', p) == b;
      }
    }
    forall g, k: nat | g in s'.files && k >= OldBlocks(s'.files[g].size) ensures BlockOf(s', g, k) == 0 {
      assert BlockOf(s, g, k) == 0;
      assert At(g, k) != At(f, n) && At(g, k) != Index(f);
    }
  }

  lemma MapTight(s: Fs, base: nat, f: nat, n: nat, alloc: bool, mem: bool, mem': bool)
    requires Tight(s, base) && Enabled(s, Map(f, n, alloc, mem, mem')) && n < OldBlocks(s.files[f].size)
    ensures Tight(MapBlock(s, f, n, alloc, mem, mem').2, base)
  {
    var (r, b, s') := MapBlock(s, f, n, alloc, mem, mem');
    MapBlockKeeps(s, f, n, alloc, mem, mem');
    MapBlockTakes(s, f, n, alloc, mem, mem');
    assert Target(s', Index(f)) == s'.files[f].indirect && Target(s, Index(f)) == s.files[f].indirect;
    ExtendedTight(s, s', base, f, n);
  }

  lemma ClearTight(s: Fs, base: nat, f: nat, n: nat)
    requires Tight(s, base) && f in s.files
    ensures Tight(ClearBlock(s, f, n), base)
  {
    var s' := ClearBlock(s, f, n);
    ClearBlockSpec(s, f, n);
    forall b: nat | base <= b < |s'.free| && !s'.free[b] && b != 0 ensures exists p :: Target(s', p) == b {
      var p :| Target(s, p) == b;
      assert Target(s', p) == b;
    }
    forall g, k: nat | g in s'.files && k >= OldBlocks(s'.files[g].size) ensures BlockOf(s', g, k) == 0 {
      assert BlockOf(s, g, k) == 0;
    }
  }

  lemma TruncTight(s: Fs, base: nat, f: nat, newsize: nat)
    requires Tight(s, base) && f in s.files
    ensures Tight(Truncate(s, f, newsize), base)
  {
    var s' := Truncate(s, f, newsize);
    var now, was := NewBlocks(newsize), OldBlocks(s.files[f].size);
    TruncateSpec(s, f, newsize);
    TruncateExactIff(s, f, newsize);
    forall b: nat | base <= b < |s'.free| && !s'.free[b] && b != 0 ensures exists p :: Target(s', p) == b {
      var p :| Target(s, p) == b;
      DroppedIsDue(s, f, now, was, p);
      assert Target(s', p) == b;
    }
    forall g, k: nat | g in s'.files && k >= OldBlocks(s'.files[g].size) ensures BlockOf(s', g, k) == 0 {
      if g == f {
        assert k < was ==> InRange(At(f, k), f, now, was);
        assert k >= was ==> BlockOf(s, g, k) == 0;
      } else {
        assert BlockOf(s, g, k) == 0;
      }
    }
  }

  lemma DroppedIsDue(s: Fs, f: nat, now: nat, was: nat, p: Ptr)
    requires ShapeOk(s) && f in s.files
    ensures Dropped(p, f, now, was) && Target(s, p) != 0 ==> Due(s, f, now, Target(s, p))
  {
    if Dropped(p, f, now, was) && Target(s, p) != 0 && !p.Index? {
      assert BlockOf(s, f, p.i) == Target(s, p);
    }
  }

  lemma StepTight(s: Fs, base: nat, op: Op)
    requires Tight(s, base) && Enabled(s, op) && InSize(s, op)
    ensures Tight(Do(s, op), base)
  {
    match op
    case Map(f, n, alloc, mem, mem') => MapTight(s, base, f, n, alloc, mem, mem');
    case Clear(f, n) => ClearTight(s, base, f, n);
    case Trunc(f, newsize) => TruncTight(s, base, f, newsize);
    case Grow(f, newsize) => GrowTight(s, base, f, newsize);
    case Record(f) => RecordTight(s, base, f);
    case Write(b, w) => WriteTight(s, base, b, w);
  }

  lemma GrowTight(s: Fs, base: nat, f: nat, newsize: nat)
    requires Tight(s, base) && f in s.files && s.files[f].size <= newsize
    ensures Tight(Resize(s, f, newsize), base)
  {
    var s' := Resize(s, f, newsize);
    ResizeSame(s, f, newsize);
    forall g, k: nat | g in s'.files && k >= OldBlocks(s'.files[g].size) ensures BlockOf(s', g, k) == 0 {
      assert k >= OldBlocks(s.files[g].size);
      assert BlockOf(s, g, k) == 0;
    }
    forall b: nat | base <= b < |s'.free| && !s'.free[b] && b != 0 ensures exists p :: Target(s', p) == b {
      var p :| Target(s, p) == b;
      assert Target(s', p) == b;
    }
  }

  lemma RecordTight(s: Fs, base: nat, f: nat)
    requires Tight(s, base) && f !in s.files
    ensures Tight(s.(files := s.files[f := ZeroRecord()]), base)
  {
    var s' := s.(files := s.files[f := ZeroRecord()]);
    RecordSame(s, f);
    forall g, k: nat | g in s'.files && k >= OldBlocks(s'.files[g].size) ensures BlockOf(s', g, k) == 0 {
      assert BlockOf(s', g, k) == BlockOf(s, g, k);
    }
    forall b: nat | base <= b < |s'.free| && !s'.free[b] && b != 0 ensures exists p :: Target(s', p) == b {
      var p :| Target(s, p) == b;
      assert Target(s', p) == b;
    }
  }

  lemma WriteTight(s: Fs, base: nat, b: nat, w: seq<nat>)
    requires Tight(s, base) && Enabled(s, Write(b, w))
    ensures Tight(s.(words := s.words[b := w]), base)
  {
    var s' := s.(words := s.words[b := w]);
    WriteSame(s, b, w);
    forall g, k: nat | g in s'.files && k >= OldBlocks(s'.files[g].size) ensures BlockOf(s', g, k) == 0 {
      assert BlockOf(s, g, k) == 0;
    }
    forall b: nat | base <= b < |s'.free| && !s'.free[b] && b != 0 ensures exists p :: Target(s', p) == b {
      var p :| Target(s, p) == b;
      assert Target(s', p) == b;
    }
  }

  /** Conservation: as long as blocks are mapped inside files, a block after the bitmap is used
      exactly when one pointer, and only one, names it. */
  lemma {:induction false} RunConserves(ss: seq<Fs>, ops: seq<Op>, base: nat, k: nat)
    requires Run(ss, ops) && Tight(ss[0], base) && k < |ss| && base >= 3
    requires forall j: nat | j < |ops| :: InSize(ss[j], ops[j])
    ensures Tight(ss[k], base)
    ensures forall b: nat | base <= b < |ss[k].free| :: !ss[k].free[b] <==> exists p :: Target(ss[k], p) == b
    ensures forall p, q :: Target(ss[k], p) != 0 && Target(ss[k], p) == Target(ss[k], q) ==> p == q
  {
    if k > 0 {
      RunConserves(ss, ops, base, k - 1);
      StepTight(ss[k - 1], base, ops[k - 1]);
    }
  }

  // ----- the hypothesis on recycled blocks is needed -----

  /** On a disk whose used blocks are all owned, taking an index block keeps ownership exactly when
      the block reads as zeros from entry NDIRECT on. */
  lemma IndexReadyIff(s: Fs, f: nat, n: nat)
    requires Tight(s, 3) && f in s.files && s.files[f].indirect == 0 && NDIRECT <= n < NINDIRECT
    requires FirstFree(s.free, 3).Some? && FirstFree(s.free, 3).value in s.words
    requires |s.words[FirstFree(s.free, 3).value]| == NINDIRECT
    ensures Own(Walk(s, f, n, true, true).1) <==> IndexReady(s, f)
  {
    if IndexReady(s, f) {
      WalkKeeps(s, f, n, true, true);
    } else {
      var b := FirstFree(s.free, 3).value;
      var i :| NDIRECT <= i < NINDIRECT && s.words[b][i] != 0;
      StaleEntry(s, f, n, b, i);
    }
  }

  lemma StaleEntry(s: Fs, f: nat, n: nat, b: nat, i: nat)
    requires Tight(s, 3) && f in s.files && s.files[f].indirect == 0 && NDIRECT <= n < NINDIRECT
    requires FirstFree(s.free, 3) == Some(b) && b in s.words && |s.words[b]| == NINDIRECT
    requires NDIRECT <= i < NINDIRECT && s.words[b][i] != 0
    ensures !Own(Walk(s, f, n, true, true).1)
  {
    var s', e := Walk(s, f, n, true, true).1, s.words[b][i];
    assert ShapeOk(s') && Target(s', Indirect(f, i)) == e && Target(s', Index(f)) == b;
    if 3 <= e < |s.free| && !s.free[e] {
      var p :| Target(s, p) == e;
      assert !p.Indirect? || p.f != f;
      assert Target(s', p) == e;
    }
  }

  /** Such a disk: file 1 owns block 3, and free block 4 still reads as an index block naming it.
      Mapping block 10 of file 0 makes the two files share block 3. */
  function StaleDisk(): Fs {
    var z: seq<nat> := [0, 0, 0, 0, 0, 0, 0, 0, 0, 0];
    Fs([false, false, false, false, true], map[0 := File(0, z, 0), 1 := File(0, z[0 := 3], 0)],
       map[4 := StaleWords()])
  }

  function StaleWords(): seq<nat> { seq(NINDIRECT, i => if i == 12 then 3 else 0) }

  lemma StaleIndexShares()
    ensures Own(StaleDisk()) && !IndexReady(StaleDisk(), 0)
    ensures var (r, s') := Walk(StaleDisk(), 0, 10, true, true);
            r == Ok && ShapeOk(s') && BlockOf(s', 0, 12) == 3 == BlockOf(s', 1, 0)
  {
    var s := StaleDisk();
    forall p | Target(s, p) != 0 ensures p == Direct(1, 0) && Target(s, p) == 3 {
    }
    assert FirstFree(s.free, 3) == Some(4) by {
      assert FirstFree(s.free, 4) == Some(4);
    }
    assert StaleWords()[12] == 3;
  }

  // ----- the server's own form -----

  /** The bitmap words, the file records and the cached blocks, updated in place. */
  class FileSys {
    const bitmap: array<nat>
    const nblocks: nat
    var files: map<nat, File>
    var words: map<nat, seq<nat>>

    constructor (bitmap: array<nat>, nblocks: nat, files: map<nat, File>, words: map<nat, seq<nat>>)
      requires nblocks <= 32 * bitmap.Length
      ensures Valid() && this.bitmap == bitmap
      ensures State() == Fs(Bitmap.Bits(bitmap[..], nblocks), files, words)
    {
      this.bitmap, this.nblocks, this.files, this.words := bitmap, nblocks, files, words;
    }

    ghost predicate Valid() { nblocks <= 32 * bitmap.Length }

    ghost function State(): Fs
      requires Valid()
      reads this, bitmap
    {
      Fs(Bitmap.Bits(bitmap[..], nblocks), files, words)
    }

    /** Write the bit of one block. */
    method Mark(b: nat, v: bool)
      requires Valid() && b < nblocks
      modifies bitmap
      ensures State() == old(State()).(free := old(State()).free[b := v])
    {
      ghost var m := bitmap[..];
      bitmap[b / 32] := Bitmap.Put(bitmap[b / 32], b % 32, v);
      assert bitmap[..] == Bitmap.PutBlock(m, b, v);
      Bitmap.PutBlockSpec(m, nblocks, b, v);
    }

    method GiveBack(b: nat)
      requires Valid()
      modifies bitmap
      ensures State() == FreeBlock(old(State()), b)
    {
      if b != 0 && b < nblocks { Mark(b, true); }
    }

    /** `alloc_block_num`: the lowest free block from 3 on. */
    method TakeNumber() returns (r: Option<nat>)
      requires Valid()
      modifies bitmap
      ensures r == FirstFree(old(State()).free, 3)
      ensures State() == match r
                         case None => old(State())
                         case Some(b) => old(State()).(free := old(State()).free[b := false])
    {
      var b := 3;
      while b < nblocks
        invariant 3 <= b && (b <= nblocks || b == 3)
        invariant bitmap[..] == old(bitmap[..])
        invariant FirstFree(State().free, 3) == FirstFree(State().free, b)
      {
        if Bitmap.Bit(bitmap[b / 32], b % 32) {
          Mark(b, false);
          return Some(b);
        }
        b := b + 1;
      }
      return None;
    }

    method Take(mem: bool) returns (r: Code, b: nat)
      requires Valid()
      modifies bitmap
      ensures (r, b, State()) == AllocBlock(old(State()), mem)
    {
      var n := TakeNumber();
      match n
      case None => return NoDisk, 0;
      case Some(k) =>
        if mem { return Ok, k; }
        GiveBack(k);
        assert State().free == old(State()).free;
        return NoMem, 0;
    }

    /** `*ptr = b`. */
    method Store(p: Ptr, b: nat)
      requires Valid() && ShapeOk(State()) && p.f in files
      requires match p case Direct(f, i) => i < NDIRECT case Index(f) => true
               case Indirect(f, i) => files[f].indirect != 0 && NDIRECT <= i < NINDIRECT
      modifies this
      ensures State() == SetPtr(old(State()), p, b)
    {
      var x := files[p.f];
      match p
      case Direct(f, i) => files := files[f := x.(direct := x.direct[i := b])];
      case Index(f) => files := files[f := x.(indirect := b)];
      case Indirect(f, i) =>
        var w: seq<nat> := words[x.indirect][i := b];
        words := words[x.indirect := w];
    }

    /** The pointer for block `n`, as `file_block_walk` leaves it. */
    method Load(f: nat, n: nat) returns (b: nat)
      requires Valid() && ShapeOk(State()) && f in files && n < NINDIRECT
      requires n >= NDIRECT ==> files[f].indirect != 0
      ensures b == BlockOf(State(), f, n)
    {
      if n < NDIRECT { b := files[f].direct[n]; } else { b := words[files[f].indirect][n]; }
    }

    method BlockWalk(f: nat, n: nat, alloc: bool, mem: bool) returns (r: Code)
      requires Valid() && ShapeOk(State()) && f in files
      modifies this, bitmap
      ensures (r, State()) == Walk(old(State()), f, n, alloc, mem)
    {
      if n < NDIRECT { return Ok; }
      if n >= NINDIRECT { return Inval; }
      if files[f].indirect == 0 {
        if !alloc { return NotFound; }
        var b;
        r, b := Take(mem);
        if r != Ok { return; }
        Store(Index(f), b);
      }
      return Ok;
    }

    method FileMapBlock(f: nat, n: nat, alloc: bool, mem: bool, mem': bool) returns (r: Code, b: nat)
      requires Valid() && Own(State()) && f in files
      requires alloc && NDIRECT <= n < NINDIRECT ==> IndexReady(State(), f)
      modifies this, bitmap
      ensures (r, b, State()) == MapBlock(old(State()), f, n, alloc, mem, mem')
      ensures Own(State())
    {
      MapBlockKeeps(State(), f, n, alloc, mem, mem');
      WalkKeeps(State(), f, n, alloc, mem);
      r := BlockWalk(f, n, alloc, mem);
      if r != Ok { return r, 0; }
      b := Load(f, n);
      if b == 0 {
        if !alloc { return NotFound, 0; }
        r, b := Take(mem');
        if r != Ok { return r, 0; }
        Store(At(f, n), b);
      }
    }

    method FileClearBlock(f: nat, n: nat) returns (r: Code)
      requires Valid() && Own(State()) && f in files
      modifies this, bitmap
      ensures State() == ClearBlock(old(State()), f, n) && Own(State()) && f in files
      ensures r == Walk(old(State()), f, n, false, false).0
    {
      ClearBlockSpec(State(), f, n);
      r := BlockWalk(f, n, false, false);
      if r != Ok { return; }
      var b := Load(f, n);
      if b != 0 {
        GiveBack(b);
        Store(At(f, n), 0);
      }
    }

    /** The loop of `file_truncate`. */
    method ClearBlocks(f: nat, now: nat, was: nat)
      requires Valid() && Own(State()) && f in files
      modifies this, bitmap
      ensures Own(State()) && f in files
      ensures State() == ClearRange(old(State()), f, now, was)
    {
      var n := now;
      ghost var goal := ClearRange(State(), f, now, was);
      while n < was
        invariant now <= n && f in files && Own(State())
        invariant ClearRange(State(), f, n, was) == goal
      {
        var _ := FileClearBlock(f, n);
        n := n + 1;
      }
    }

    method FileTruncate(f: nat, newsize: nat)
      requires Valid() && Own(State()) && f in files
      modifies this, bitmap
      ensures State() == Truncate(old(State()), f, newsize) && Own(State()) && f in files
      ensures files[f].size == newsize
      ensures forall n: nat | n * BY2BLK < newsize :: BlockOf(State(), f, n) == BlockOf(old(State()), f, n)
      ensures forall n: nat | CutOff(n, old(files[f].size), newsize) :: BlockOf(State(), f, n) == 0
    {
      TruncateSpec(State(), f, newsize);
      TruncateBytes(State(), f, newsize);
      var was, now := files[f].size / BY2BLK + 1, newsize / BY2BLK + 1;
      if newsize == 0 { now := 0; }
      ClearBlocks(f, now, was);
      if now <= NDIRECT && files[f].indirect != 0 {
        GiveBack(files[f].indirect);
        Store(Index(f), 0);
      }
      files := files[f := files[f].(size := newsize)];
    }
  }
}
