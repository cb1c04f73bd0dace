/** The offline image builder (tools/fsformat.c) as the producer of the file server's first state:
    blocks are handed out by a bump counter, linked into file records and index blocks, and the
    bitmap is written at the end. */
module Image {
  import opened FsBlocks
  import opened Options
  import Bitmap

  const NBLOCK: nat := 1024

  /** `next` is nextbno. `links` is the history of `save_block_link` calls: the block stored last
      for each block of each file. `dirs` are the records of type FTYPE_DIR; record 0 is the root. */
  datatype Builder = Builder(files: map<nat, File>, words: map<nat, seq<nat>>, next: nat, links: map<Ptr, nat>,
                             dirs: set<nat>)

  /** The state the file server starts from: a block is free if the counter has not reached it. */
  function Disk(b: Builder): Fs {
    Fs(FreeFrom(b.next), b.files, b.words)
  }

  function FreeFrom(next: nat): seq<bool> { seq(NBLOCK, i => i >= next) }

  /** Blocks the counter has not reached read as zeros. */
  ghost predicate Blank(b: Builder) {
    forall i | b.next <= i < NBLOCK ::
      i in b.words && |b.words[i]| == NINDIRECT && forall j | 0 <= j < NINDIRECT :: b.words[i][j] == 0
  }

  /** The block for index `n` is the one stored last, if any was stored. */
  ghost predicate AgreesAt(b: Builder, f: nat, n: nat)
    requires ShapeOk(Disk(b))
  {
    if At(f, n) in b.links then BlockOf(Disk(b), f, n) == b.links[At(f, n)] != 0 else BlockOf(Disk(b), f, n) == 0
  }

  ghost predicate Agrees(b: Builder)
    requires ShapeOk(Disk(b))
  {
    forall f, n :: AgreesAt(b, f, n)
  }

  ghost predicate Ready(b: Builder) {
    3 <= b.next <= NBLOCK && Tight(Disk(b), 3) && Blank(b) && Agrees(b)
  }

  // ----- save_block_link -----

  function SaveBlockLink(b: Builder, f: nat, n: nat, bno: nat): Builder
    requires f in b.files && |b.files[f].direct| == NDIRECT && n < NINDIRECT
    requires var k := if b.files[f].indirect == 0 then b.next else b.files[f].indirect;
             n >= NDIRECT ==> k in b.words && |b.words[k]| == NINDIRECT
  {
    var x := b.files[f];
    var links := b.links[At(f, n) := bno];
    if n < NDIRECT then b.(files := b.files[f := x.(direct := x.direct[n := bno])], links := links)
    else if x.indirect == 0 then
      var w: seq<nat> := b.words[b.next][n := bno];
      Builder(b.files[f := x.(indirect := b.next)], b.words[b.next := w], b.next + 1, links, b.dirs)
    else
      var w: seq<nat> := b.words[x.indirect][n := bno];
      b.(words := b.words[x.indirect := w], links := links)
  }

  /** `save_block_link(f, n, next_block())`; None when the disk or the index block is too small. */
  function LinkNext(b: Builder, f: nat, n: nat): Option<Builder>
    requires Ready(b) && f in b.files
  {
    var cost := if n >= NDIRECT && b.files[f].indirect == 0 then 2 else 1;
    if n >= NINDIRECT || b.next + cost > NBLOCK then None
    else Some(SaveBlockLink(b.(next := b.next + 1), f, n, b.next))
  }

  /** Taking the next block for an empty pointer whose index block exists. */
  lemma PlaceNext(s: Fs, s': Fs, f: nat, n: nat, b: nat)
    requires Own(s) && f in s.files && n < NINDIRECT && (n >= NDIRECT ==> s.files[f].indirect != 0)
    requires BlockOf(s, f, n) == 0 && 3 <= b < |s.free| && s.free[b]
    requires s' == SetPtr(s, At(f, n), b).(free := s.free[b := false])
    ensures Own(s') && OnlyChanged(s, s', At(f, n), b) && Extended(s, s', f, n)
  {
    SetDataPtr(s, f, n, b);
    var t := SetPtr(s, At(f, n), b);
    assert s'.files == t.files && s'.words == t.words;
    forall q ensures Target(s', q) == Target(t, q) {
    }
    OwnAfterAlloc(s, s', At(f, n), b);
  }

  /** Taking a zeroed block as the index block. */
  lemma PlaceIndex(s: Fs, s': Fs, f: nat, b: nat)
    requires Own(s) && f in s.files && s.files[f].indirect == 0 && 3 <= b < |s.free| && s.free[b]
    requires ZeroTail(s, b)
    requires s' == SetPtr(s, Index(f), b).(free := s.free[b := false])
    ensures Own(s') && OnlyChanged(s, s', Index(f), b)
  {
    SetIndexPtr(s, f, b);
    var t := SetPtr(s, Index(f), b);
    assert s'.files == t.files && s'.words == t.words;
    forall q ensures Target(s', q) == Target(t, q) {
    }
    OwnAfterAlloc(s, s', Index(f), b);
  }

  /** Block `b` reads as an index block without pointers. */
  predicate ZeroTail(s: Fs, b: nat) {
    b in s.words && |s.words[b]| == NINDIRECT && forall i | NDIRECT <= i < NINDIRECT :: s.words[b][i] == 0
  }

  /** Both at once, as the builder does when it meets the first indirect block: the data block is
      the lower of the two. */
  lemma PlaceBoth(s: Fs, s1: Fs, s': Fs, f: nat, n: nat, b: nat)
    requires Own(s) && f in s.files && s.files[f].indirect == 0 && 3 <= b < b + 1 < |s.free| && s.free[b]
             && s.free[b + 1]
    requires ZeroTail(s, b + 1)
    requires NDIRECT <= n < NINDIRECT && s1 == SetPtr(s, Index(f), b + 1).(free := s.free[b + 1 := false])
    requires ShapeOk(s1) && s' == SetPtr(s1, At(f, n), b).(free := s1.free[b := false])
    ensures Own(s') && Extended(s, s', f, n)
    ensures forall q :: Target(s', q) == if q == At(f, n) then b else if q == Index(f) then b + 1 else Target(s, q)
  {
    PlaceIndex(s, s1, f, b + 1);
    assert Target(s, Index(f)) == 0 && Target(s, Indirect(f, n)) == 0;
    assert BlockOf(s1, f, n) == 0;
    PlaceNext(s1, s', f, n, b);
  }

  lemma FreeAfterNext(next: nat)
    requires next < NBLOCK
    ensures FreeFrom(next + 1) == FreeFrom(next)[next := false]
    ensures next + 1 < NBLOCK ==> FreeFrom(next + 2) == FreeFrom(next)[next + 1 := false][next := false]
  {
  }

  lemma LinkPlacesData(b: Builder, f: nat, n: nat)
    requires Ready(b) && f in b.files && At(f, n) !in b.links && LinkNext(b, f, n).Some?
    requires n < NDIRECT || b.files[f].indirect != 0
    ensures var s, s' := Disk(b), Disk(LinkNext(b, f, n).value);
            Own(s') && Extended(s, s', f, n) && Target(s', At(f, n)) == b.next
  {
    var s, s' := Disk(b), Disk(LinkNext(b, f, n).value);
    assert AgreesAt(b, f, n);
    FreeAfterNext(b.next);
    assert s' == SetPtr(s, At(f, n), b.next).(free := s.free[b.next := false]);
    PlaceNext(s, s', f, n, b.next);
  }

  lemma LinkPlacesBoth(b: Builder, f: nat, n: nat)
    requires Ready(b) && f in b.files && At(f, n) !in b.links && LinkNext(b, f, n).Some?
    requires n >= NDIRECT && b.files[f].indirect == 0
    ensures var s, s' := Disk(b), Disk(LinkNext(b, f, n).value);
            Own(s') && Extended(s, s', f, n) && Target(s', At(f, n)) == b.next
  {
    var s, s' := Disk(b), Disk(LinkNext(b, f, n).value);
    assert AgreesAt(b, f, n);
    FreeAfterNext(b.next);
    var s1 := SetPtr(s, Index(f), b.next + 1).(free := s.free[b.next + 1 := false]);
    assert ShapeOk(s1);
    assert s' == SetPtr(s1, At(f, n), b.next).(free := s1.free[b.next := false]);
    PlaceBoth(s, s1, s', f, n, b.next);
  }

  lemma LinkAgrees(b: Builder, b': Builder, f: nat, n: nat)
    requires ShapeOk(Disk(b)) && Agrees(b) && Extended(Disk(b), Disk(b'), f, n) && At(f, n) !in b.links
    requires Target(Disk(b'), At(f, n)) == b.next != 0 && b'.links == b.links[At(f, n) := b.next]
    ensures Agrees(b')
  {
    forall g, m ensures AgreesAt(b', g, m) {
      assert AgreesAt(b, g, m);
      assert At(g, m) != At(f, n) ==> BlockOf(Disk(b'), g, m) == BlockOf(Disk(b), g, m);
    }
  }

  /** Linking the next block keeps the whole image in order: ownership, no lost block, blank blocks
      ahead, and agreement with the links stored so far. */
  lemma LinkKeeps(b: Builder, f: nat, n: nat)
    requires Ready(b) && f in b.files && n < OldBlocks(b.files[f].size) && At(f, n) !in b.links
    ensures var r := LinkNext(b, f, n);
            r.Some? ==> Ready(r.value) && r.value.next > b.next
                        && r.value.files.Keys == b.files.Keys && r.value.dirs == b.dirs
                        && (forall g | g in b.files :: r.value.files[g].size == b.files[g].size)
                        && r.value.links == b.links[At(f, n) := b.next]
  {
    var r := LinkNext(b, f, n);
    if r.Some? {
      if n >= NDIRECT && b.files[f].indirect == 0 { LinkPlacesBoth(b, f, n); } else { LinkPlacesData(b, f, n); }
      ExtendedTight(Disk(b), Disk(r.value), 3, f, n);
      LinkBlank(b, f, n);
      LinkAgrees(b, r.value, f, n);
    }
  }

  lemma LinkBlank(b: Builder, f: nat, n: nat)
    requires Ready(b) && f in b.files && LinkNext(b, f, n).Some?
    ensures Blank(LinkNext(b, f, n).value)
  {
    assert Target(Disk(b), Index(f)) == b.files[f].indirect;
  }

  // ----- create_file, write_file, write_directory -----

  function SetFile(b: Builder, f: nat, x: File): Builder { b.(files := b.files[f := x]) }

  /** How many blocks a file of that size has. */
  function Blocks(size: nat): nat { (size + BY2BLK - 1) / BY2BLK }

  /** Every file has exactly the blocks its size calls for, and directories are whole blocks. */
  ghost predicate Filled(b: Builder) {
    && (forall f, n: nat :: At(f, n) in b.links <==> f in b.files && n < Blocks(b.files[f].size))
    && (forall d | d in b.dirs :: d in b.files && b.files[d].size % BY2BLK == 0)
  }

  ghost predicate Good(b: Builder) { Ready(b) && Filled(b) }

  lemma SameTargets(b: Builder, b': Builder)
    requires ShapeOk(Disk(b)) && ShapeOk(Disk(b')) && b'.links == b.links && Agrees(b)
    requires forall p :: Target(Disk(b'), p) == Target(Disk(b), p)
    ensures Agrees(b')
  {
    forall f, n ensures AgreesAt(b', f, n) {
      assert AgreesAt(b, f, n);
      assert BlockOf(Disk(b'), f, n) == BlockOf(Disk(b), f, n);
    }
  }

  lemma ResizeReady(b: Builder, f: nat, size: nat)
    requires Ready(b) && f in b.files && b.files[f].size <= size
    ensures Ready(SetFile(b, f, b.files[f].(size := size)))
  {
    var b' := SetFile(b, f, b.files[f].(size := size));
    assert Disk(b') == Resize(Disk(b), f, size);
    GrowTight(Disk(b), 3, f, size);
    ResizeSame(Disk(b), f, size);
    SameTargets(b, b');
  }

  lemma RecordReady(b: Builder, f: nat)
    requires Ready(b) && f !in b.files
    ensures Ready(SetFile(b, f, ZeroRecord()))
  {
    var b' := SetFile(b, f, ZeroRecord());
    RecordTight(Disk(b), 3, f);
    RecordSame(Disk(b), f);
    SameTargets(b, b');
  }

  /** `make_link_block`: the directory's size grows after its new block is linked. */
  function MakeLinkBlock(b: Builder, d: nat): Option<Builder>
    requires Good(b) && d in b.dirs
  {
    DirEnd(b, d);
    LinkKeeps(b, d, b.files[d].size / BY2BLK);
    match LinkNext(b, d, b.files[d].size / BY2BLK)
    case None => None
    case Some(b1) => Some(SetFile(b1, d, b1.files[d].(size := b1.files[d].size + BY2BLK)))
  }

  lemma DirFilled(b: Builder, b1: Builder, d: nat, x: nat)
    requires Filled(b) && d in b.dirs && b1.files.Keys == b.files.Keys && b1.dirs == b.dirs
    requires forall g | g in b.files :: b1.files[g].size == b.files[g].size
    requires b1.links == b.links[At(d, b.files[d].size / BY2BLK) := x]
    ensures Filled(SetFile(b1, d, b1.files[d].(size := b1.files[d].size + BY2BLK)))
  {
    var b', n := SetFile(b1, d, b1.files[d].(size := b1.files[d].size + BY2BLK)), b.files[d].size / BY2BLK;
    assert b.files[d].size == n * BY2BLK;
    assert Blocks(b.files[d].size) == n && Blocks(b'.files[d].size) == n + 1;
    forall f, k: nat ensures At(f, k) in b'.links <==> f in b'.files && k < Blocks(b'.files[f].size) {
      assert At(f, k) in b.links <==> f in b.files && k < Blocks(b.files[f].size);
      assert At(f, k) == At(d, n) <==> f == d && k == n;
    }
  }

  lemma DirGrown(b: Builder, b1: Builder, d: nat, x: nat)
    requires Filled(b) && d in b.dirs && Ready(b1) && b1.files.Keys == b.files.Keys && b1.dirs == b.dirs
    requires forall g | g in b.files :: b1.files[g].size == b.files[g].size
    requires b1.links == b.links[At(d, b.files[d].size / BY2BLK) := x]
    ensures Good(SetFile(b1, d, b1.files[d].(size := b1.files[d].size + BY2BLK)))
  {
    ResizeReady(b1, d, b1.files[d].size + BY2BLK);
    DirFilled(b, b1, d, x);
  }

  /** The next block of a directory is not linked yet. */
  lemma DirEnd(b: Builder, d: nat)
    requires Filled(b) && d in b.dirs
    ensures At(d, b.files[d].size / BY2BLK) !in b.links && b.files[d].size / BY2BLK < OldBlocks(b.files[d].size)
  {
    var n := b.files[d].size / BY2BLK;
    assert b.files[d].size == n * BY2BLK;
    assert At(d, n) in b.links <==> d in b.files && n < Blocks(b.files[d].size);
  }

  lemma MakeLinkKeeps(b: Builder, d: nat)
    requires Good(b) && d in b.dirs
    ensures var r := MakeLinkBlock(b, d);
            r.Some? ==> Good(r.value) && r.value.files.Keys == b.files.Keys && r.value.dirs == b.dirs
  {
    DirEnd(b, d);
    LinkKeeps(b, d, b.files[d].size / BY2BLK);
    var r := LinkNext(b, d, b.files[d].size / BY2BLK);
    if r.Some? {
      var x := r.value.files[d];
      assert MakeLinkBlock(b, d) == Some(SetFile(r.value, d, x.(size := x.size + BY2BLK)));
      DirGrown(b, r.value, d, b.next);
    }
  }

  /** `create_file`: a record in a block of the directory, a new block if `full`. */
  function CreateFile(b: Builder, d: nat, f: nat, full: bool): Option<Builder>
    requires Good(b) && d in b.dirs
  {
    MakeLinkKeeps(b, d);
    match if full then MakeLinkBlock(b, d) else Some(b)
    case None => None
    case Some(b1) => Some(SetFile(b1, f, ZeroRecord()))
  }

  lemma RecordFilled(b: Builder, f: nat)
    requires Filled(b) && f !in b.files
    ensures Filled(SetFile(b, f, ZeroRecord()))
  {
    var b' := SetFile(b, f, ZeroRecord());
    forall g, k: nat ensures At(g, k) in b'.links <==> g in b'.files && k < Blocks(b'.files[g].size) {
      assert At(g, k) in b.links <==> g in b.files && k < Blocks(b.files[g].size);
    }
  }

  lemma CreateKeeps(b: Builder, d: nat, f: nat, full: bool)
    requires Good(b) && d in b.dirs && f !in b.files
    ensures var r := CreateFile(b, d, f, full);
            r.Some? ==> Good(r.value) && r.value.files.Keys == b.files.Keys + {f} && r.value.dirs == b.dirs
                        && r.value.files[f] == ZeroRecord()
  {
    MakeLinkKeeps(b, d);
    var r := if full then MakeLinkBlock(b, d) else Some(b);
    if r.Some? {
      RecordReady(r.value, f);
      RecordFilled(r.value, f);
    }
  }

  // ----- the loop of write_file -----

  /** Blocks i .. n - 1 of `f` have been linked, and no other. */
  ghost predicate Grew(l: map<Ptr, nat>, l': map<Ptr, nat>, f: nat, i: nat, n: nat) {
    forall g, k: nat :: At(g, k) in l' <==> At(g, k) in l || (g == f && i <= k < n)
  }

  lemma GrewStep(l: map<Ptr, nat>, l1: map<Ptr, nat>, l': map<Ptr, nat>, f: nat, i: nat, n: nat, x: nat)
    requires i < n && l1 == l[At(f, i) := x] && Grew(l1, l', f, i + 1, n)
    ensures Grew(l, l', f, i, n)
  {
    forall g, k: nat ensures At(g, k) in l' <==> At(g, k) in l || (g == f && i <= k < n) {
      assert At(g, k) in l' <==> At(g, k) in l1 || (g == f && i + 1 <= k < n);
      assert At(g, k) == At(f, i) <==> g == f && k == i;
    }
  }

  ghost predicate NoneLinked(b: Builder, f: nat, i: nat) {
    forall k: nat | k >= i :: At(f, k) !in b.links
  }

  lemma NoneLinkedNext(b: Builder, b1: Builder, f: nat, i: nat, x: nat)
    requires NoneLinked(b, f, i) && b1.links == b.links[At(f, i) := x]
    ensures NoneLinked(b1, f, i + 1)
  {
    forall k: nat | k >= i + 1 ensures At(f, k) !in b1.links {
      assert At(f, k) !in b.links && At(f, k) != At(f, i);
    }
  }

  function LinkBlocks(b: Builder, f: nat, i: nat, n: nat): Option<Builder>
    requires Ready(b) && f in b.files && n <= OldBlocks(b.files[f].size) && NoneLinked(b, f, i)
    decreases n - i
  {
    if i >= n then Some(b)
    else
      LinkKeeps(b, f, i);
      match LinkNext(b, f, i)
      case None => None
      case Some(b1) =>
        NoneLinkedNext(b, b1, f, i, b.next);
        LinkBlocks(b1, f, i + 1, n)
  }

  lemma {:induction false} LinkBlocksReady(b: Builder, f: nat, i: nat, n: nat)
    requires Ready(b) && f in b.files && n <= OldBlocks(b.files[f].size) && NoneLinked(b, f, i)
    ensures var r := LinkBlocks(b, f, i, n); r.Some? ==> Ready(r.value)
    decreases n - i
  {
    if i < n {
      LinkKeeps(b, f, i);
      var r := LinkNext(b, f, i);
      if r.Some? {
        NoneLinkedNext(b, r.value, f, i, b.next);
        assert LinkBlocks(b, f, i, n) == LinkBlocks(r.value, f, i + 1, n);
        LinkBlocksReady(r.value, f, i + 1, n);
      }
    }
  }

  ghost predicate SameSizes(b: Builder, b': Builder) {
    && b'.files.Keys == b.files.Keys && b'.dirs == b.dirs
    && forall g | g in b.files :: b'.files[g].size == b.files[g].size
  }

  lemma {:induction false} LinkBlocksSame(b: Builder, f: nat, i: nat, n: nat)
    requires Ready(b) && f in b.files && n <= OldBlocks(b.files[f].size) && NoneLinked(b, f, i)
    ensures var r := LinkBlocks(b, f, i, n); r.Some? ==> SameSizes(b, r.value)
    decreases n - i
  {
    if i < n {
      LinkKeeps(b, f, i);
      var r := LinkNext(b, f, i);
      if r.Some? {
        NoneLinkedNext(b, r.value, f, i, b.next);
        assert LinkBlocks(b, f, i, n) == LinkBlocks(r.value, f, i + 1, n);
        LinkBlocksSame(r.value, f, i + 1, n);
      }
    }
  }

  lemma {:induction false} LinkBlocksGrew(b: Builder, f: nat, i: nat, n: nat)
    requires Ready(b) && f in b.files && n <= OldBlocks(b.files[f].size) && NoneLinked(b, f, i)
    ensures var r := LinkBlocks(b, f, i, n); r.Some? ==> Grew(b.links, r.value.links, f, i, n)
    decreases n - i
  {
    if i < n {
      LinkKeeps(b, f, i);
      var r := LinkNext(b, f, i);
      if r.Some? {
        NoneLinkedNext(b, r.value, f, i, b.next);
        LinkBlocksGrew(r.value, f, i + 1, n);
        var r' := LinkBlocks(r.value, f, i + 1, n);
        if r'.Some? { GrewStep(b.links, r.value.links, r'.value.links, f, i, n, b.next); }
      }
    }
  }

  /** `write_file`: the size is set first, then one block per part read. */
  function WriteFile(b: Builder, d: nat, f: nat, full: bool, size: nat): Option<Builder>
    requires Good(b) && d in b.dirs && f !in b.files
  {
    CreateKeeps(b, d, f, full);
    match CreateFile(b, d, f, full)
    case None => None
    case Some(b1) =>
      SizeSet(b1, f, size);
      LinkBlocks(SetFile(b1, f, ZeroRecord().(size := size)), f, 0, Blocks(size))
  }

  lemma SizeSet(b: Builder, f: nat, size: nat)
    requires Good(b) && f in b.files && b.files[f] == ZeroRecord()
    ensures var b' := SetFile(b, f, ZeroRecord().(size := size));
            Ready(b') && NoneLinked(b', f, 0) && Blocks(size) <= OldBlocks(size)
  {
    ResizeReady(b, f, size);
    forall k: nat ensures At(f, k) !in b.links {
      assert At(f, k) in b.links <==> f in b.files && k < Blocks(b.files[f].size);
    }
  }

  lemma WriteFileKeeps(b: Builder, d: nat, f: nat, full: bool, size: nat)
    requires Good(b) && d in b.dirs && f !in b.files
    ensures var r := WriteFile(b, d, f, full, size);
            r.Some? ==> Good(r.value) && r.value.files.Keys == b.files.Keys + {f} && r.value.dirs == b.dirs
  {
    CreateKeeps(b, d, f, full);
    var r1 := CreateFile(b, d, f, full);
    if r1.Some? {
      SizeSet(r1.value, f, size);
      var b2 := SetFile(r1.value, f, ZeroRecord().(size := size));
      LinkBlocksReady(b2, f, 0, Blocks(size));
      LinkBlocksSame(b2, f, 0, Blocks(size));
      LinkBlocksGrew(b2, f, 0, Blocks(size));
      var r := LinkBlocks(b2, f, 0, Blocks(size));
      if r.Some? {
        FileFilled(r1.value, b2, r.value, f, size);
      }
    }
  }

  lemma FileFilled(b: Builder, b2: Builder, b': Builder, f: nat, size: nat)
    requires Filled(b) && f in b.files && b.files[f] == ZeroRecord() && f !in b.dirs
    requires b2 == SetFile(b, f, ZeroRecord().(size := size)) && b'.files.Keys == b2.files.Keys && b'.dirs == b2.dirs
    requires forall g | g in b2.files :: b'.files[g].size == b2.files[g].size
    requires Grew(b2.links, b'.links, f, 0, Blocks(size))
    ensures Filled(b')
  {
    forall g, k: nat ensures At(g, k) in b'.links <==> g in b'.files && k < Blocks(b'.files[g].size) {
      assert At(g, k) in b.links <==> g in b.files && k < Blocks(b.files[g].size);
      assert At(g, k) in b'.links <==> At(g, k) in b2.links || (g == f && 0 <= k < Blocks(size));
    }
  }

  // ----- what fits, and what a written file is -----

  lemma BlocksInBytes(n: nat, size: nat)
    ensures n < Blocks(size) <==> n * BY2BLK < size
  {
    var k := (size + BY2BLK - 1) / BY2BLK;
    assert size + BY2BLK - 1 == BY2BLK * k + (size + BY2BLK - 1) % BY2BLK;
  }

  /** How many blocks it takes to give a file its blocks lo .. hi - 1, with the index block if it gets its first
      indirect one. */
  function Needs(x: File, lo: nat, hi: nat): nat {
    if lo >= hi then 0 else hi - lo + if hi > NDIRECT && x.indirect == 0 then 1 else 0
  }

  lemma LinkNextTakes(b: Builder, f: nat, n: nat)
    requires Ready(b) && f in b.files
    ensures LinkNext(b, f, n).Some? <==> n < NINDIRECT && b.next + Needs(b.files[f], n, n + 1) <= NBLOCK
    ensures LinkNext(b, f, n).Some? ==>
              var b' := LinkNext(b, f, n).value;
              && b'.next == b.next + Needs(b.files[f], n, n + 1) && f in b'.files
              && (b'.files[f].indirect == 0 <==> b.files[f].indirect == 0 && n < NDIRECT)
              && (forall g | g in b.files && g != f :: g in b'.files && b'.files[g] == b.files[g])
  {
  }

  /** The loop of `write_file` gets through if and only if the blocks are there. */
  lemma {:induction false} LinkBlocksTakes(b: Builder, f: nat, i: nat, n: nat)
    requires Ready(b) && f in b.files && n <= OldBlocks(b.files[f].size) && NoneLinked(b, f, i)
    ensures var r := LinkBlocks(b, f, i, n);
            && (r.Some? <==> i >= n || (n <= NINDIRECT && b.next + Needs(b.files[f], i, n) <= NBLOCK))
            && (r.Some? ==> r.value.next == b.next + Needs(b.files[f], i, n))
            && (r.Some? ==>
                  forall g | g in b.files && g != f :: g in r.value.files && r.value.files[g] == b.files[g])
    decreases n - i
  {
    if i < n {
      LinkKeeps(b, f, i);
      LinkNextTakes(b, f, i);
      var r := LinkNext(b, f, i);
      if r.Some? {
        NoneLinkedNext(b, r.value, f, i, b.next);
        assert LinkBlocks(b, f, i, n) == LinkBlocks(r.value, f, i + 1, n);
        LinkBlocksTakes(r.value, f, i + 1, n);
      }
    }
  }

  /** The blocks a new record costs: a block of the directory if it is full. */
  function RecordNeeds(b: Builder, d: nat, full: bool): nat
    requires d in b.files
  {
    if full then Needs(b.files[d], b.files[d].size / BY2BLK, b.files[d].size / BY2BLK + 1) else 0
  }

  lemma MakeLinkTakes(b: Builder, d: nat)
    requires Good(b) && d in b.dirs
    ensures d in b.files && var r := MakeLinkBlock(b, d);
            && (r.Some? <==> b.files[d].size < NINDIRECT * BY2BLK && b.next + RecordNeeds(b, d, true) <= NBLOCK)
            && (r.Some? ==>
                  && r.value.next == b.next + RecordNeeds(b, d, true) && r.value.files.Keys == b.files.Keys
                  && r.value.files[d].size == b.files[d].size + BY2BLK
                  && (forall g | g in b.files && g != d :: r.value.files[g] == b.files[g]))
  {
    var n := b.files[d].size / BY2BLK;
    assert b.files[d].size == n * BY2BLK;
    DirEnd(b, d);
    LinkKeeps(b, d, n);
    LinkNextTakes(b, d, n);
  }

  lemma CreateTakes(b: Builder, d: nat, f: nat, full: bool)
    requires Good(b) && d in b.dirs && f !in b.files
    ensures d in b.files && var r := CreateFile(b, d, f, full);
            && (r.Some? <==> full ==> (b.files[d].size < NINDIRECT * BY2BLK
                                       && b.next + RecordNeeds(b, d, full) <= NBLOCK))
            && (r.Some? ==>
                  && r.value.next == b.next + RecordNeeds(b, d, full)
                  && r.value.files.Keys == b.files.Keys + {f}
                  && r.value.files[d].size == b.files[d].size + (if full then BY2BLK else 0)
                  && (forall g | g in b.files && g != d :: r.value.files[g] == b.files[g]))
  {
    if full { MakeLinkTakes(b, d); }
  }

  lemma WriteTakes(b: Builder, d: nat, f: nat, full: bool, size: nat)
    requires Good(b) && d in b.dirs && f !in b.files
    ensures d in b.files && var r := WriteFile(b, d, f, full, size);
            && (r.Some? <==>
                  && Blocks(size) <= NINDIRECT && (full ==> b.files[d].size < NINDIRECT * BY2BLK)
                  && b.next + RecordNeeds(b, d, full) + Needs(ZeroRecord(), 0, Blocks(size)) <= NBLOCK)
            && (r.Some? ==>
                  && f in r.value.files && r.value.files[f].size == size
                  && d in r.value.files && r.value.files[d].size == b.files[d].size + (if full then BY2BLK else 0)
                  && (forall g | g in b.files && g != d :: g in r.value.files && r.value.files[g] == b.files[g]))
  {
    CreateKeeps(b, d, f, full);
    CreateTakes(b, d, f, full);
    var r1 := CreateFile(b, d, f, full);
    if r1.Some? {
      SizeSet(r1.value, f, size);
      var b2 := SetFile(r1.value, f, ZeroRecord().(size := size));
      LinkBlocksTakes(b2, f, 0, Blocks(size));
      LinkBlocksSame(b2, f, 0, Blocks(size));
    }
  }

  /** `write_file` gets through if and only if the file is no larger than an index block can reach, the directory
      can have the record, and the disk has the blocks for both. Then the file has the size given and a block
      for exactly each part of it; the directory has grown by a block if it was full; no other record
      has changed. */
  lemma FileWritten(b: Builder, d: nat, f: nat, full: bool, size: nat)
    requires Good(b) && d in b.dirs && f !in b.files
    ensures d in b.files && var r := WriteFile(b, d, f, full, size);
            && (r.Some? <==>
                  && size <= NINDIRECT * BY2BLK && (full ==> b.files[d].size < NINDIRECT * BY2BLK)
                  && b.next + RecordNeeds(b, d, full) + Needs(ZeroRecord(), 0, Blocks(size)) <= NBLOCK)
            && (r.Some? ==>
                  && f in r.value.files && r.value.files[f].size == size && ShapeOk(Disk(r.value))
                  && (forall n: nat :: BlockOf(Disk(r.value), f, n) != 0 <==> n * BY2BLK < size)
                  && d in r.value.files && r.value.files[d].size == b.files[d].size + (if full then BY2BLK else 0)
                  && (forall g | g in b.files && g != d :: g in r.value.files && r.value.files[g] == b.files[g]))
  {
    WriteTakes(b, d, f, full, size);
    BlocksInBytes(NINDIRECT, size);
    WriteFileKeeps(b, d, f, full, size);
    if WriteFile(b, d, f, full, size).Some? { PartsStored(WriteFile(b, d, f, full, size).value, f); }
  }

  lemma PartsStored(b: Builder, f: nat)
    requires Good(b) && f in b.files
    ensures forall n: nat :: BlockOf(Disk(b), f, n) != 0 <==> n * BY2BLK < b.files[f].size
  {
    forall n: nat ensures BlockOf(Disk(b), f, n) != 0 <==> n * BY2BLK < b.files[f].size {
      BlocksInBytes(n, b.files[f].size);
      assert AgreesAt(b, f, n);
      assert At(f, n) in b.links <==> f in b.files && n < Blocks(b.files[f].size);
    }
  }

  // ----- whole builds -----

  /** `write_file` and the record part of `write_directory`; `full` says that the directory's blocks
      had no free slot. */
  datatype Act = PutFile(d: nat, f: nat, full: bool, size: nat) | PutDir(d: nat, f: nat, full: bool)

  function Do(b: Builder, a: Act): Option<Builder>
    requires Good(b) && a.d in b.dirs && a.f !in b.files
  {
    match a
    case PutFile(d, f, full, size) => WriteFile(b, d, f, full, size)
    case PutDir(d, f, full) =>
      match CreateFile(b, d, f, full)
      case None => None
      case Some(b1) => Some(b1.(dirs := b1.dirs + {f}))
  }

  lemma DoKeeps(b: Builder, a: Act)
    requires Good(b) && a.d in b.dirs && a.f !in b.files
    ensures Do(b, a).Some? ==> Good(Do(b, a).value)
  {
    match a
    case PutFile(d, f, full, size) => WriteFileKeeps(b, d, f, full, size);
    case PutDir(d, f, full) =>
      CreateKeeps(b, d, f, full);
      var r := CreateFile(b, d, f, full);
      if r.Some? { DirsOnly(r.value, f); }
  }

  lemma DirsOnly(b: Builder, f: nat)
    requires Good(b) && f in b.files && b.files[f].size % BY2BLK == 0
    ensures Good(b.(dirs := b.dirs + {f}))
  {
    var b' := b.(dirs := b.dirs + {f});
    SameTargets(b, b');
    assert forall g, n: nat :: At(g, n) in b'.links <==> At(g, n) in b.links;
  }

  /** `init_disk`: block 0 is the boot block, 1 the superblock, 2 the bitmap; the root is empty. */
  function InitDisk(): Builder {
    Builder(map[0 := ZeroRecord()], map i: nat | i < NBLOCK :: ZeroWords(i), 3, map[], {0})
  }

  /** What block `b` of a new disk reads as. */
  function ZeroWords(b: nat): seq<nat> { seq(NINDIRECT, i => 0) }

  lemma InitGood()
    ensures Good(InitDisk())
  {
    var b := InitDisk();
    assert ShapeOk(Disk(b));
    forall p ensures Target(Disk(b), p) == 0 {
    }
    forall f, n ensures AgreesAt(b, f, n) {
    }
    assert Own(Disk(b));
    forall i: nat | 3 <= i < NBLOCK ensures Disk(b).free[i] {
    }
    assert NoLeak(Disk(b), 3);
    forall i: nat | b.next <= i < NBLOCK ensures b.words[i] == ZeroWords(i) {
    }
  }

  ghost predicate Step(b: Builder, a: Act, b': Builder) {
    Good(b) ==> a.d in b.dirs && a.f !in b.files && Do(b, a) == Some(b')
  }

  lemma StepGood(b: Builder, a: Act, b': Builder)
    requires Step(b, a, b') && Good(b)
    ensures Good(b')
  {
    DoKeeps(b, a);
  }

  /** A build that fits the disk, from the empty disk on. */
  ghost predicate Build(bs: seq<Builder>, acts: seq<Act>) {
    && |bs| == |acts| + 1 && bs[0] == InitDisk()
    && forall k: nat | k < |acts| :: Step(bs[k], acts[k], bs[k + 1])
  }

  lemma {:induction false} BuildGood(bs: seq<Builder>, acts: seq<Act>, k: nat)
    requires Build(bs, acts) && k < |bs|
    ensures Good(bs[k])
  {
    if k == 0 {
      InitGood();
    } else {
      BuildGood(bs, acts, k - 1);
      StepGood(bs[k - 1], acts[k - 1], bs[k]);
    }
  }

  /** The image and the file server agree: the server's `file_map_block` without allocation gives
      exactly the block stored for that index, and -E_NOT_FOUND or -E_INVAL beyond the file's end;
      the free blocks are those from nextbno on; ownership holds and no block is lost. */
  lemma ImageAgrees(bs: seq<Builder>, acts: seq<Act>, f: nat, n: nat)
    requires Build(bs, acts) && f in bs[|acts|].files
    ensures var b := bs[|acts|];
            && Tight(Disk(b), 3)
            && (n * BY2BLK < b.files[f].size ==>
                  At(f, n) in b.links && MapBlock(Disk(b), f, n, false, true, true) == (Ok, b.links[At(f, n)], Disk(b)))
            && (n * BY2BLK >= b.files[f].size ==>
                  var (r, _, s') := MapBlock(Disk(b), f, n, false, true, true);
                  (r == NotFound || r == Inval) && s' == Disk(b))
            && (forall k: nat :: BlockIsFree(Disk(b), k) <==> b.next <= k < NBLOCK)
  {
    var b := bs[|acts|];
    BuildGood(bs, acts, |acts|);
    BlocksInBytes(n, b.files[f].size);
    assert AgreesAt(b, f, n);
    assert At(f, n) in b.links <==> f in b.files && n < Blocks(b.files[f].size);
    MapWithoutAlloc(Disk(b), f, n);
  }

  lemma MapWithoutAlloc(s: Fs, f: nat, n: nat)
    requires Own(s) && f in s.files
    ensures var (r, b, s') := MapBlock(s, f, n, false, true, true);
            && s' == s && b == BlockOf(s, f, n)
            && (if b != 0 then r == Ok else r == NotFound || r == Inval)
  {
  }

  // ----- the builder's own form -----

  /** The bitmap as `init_disk` sets it, all NBLOCK blocks free, and `flush_bitmap`, which clears the
      bits of the blocks handed out one by one. The result is the bitmap of the image. */
  method FlushBitmap(bitmap: array<nat>, nextbno: nat)
    requires bitmap.Length == BY2BLK / 4 && nextbno <= NBLOCK
    modifies bitmap
    ensures Bitmap.Bits(bitmap[..], NBLOCK) == FreeFrom(nextbno)
  {
    var k := 0;
    while k < bitmap.Length
      invariant 0 <= k <= bitmap.Length
      invariant forall j | 0 <= j < k :: bitmap[j] == if 32 * j < NBLOCK then 0xffff_ffff else 0
    {
      bitmap[k] := if 32 * k < NBLOCK then 0xffff_ffff else 0;
      k := k + 1;
    }
    Bitmap.OnesWord();
    Bitmap.AllFree(bitmap[..], NBLOCK);
    var i := 0;
    while i < nextbno
      invariant 0 <= i <= nextbno
      invariant Bitmap.Bits(bitmap[..], NBLOCK) == FreeFrom(i)
    {
      ghost var m := bitmap[..];
      bitmap[i / 32] := Bitmap.Put(bitmap[i / 32], i % 32, false);
      assert bitmap[..] == Bitmap.PutBlock(m, i, false);
      Bitmap.PutBlockSpec(m, NBLOCK, i, false);
      FreeAfterNext(i);
      i := i + 1;
    }
  }

  /** The disk and the counter, updated in place. */
  class Formatter {
    var files: map<nat, File>
    var words: map<nat, seq<nat>>
    var nextbno: nat
    var dirs: set<nat>
    ghost var links: map<Ptr, nat>

    ghost function State(): Builder
      reads this
    {
      Builder(files, words, nextbno, links, dirs)
    }

    constructor ()
      ensures State() == InitDisk()
    {
      files, words := map[0 := ZeroRecord()], map i: nat | i < NBLOCK :: ZeroWords(i);
      nextbno, links, dirs := 3, map[], {0};
    }

    method NextBlock() returns (b: nat)
      modifies this`nextbno
      ensures b == old(nextbno) && nextbno == b + 1
    {
      b := nextbno;
      nextbno := nextbno + 1;
    }

    method SaveLink(f: nat, n: nat, bno: nat)
      requires f in files && |files[f].direct| == NDIRECT && n < NINDIRECT
      requires var k := if files[f].indirect == 0 then nextbno else files[f].indirect;
               n >= NDIRECT ==> k in words && |words[k]| == NINDIRECT
      modifies this
      ensures State() == SaveBlockLink(old(State()), f, n, bno)
    {
      links := links[At(f, n) := bno];
      if n < NDIRECT {
        files := files[f := files[f].(direct := files[f].direct[n := bno])];
      } else {
        if files[f].indirect == 0 {
          var b := NextBlock();
          files := files[f := files[f].(indirect := b)];
        }
        var k := files[f].indirect;
        var w: seq<nat> := words[k][n := bno];
        words := words[k := w];
      }
    }

    /** The loop of `write_file`, for a file that fits. */
    method WriteBlocks(f: nat, n: nat)
      requires Ready(State()) && f in files && n <= OldBlocks(files[f].size) && NoneLinked(State(), f, 0)
      requires LinkBlocks(State(), f, 0, n).Some?
      modifies this
      ensures LinkBlocks(old(State()), f, 0, n) == Some(State())
      ensures Ready(State())
    {
      var i := 0;
      ghost var goal := LinkBlocks(State(), f, 0, n);
      while i < n
        invariant 0 <= i && Ready(State()) && f in files && n <= OldBlocks(files[f].size)
        invariant NoneLinked(State(), f, i) && LinkBlocks(State(), f, i, n) == goal
      {
        LinkKeeps(State(), f, i);
        NoneLinkedNext(State(), LinkNext(State(), f, i).value, f, i, nextbno);
        LinkOnce(f, i);
        i := i + 1;
      }
    }

    /** `save_block_link(f, i, next_block())`. */
    method LinkOnce(f: nat, i: nat)
      requires Ready(State()) && f in files && LinkNext(State(), f, i).Some?
      modifies this
      ensures LinkNext(old(State()), f, i) == Some(State())
    {
      var b := NextBlock();
      SaveLink(f, i, b);
    }
  }
}
