/** The argument page that `spawn` builds for a child (user/lib/spawn.c, `init_stack`), and what the
    child reads from it at its entry (user/lib/entry.S). Strings lie at the top of the page, the
    pointer array below them, the array's address and argc below that. */
module InitStack {

  const BY2PG: nat := 4096
  const USTACKTOP: nat := 0x7f3f_e000

  /** Offset 0 of the page in the child's address space. */
  const PAGE: nat := USTACKTOP - BY2PG

  // ----- words in memory, lowest byte first -----

  function Word(p: seq<nat>, o: int): nat {
    if 0 <= o && o + 4 <= |p| then p[o] + 0x100 * p[o + 1] + 0x1_0000 * p[o + 2] + 0x100_0000 * p[o + 3] else 0
  }

  function PutWord(p: seq<nat>, o: nat, v: nat): seq<nat>
    requires o + 4 <= |p|
  {
    p[o := v % 0x100][o + 1 := v / 0x100 % 0x100][o + 2 := v / 0x1_0000 % 0x100][o + 3 := v / 0x100_0000 % 0x100]
  }

  lemma WordBack(p: seq<nat>, o: nat, v: nat)
    requires o + 4 <= |p| && v < 0x1_0000_0000
    ensures Word(PutWord(p, o, v), o) == v
  {
    FourBytes(v);
    var q := PutWord(p, o, v);
    assert q[o] == v % 0x100 && q[o + 1] == v / 0x100 % 0x100;
    assert q[o + 2] == v / 0x1_0000 % 0x100 && q[o + 3] == v / 0x100_0000 % 0x100;
  }

  lemma FourBytes(v: nat)
    requires v < 0x1_0000_0000
    ensures v == v % 0x100 + 0x100 * (v / 0x100 % 0x100) + 0x1_0000 * (v / 0x1_0000 % 0x100) +
            0x100_0000 * (v / 0x100_0000 % 0x100)
  {
    var a := v / 0x100;
    var b := a / 0x100;
    var c := b / 0x100;
    assert v / 0x1_0000 == b && v / 0x100_0000 == c && c < 0x100;
  }

  lemma WordKept(p: seq<nat>, o: nat, v: nat, o': int)
    requires o + 4 <= |p| && (o' + 4 <= o || o + 4 <= o')
    ensures Word(PutWord(p, o, v), o') == Word(p, o')
  {
  }

  // ----- strings -----

  /** A C string: no zero byte inside. */
  predicate IsString(s: seq<nat>) { forall i | 0 <= i < |s| :: 0 < s[i] < 256 }

  /** The string that starts at offset `o`. */
  function CString(p: seq<nat>, o: int): seq<nat>
    decreases |p| - o
  {
    if o < 0 || o >= |p| || p[o] == 0 then [] else [p[o]] + CString(p, o + 1)
  }

  /** All arguments, each with its zero byte. */
  function Blob(argv: seq<seq<nat>>): seq<nat> {
    if argv == [] then [] else Blob(argv[..|argv| - 1]) + argv[|argv| - 1] + [0]
  }

  /** Where argument `i` starts in the blob. */
  function Start(argv: seq<seq<nat>>, i: nat): nat
    requires i <= |argv|
  {
    |Blob(argv[..i])|
  }

  lemma BlobNext(argv: seq<seq<nat>>, i: nat)
    requires i < |argv|
    ensures Blob(argv[..i + 1]) == Blob(argv[..i]) + argv[i] + [0]
    ensures Start(argv, i + 1) == Start(argv, i) + |argv[i]| + 1
  {
    assert argv[..i + 1][..i] == argv[..i];
  }

  /** Argument `i` lies in the blob at its start, followed by a zero byte. */
  lemma {:induction false} BlobHolds(argv: seq<seq<nat>>, i: nat, n: nat)
    requires i < n <= |argv|
    ensures Start(argv, i) + |argv[i]| < |Blob(argv[..n])|
    ensures Blob(argv[..n])[Start(argv, i)..][..|argv[i]| + 1] == argv[i] + [0]
    decreases n
  {
    BlobNext(argv, n - 1);
    var b, b' := Blob(argv[..n - 1]), Blob(argv[..n]);
    if i < n - 1 {
      BlobHolds(argv, i, n - 1);
      assert b'[Start(argv, i)..][..|argv[i]| + 1] == b[Start(argv, i)..][..|argv[i]| + 1];
    }
  }

  lemma {:induction false} ReadString(p: seq<nat>, o: nat, s: seq<nat>)
    requires IsString(s) && o + |s| < |p| && p[o..][..|s| + 1] == s + [0]
    ensures CString(p, o) == s
    decreases |s|
  {
    assert p[o] == p[o..][..|s| + 1][0] == (s + [0])[0];
    if s != [] {
      assert p[o + 1..][..|s|] == p[o..][..|s| + 1][1..] == s[1..] + [0];
      ReadString(p, o + 1, s[1..]);
      assert s == [s[0]] + s[1..];
    }
  }

  // ----- the layout -----

  function Round4(n: nat): nat { (n + 3) / 4 * 4 }

  /** The size check of `init_stack`. */
  predicate FitsPage(argv: seq<seq<nat>>) {
    Round4(|Blob(argv)|) + 4 * (|argv| + 3) <= BY2PG
  }

  function ArgsAt(argv: seq<seq<nat>>): int { BY2PG - Round4(|Blob(argv)|) - 4 * (|argv| + 1) }

  function StringsAt(argv: seq<seq<nat>>): int { BY2PG - |Blob(argv)| }

  /** The page with the strings at offset `strings` and the pointers at offset `args`. */
  ghost predicate BuiltAt(p: seq<nat>, argv: seq<seq<nat>>, strings: nat, args: nat) {
    && Room(argv, strings, args) && Strings(p, argv, strings) && Pointers(p, argv, strings, args, |argv|)
    && Word(p, args + 4 * |argv|) == USTACKTOP - 1
    && Word(p, args - 4) == PAGE + args
    && Word(p, args - 8) == |argv|
  }

  /** The areas lie in the page, in order and apart: argc and argv, the pointers, the strings. */
  predicate Room(argv: seq<seq<nat>>, strings: nat, args: nat) {
    8 <= args && args + 4 * (|argv| + 1) <= strings && strings + |Blob(argv)| == BY2PG
  }

  predicate Strings(p: seq<nat>, argv: seq<seq<nat>>, strings: nat) {
    |p| == BY2PG && strings <= BY2PG && p[strings..] == Blob(argv)
  }

  ghost predicate Pointers(p: seq<nat>, argv: seq<seq<nat>>, strings: nat, args: nat, n: nat) {
    n <= |argv| && forall i | 0 <= i < n :: Pointer(p, argv, strings, args, i)
  }

  predicate Pointer(p: seq<nat>, argv: seq<seq<nat>>, strings: nat, args: nat, i: nat)
    requires i < |argv|
  {
    Word(p, args + 4 * i) == PAGE + strings + Start(argv, i)
  }

  /** Arguments that pass the size check have room, with word-aligned pointers. */
  lemma FitsHasRoom(argv: seq<seq<nat>>)
    requires FitsPage(argv)
    ensures StringsAt(argv) >= 0 && ArgsAt(argv) >= 0 && Room(argv, StringsAt(argv), ArgsAt(argv))
    ensures (PAGE + ArgsAt(argv) - 8) % 4 == 0
  {
  }

  // ----- the child -----

  /** What a child that starts with stack pointer `sp` sees as its arguments. */
  function ChildArgs(p: seq<nat>, sp: int): seq<seq<nat>> {
    var argc, argv := Word(p, sp - PAGE), Word(p, sp + 4 - PAGE);
    seq(argc, i => CString(p, Word(p, argv + 4 * i - PAGE) - PAGE))
  }

  /** The child gets back exactly the strings, in order, and one more pointer that leads to a zero
      byte. */
  lemma RoundTrip(p: seq<nat>, argv: seq<seq<nat>>, strings: nat, args: nat)
    requires BuiltAt(p, argv, strings, args) && forall i | 0 <= i < |argv| :: IsString(argv[i])
    ensures ChildArgs(p, PAGE + args - 8) == argv
    ensures argv != [] ==> CString(p, Word(p, args + 4 * |argv|) - PAGE) == []
  {
    var c := ChildArgs(p, PAGE + args - 8);
    assert |c| == |argv|;
    forall i | 0 <= i < |argv| ensures c[i] == argv[i] {
      assert Pointer(p, argv, strings, args, i);
      OneArgument(p, argv, strings, args, i);
    }
    if argv != [] { LastByte(p, argv, strings); }
  }

  lemma LastByte(p: seq<nat>, argv: seq<seq<nat>>, strings: nat)
    requires Strings(p, argv, strings) && argv != []
    ensures p[BY2PG - 1] == 0
  {
    BlobNext(argv, |argv| - 1);
    assert argv[..|argv|] == argv;
    assert p[strings..][|Blob(argv)| - 1] == 0;
  }

  lemma OneArgument(p: seq<nat>, argv: seq<seq<nat>>, strings: nat, args: nat, i: nat)
    requires Strings(p, argv, strings) && i < |argv| && Pointer(p, argv, strings, args, i) && IsString(argv[i])
    ensures CString(p, Word(p, args + 4 * i) - PAGE) == argv[i]
  {
    var s, o := argv[i], strings + Start(argv, i);
    assert argv[..|argv|] == argv;
    BlobHolds(argv, i, |argv|);
    assert p[o..] == p[strings..][Start(argv, i)..];
    ReadString(p, o, s);
  }

  // ----- init_stack -----

  datatype Result = Ok(sp: nat) | NoMem | Failed

  method StoreWord(p: array<nat>, o: nat, v: nat)
    requires o + 4 <= p.Length
    modifies p
    requires v < 0x1_0000_0000
    ensures Stored(old(p[..]), p[..], o, v)
  {
    ghost var q := p[..];
    p[o] := v % 0x100;
    p[o + 1] := v / 0x100 % 0x100;
    p[o + 2] := v / 0x1_0000 % 0x100;
    p[o + 3] := v / 0x100_0000 % 0x100;
    assert p[..] == PutWord(q, o, v);
    PutIsStored(q, o, v);
  }

  /** The word at `o` becomes `v`; every other byte, and every word apart from it, stays. */
  ghost predicate Stored(q: seq<nat>, q': seq<nat>, o: nat, v: nat) {
    && |q'| == |q| && Word(q', o) == v
    && (forall o': int | o' + 4 <= o || o + 4 <= o' :: Word(q', o') == Word(q, o'))
    && (forall i | 0 <= i < |q| && (i < o || o + 4 <= i) :: q'[i] == q[i])
  }

  lemma PutIsStored(q: seq<nat>, o: nat, v: nat)
    requires o + 4 <= |q| && v < 0x1_0000_0000
    ensures Stored(q, PutWord(q, o, v), o, v)
  {
    WordBack(q, o, v);
    forall o': int | o' + 4 <= o || o + 4 <= o' ensures Word(PutWord(q, o, v), o') == Word(q, o') {
      WordKept(q, o, v, o');
    }
  }

  /** The first loop: the room the strings take. */
  method TotalSize(argv: seq<seq<nat>>) returns (tot: nat)
    ensures tot == |Blob(argv)|
  {
    tot := 0;
    var argc := 0;
    while argc < |argv|
      invariant 0 <= argc <= |argv| && tot == Start(argv, argc)
    {
      BlobNext(argv, argc);
      tot := tot + |argv[argc]| + 1;
      argc := argc + 1;
    }
    assert argv[..|argv|] == argv;
  }

  /** One string and its zero byte, byte by byte. */
  method CopyString(p: array<nat>, c: nat, s: seq<nat>) returns (c': nat)
    requires c + |s| + 1 <= p.Length
    modifies p
    ensures c' == c + |s| + 1 && p[..c] == old(p[..c]) && p[c..c'] == s + [0]
  {
    var j := 0;
    while j < |s|
      invariant 0 <= j <= |s| && p[..c] == old(p[..c]) && p[c..c + j] == s[..j]
    {
      p[c + j] := s[j];
      j := j + 1;
    }
    p[c + j] := 0;
    c' := c + j + 1;
    assert p[c..c'] == p[c..c + j] + [0];
  }

  /** The second loop: all strings, up to the end of the page. */
  method CopyStrings(p: array<nat>, argv: seq<seq<nat>>, at: nat)
    requires p.Length == BY2PG && at + |Blob(argv)| == BY2PG
    modifies p
    ensures p[at..] == Blob(argv)
  {
    assert argv[..|argv|] == argv;
    var c, i := at, 0;
    while i < |argv|
      invariant 0 <= i <= |argv| && c == at + Start(argv, i) <= BY2PG && p[at..c] == Blob(argv[..i])
    {
      BlobNext(argv, i);
      StartInside(argv, i);
      ghost var before := p[..c];
      var c' := CopyString(p, c, argv[i]);
      assert p[at..c] == p[..c][at..] == before[at..];
      assert p[at..c'] == p[at..c] + p[c..c'];
      c, i := c', i + 1;
    }
  }

  lemma StartInside(argv: seq<seq<nat>>, i: nat)
    requires i < |argv|
    ensures Start(argv, i) + |argv[i]| + 1 <= |Blob(argv)|
  {
    BlobHolds(argv, i, |argv|);
    assert argv[..|argv|] == argv;
  }

  /** `init_stack` on a fresh page. `alloc`, `mapped` and `unmapped` say whether the three mapping calls
      succeed. It reports -E_NO_MEM exactly when the arguments do not fit, and another failure exactly when
      one of the calls fails; otherwise the child recovers the arguments from the page and the stack
      pointer. Before the page is allocated nothing is written. */
  method Build(p: array<nat>, argv: seq<seq<nat>>, alloc: bool, mapped: bool, unmapped: bool) returns (r: Result)
    requires p.Length == BY2PG && forall i | 0 <= i < |argv| :: IsString(argv[i])
    modifies p
    ensures r.NoMem? <==> !FitsPage(argv)
    ensures r.Failed? <==> FitsPage(argv) && !(alloc && mapped && unmapped)
    ensures r.NoMem? || !alloc ==> p[..] == old(p[..])
    ensures r.Ok? ==> PAGE <= r.sp < USTACKTOP && r.sp % 4 == 0 && ChildArgs(p[..], r.sp) == argv
  {
    var tot := TotalSize(argv);
    var argc := |argv|;
    if Round4(tot) + 4 * (argc + 3) > BY2PG { return NoMem; }
    FitsHasRoom(argv);
    var strings := BY2PG - tot;
    var args := BY2PG - Round4(tot) - 4 * (argc + 1);
    assert strings == StringsAt(argv) && args == ArgsAt(argv);
    if !alloc { return Failed; }
    WritePage(p, argv, strings, args);
    if !mapped || !unmapped { return Failed; }
    return Ok(PAGE + args - 8);
  }

  method WritePage(p: array<nat>, argv: seq<seq<nat>>, strings: nat, args: nat)
    requires p.Length == BY2PG && Room(argv, strings, args) && forall i | 0 <= i < |argv| :: IsString(argv[i])
    modifies p
    ensures ChildArgs(p[..], PAGE + args - 8) == argv
  {
    FillPage(p, argv, strings, args);
    RoundTrip(p[..], argv, strings, args);
  }

  method FillPage(p: array<nat>, argv: seq<seq<nat>>, strings: nat, args: nat)
    requires p.Length == BY2PG && Room(argv, strings, args)
    modifies p
    ensures BuiltAt(p[..], argv, strings, args)
  {
    CopyStrings(p, argv, strings);
    assert p[..][strings..] == p[strings..];
    PutPointers(p, argv, strings, args);
    ghost var q := p[..];
    StoreWord(p, args - 4, PAGE + args);
    StoreKeeps(q, p[..], argv, strings, args, |argv|, args - 4, PAGE + args);
    ghost var q1 := p[..];
    StoreWord(p, args - 8, |argv|);
    StoreKeeps(q1, p[..], argv, strings, args, |argv|, args - 8, |argv|);
  }

  /** A store below the strings that misses the first `n` pointers keeps both. */
  lemma StoreKeeps(q: seq<nat>, q': seq<nat>, argv: seq<seq<nat>>, strings: nat, args: nat, n: nat, o: nat, v: nat)
    requires Strings(q, argv, strings) && Pointers(q, argv, strings, args, n) && Stored(q, q', o, v)
    requires o + 4 <= strings && (o + 4 <= args || args + 4 * n <= o)
    ensures Strings(q', argv, strings) && Pointers(q', argv, strings, args, n)
  {
    assert q'[strings..] == q[strings..];
    forall j | 0 <= j < n ensures Pointer(q', argv, strings, args, j) {
      assert Pointer(q, argv, strings, args, j);
    }
  }

  /** The third loop: the pointers, and one to the last zero byte. */
  method PutPointers(p: array<nat>, argv: seq<seq<nat>>, strings: nat, args: nat)
    requires p.Length == BY2PG && Room(argv, strings, args) && Strings(p[..], argv, strings)
    modifies p
    ensures Strings(p[..], argv, strings) && Pointers(p[..], argv, strings, args, |argv|)
    ensures Word(p[..], args + 4 * |argv|) == USTACKTOP - 1
  {
    var c, i := PAGE + strings, 0;
    while i < |argv|
      invariant 0 <= i <= |argv| && c == PAGE + strings + Start(argv, i)
      invariant Strings(p[..], argv, strings) && Pointers(p[..], argv, strings, args, i)
    {
      BlobNext(argv, i);
      StartInside(argv, i);
      ghost var q := p[..];
      StoreWord(p, args + 4 * i, c);
      StoreKeeps(q, p[..], argv, strings, args, i, args + 4 * i, c);
      assert Pointer(p[..], argv, strings, args, i);
      c, i := c + |argv[i]| + 1, i + 1;
    }
    assert argv[..|argv|] == argv;
    ghost var q := p[..];
    StoreWord(p, args + 4 * |argv|, c - 1);
    StoreKeeps(q, p[..], argv, strings, args, |argv|, args + 4 * |argv|, c - 1);
  }
}
