/** The ring buffer of user/lib/pipe.c between one reading and one writing process, interleaved
    at single loads and stores, with 32-bit positions that wrap. */
module PipeFifo {

  const BY2PIPE: nat := 32
  const WORD: nat := 0x1_0000_0000      // p_rpos and p_wpos are u_int

  /** `pipe_read` between two memory accesses; the fields are values already loaded. */
  datatype Reader =
    | RTop                                   // about to load p_rpos
    | RTest(rpos: nat)                       // about to load p_wpos and compare
    | RAsk(seen: nat)                        // saw an empty pipe, about to ask whether it is closed
    | RIndex                                 // saw data, about to load p_rpos
    | RByte(rpos: nat)                       // about to load p_buf[rpos % BY2PIPE]
    | RLoad                                  // byte stored in rbuf, about to load p_rpos
    | RBump(rpos: nat)                       // about to store p_rpos
    | REof(seen: nat)                        // returned 0

  /** `pipe_write` likewise. */
  datatype Writer =
    | WTop                                   // about to load p_wpos
    | WTest(wpos: nat)                       // about to load p_rpos and compare
    | WIndex                                 // saw room, about to load p_wpos
    | WByte(wpos: nat)                       // about to store p_buf[wpos % BY2PIPE]
    | WLoad(byte: int)                       // about to load p_wpos
    | WBump(byte: int, wpos: nat)            // about to store p_wpos
    | WClosed

  /** `sent` and `got` are history: the bytes published by the writer and those taken by the
      reader; `taken` counts the advances of p_rpos. */
  datatype State = State(rpos: nat, wpos: nat, buf: seq<int>, r: Reader, w: Writer,
                         sent: seq<int>, got: seq<int>, taken: nat)

  datatype Event = Read | Write(byte: int) | CloseWriter

  /** The difference of two u_int values. */
  function Sub(a: nat, b: nat): nat
    requires a < WORD && b < WORD
  {
    (a + WORD - b) % WORD
  }

  function ReadStep(s: State): State
    requires |s.buf| == BY2PIPE
  {
    match s.r
    case RTop => s.(r := RTest(s.rpos))
    case RTest(rpos) => s.(r := if rpos == s.wpos then RAsk(|s.sent|) else RIndex)
    case RAsk(seen) => s.(r := if s.w.WClosed? then REof(seen) else RTop)
    case RIndex => s.(r := RByte(s.rpos))
    case RByte(rpos) => s.(r := RLoad, got := s.got + [s.buf[rpos % BY2PIPE]])
    case RLoad => s.(r := RBump(s.rpos))
    case RBump(rpos) => s.(r := RTop, rpos := (rpos + 1) % WORD, taken := s.taken + 1)
    case REof(_) => s
  }

  function WriteStep(s: State, byte: int): State
    requires |s.buf| == BY2PIPE && s.rpos < WORD && (s.w.WTest? ==> s.w.wpos < WORD)
  {
    match s.w
    case WTop => s.(w := WTest(s.wpos))
    case WTest(wpos) => s.(w := if Sub(wpos, s.rpos) == BY2PIPE then WTop else WIndex)
    case WIndex => s.(w := WByte(s.wpos))
    case WByte(wpos) => s.(w := WLoad(byte), buf := s.buf[wpos % BY2PIPE := byte])
    case WLoad(b) => s.(w := WBump(b, s.wpos))
    case WBump(b, wpos) => s.(w := WTop, wpos := (wpos + 1) % WORD, sent := s.sent + [b])
    case WClosed => s
  }

  ghost predicate Enabled(s: State, e: Event) {
    && |s.buf| == BY2PIPE && s.rpos < WORD && (s.w.WTest? ==> s.w.wpos < WORD)
    && (e.CloseWriter? ==> s.w.WTop?)
  }

  ghost function Step(s: State, e: Event): State
    requires Enabled(s, e)
  {
    match e
    case Read => ReadStep(s)
    case Write(b) => WriteStep(s, b)
    case CloseWriter => s.(w := WClosed)
  }

  // ----- the invariant -----

  ghost predicate ReaderOk(s: State) {
    match s.r
    case RTop => |s.got| == s.taken
    case RTest(rpos) => |s.got| == s.taken && rpos == s.rpos
    case RAsk(seen) => |s.got| == s.taken == seen
    case RIndex => |s.got| == s.taken && s.taken < |s.sent|
    case RByte(rpos) => |s.got| == s.taken && s.taken < |s.sent| && rpos == s.rpos
    case RLoad => |s.got| == s.taken + 1 && s.taken < |s.sent|
    case RBump(rpos) => |s.got| == s.taken + 1 && s.taken < |s.sent| && rpos == s.rpos
    case REof(seen) => |s.got| == s.taken == seen && s.w.WClosed?
  }

  ghost predicate WriterOk(s: State)
    requires |s.buf| == BY2PIPE
  {
    match s.w
    case WTop => true
    case WTest(wpos) => wpos == s.wpos
    case WIndex => |s.sent| < s.taken + BY2PIPE
    case WByte(wpos) => |s.sent| < s.taken + BY2PIPE && wpos == s.wpos
    case WLoad(b) => |s.sent| < s.taken + BY2PIPE && s.buf[|s.sent| % BY2PIPE] == b
    case WBump(b, wpos) => |s.sent| < s.taken + BY2PIPE && s.buf[|s.sent| % BY2PIPE] == b && wpos == s.wpos
    case WClosed => true
  }

  ghost predicate Inv(s: State) {
    && |s.buf| == BY2PIPE
    && s.rpos == s.taken % WORD && s.wpos == |s.sent| % WORD
    && s.taken <= |s.sent| <= s.taken + BY2PIPE
    && (forall k | s.taken <= k < |s.sent| :: s.buf[k % BY2PIPE] == s.sent[k])
    && |s.got| <= |s.sent| && s.got == s.sent[..|s.got|]
    && ReaderOk(s) && WriterOk(s)
  }

  function Start(): State {
    State(0, 0, seq(BY2PIPE, i => 0), RTop, WTop, [], [], 0)
  }

  // ----- positions modulo 2^32 -----

  lemma PositionsEqual(a: nat, b: nat)
    requires a <= b <= a + BY2PIPE
    ensures a % WORD == b % WORD <==> a == b
  {
  }

  lemma PositionGap(a: nat, b: nat)
    requires a <= b <= a + BY2PIPE
    ensures Sub(b % WORD, a % WORD) == b - a
  {
  }

  lemma PositionIndex(a: nat)
    ensures a % WORD % BY2PIPE == a % BY2PIPE
    ensures (a % WORD + 1) % WORD == (a + 1) % WORD
  {
  }

  lemma SlotsDiffer(a: nat, b: nat)
    requires a < b < a + BY2PIPE
    ensures a % BY2PIPE != b % BY2PIPE
  {
  }

  lemma ReadKeeps(s: State)
    requires Inv(s) && Enabled(s, Read)
    ensures Inv(ReadStep(s))
  {
    PositionIndex(s.taken);
    PositionsEqual(s.taken, |s.sent|);
    var s' := ReadStep(s);
    if s.r.RByte? {
      assert s'.got == s.sent[..|s.got|] + [s.sent[|s.got|]] == s.sent[..|s'.got|];
    }
  }

  lemma WriteKeeps(s: State, b: int)
    requires Inv(s) && Enabled(s, Write(b))
    ensures Inv(WriteStep(s, b))
  {
    PositionIndex(|s.sent|);
    PositionGap(s.taken, |s.sent|);
    var s' := WriteStep(s, b);
    if s.w.WByte? {
      forall k | s.taken <= k < |s.sent| ensures s'.buf[k % BY2PIPE] == s.sent[k] {
        SlotsDiffer(k, |s.sent|);
      }
    }
  }

  lemma StepKeeps(s: State, e: Event)
    requires Inv(s) && Enabled(s, e)
    ensures Inv(Step(s, e))
  {
    match e
    case Read => ReadKeeps(s);
    case Write(b) => WriteKeeps(s, b);
    case CloseWriter =>
  }

  // ----- runs -----

  ghost predicate ValidRun(s: State, es: seq<Event>)
    decreases |es|
  {
    es == [] || (Enabled(s, es[0]) && ValidRun(Step(s, es[0]), es[1..]))
  }

  ghost function Run(s: State, es: seq<Event>): State
    requires ValidRun(s, es)
    decreases |es|
  {
    if es == [] then s else Run(Step(s, es[0]), es[1..])
  }

  lemma {:induction false} RunKeeps(s: State, es: seq<Event>)
    requires Inv(s) && ValidRun(s, es)
    ensures Inv(Run(s, es))
    decreases |es|
  {
    if es != [] {
      StepKeeps(s, es[0]);
      RunKeeps(Step(s, es[0]), es[1..]);
    }
  }

  /** First in, first out, over every interleaving and across any number of position wraps: what
      was read is a prefix of what was written, and never more than 32 bytes are outstanding. */
  lemma Fifo(es: seq<Event>)
    requires ValidRun(Start(), es)
    ensures var s := Run(Start(), es);
            s.got <= s.sent && |s.sent| - |s.got| <= BY2PIPE
  {
    RunKeeps(Start(), es);
  }

  // ----- end of file -----

  /** What the ring still holds, as the reader could take it out: the bytes from p_rpos to p_wpos. */
  function Unread(s: State): seq<int>
    requires |s.buf| == BY2PIPE && s.rpos < WORD && s.wpos < WORD
  {
    seq(Sub(s.wpos, s.rpos), i requires 0 <= i => s.buf[(s.rpos + i) % BY2PIPE])
  }

  /** When `pipe_read` returns 0, what it has missed is exactly what the ring still holds. It has missed
      nothing if and only if the two positions are equal then: loading them once more, after the answer
      of `_pipe_is_closed`, would tell. */
  lemma EofCompleteIff(es: seq<Event>)
    requires ValidRun(Start(), es) && Run(Start(), es).r.REof?
    ensures var s := Run(Start(), es);
            && |s.buf| == BY2PIPE && s.rpos < WORD && s.wpos < WORD
            && s.sent == s.got + Unread(s)
            && (s.got == s.sent <==> s.rpos == s.wpos)
  {
    RunKeeps(Start(), es);
    UnreadRest(Run(Start(), es));
  }

  lemma UnreadRest(s: State)
    requires Inv(s) && |s.got| == s.taken
    ensures s.rpos < WORD && s.wpos < WORD && s.sent == s.got + Unread(s)
    ensures s.got == s.sent <==> s.rpos == s.wpos
  {
    PositionsEqual(s.taken, |s.sent|);
    PositionGap(s.taken, |s.sent|);
    var u := Unread(s);
    forall i: nat | i < |u| ensures u[i] == s.sent[s.taken + i] {
      RingIndex(s.taken, i);
      assert s.buf[(s.taken + i) % BY2PIPE] == s.sent[s.taken + i];
    }
    assert u == s.sent[s.taken..];
  }

  lemma RingIndex(a: nat, i: nat)
    ensures (a % WORD + i) % BY2PIPE == (a + i) % BY2PIPE
  {
    assert a == WORD * (a / WORD) + a % WORD;
    assert a + i == BY2PIPE * (WORD / BY2PIPE * (a / WORD)) + (a % WORD + i);
  }

  lemma Prepend(s: State, e: Event, rest: seq<Event>)
    requires Enabled(s, e) && ValidRun(Step(s, e), rest)
    ensures ValidRun(s, [e] + rest) && Run(s, [e] + rest) == Run(Step(s, e), rest)
  {
    assert ([e] + rest)[1..] == rest;
  }

  /** The writer finishes its current `pipe_write` of one byte and closes its end; then the reader,
      which had already found the pipe empty, is told that it is closed. */
  lemma EofCanLoseBytes(byte: int) returns (es: seq<Event>)
    ensures ValidRun(Start(), es) && Run(Start(), es).r.REof?
    ensures Run(Start(), es).got == [] && Run(Start(), es).sent == [byte]
  {
    var b := Write(byte);
    var s2 := Step(Step(Start(), Read), Read);
    var s5 := Step(Step(Step(s2, b), b), b);
    var s8 := Step(Step(Step(s5, b), b), b);
    var s9 := Step(s8, CloseWriter);
    var s10 := Step(s9, Read);
    assert s8.sent == [byte] && s8.got == [] && s8.w.WTop? && s10.r.REof?;
    Prepend(s9, Read, []);
    Prepend(s8, CloseWriter, [Read] + []);
    es := [CloseWriter] + ([Read] + []);
    es := PrependWrites(s5, byte, es);
    es := PrependWrites(s2, byte, es);
    Prepend(Step(Start(), Read), Read, es);
    Prepend(Start(), Read, [Read] + es);
    es := [Read] + ([Read] + es);
  }

  lemma PrependWrites(s: State, byte: int, rest: seq<Event>) returns (es: seq<Event>)
    requires var b := Write(byte);
             && Enabled(s, b) && Enabled(Step(s, b), b) && Enabled(Step(Step(s, b), b), b)
             && ValidRun(Step(Step(Step(s, b), b), b), rest)
    ensures ValidRun(s, es)
    ensures Run(s, es) == Run(Step(Step(Step(s, Write(byte)), Write(byte)), Write(byte)), rest)
  {
    var b := Write(byte);
    Prepend(Step(Step(s, b), b), b, rest);
    Prepend(Step(s, b), b, [b] + rest);
    Prepend(s, b, [b] + ([b] + rest));
    es := [b] + ([b] + ([b] + rest));
  }

  // ----- what a process gets done when it runs alone -----

  /** Six accesses of the reader: it takes the next byte that was sent, and the ring has one less. */
  lemma TakeAlone(s: State) returns (es: seq<Event>)
    requires Inv(s) && s.r.RTop? && s.rpos != s.wpos
    ensures |s.got| < |s.sent| && ValidRun(s, es) && (forall e | e in es :: e == Read)
    ensures Run(s, es) == s.(got := s.got + [s.sent[|s.got|]], rpos := (s.rpos + 1) % WORD, taken := s.taken + 1)
  {
    PositionsEqual(s.taken, |s.sent|);
    PositionIndex(s.taken);
    var s1 := Step(s, Read);
    var s2 := Step(s1, Read);
    var s3 := Step(s2, Read);
    var s4 := Step(s3, Read);
    var s5 := Step(s4, Read);
    Prepend(s5, Read, []);
    Prepend(s4, Read, [Read] + []);
    Prepend(s3, Read, [Read] + ([Read] + []));
    es := PrependThree(s, [Read] + ([Read] + ([Read] + [])));
  }

  lemma PrependThree(s: State, rest: seq<Event>) returns (es: seq<Event>)
    requires |s.buf| == BY2PIPE && Enabled(s, Read) && Enabled(Step(s, Read), Read)
    requires Enabled(Step(Step(s, Read), Read), Read) && ValidRun(Step(Step(Step(s, Read), Read), Read), rest)
    requires forall e | e in rest :: e == Read
    ensures ValidRun(s, es) && Run(s, es) == Run(Step(Step(Step(s, Read), Read), Read), rest)
    ensures forall e | e in es :: e == Read
  {
    Prepend(Step(Step(s, Read), Read), Read, rest);
    Prepend(Step(s, Read), Read, [Read] + rest);
    Prepend(s, Read, [Read] + ([Read] + rest));
    es := [Read] + ([Read] + ([Read] + rest));
  }

  /** Six accesses of the writer: its byte is sent, and where the reader will look for it. */
  lemma SendAlone(s: State, byte: int) returns (es: seq<Event>)
    requires Inv(s) && s.w.WTop? && s.rpos < WORD && s.wpos < WORD && Sub(s.wpos, s.rpos) != BY2PIPE
    ensures ValidRun(s, es) && (forall e | e in es :: e == Write(byte))
    ensures Run(s, es) == s.(sent := s.sent + [byte], wpos := (s.wpos + 1) % WORD,
                             buf := s.buf[|s.sent| % BY2PIPE := byte])
  {
    PositionIndex(|s.sent|);
    var b := Write(byte);
    var s1 := Step(s, b);
    var s2 := Step(s1, b);
    var s3 := Step(s2, b);
    var s4 := Step(s3, b);
    var s5 := Step(s4, b);
    Prepend(s5, b, []);
    Prepend(s4, b, [b] + []);
    Prepend(s3, b, [b] + ([b] + []));
    Prepend(s2, b, [b] + ([b] + ([b] + [])));
    Prepend(s1, b, [b] + ([b] + ([b] + ([b] + []))));
    Prepend(s, b, [b] + ([b] + ([b] + ([b] + ([b] + [])))));
    es := [b] + ([b] + ([b] + ([b] + ([b] + ([b] + [])))));
  }

  lemma {:induction false} Concat(s: State, es: seq<Event>, fs: seq<Event>)
    requires ValidRun(s, es) && ValidRun(Run(s, es), fs)
    ensures ValidRun(s, es + fs) && Run(s, es + fs) == Run(Run(s, es), fs)
    decreases |es|
  {
    if es == [] {
      assert es + fs == fs;
    } else {
      Concat(Step(s, es[0]), es[1..], fs);
      assert (es + fs)[1..] == es[1..] + fs;
    }
  }

  /** A reader that goes on reading alone gets everything that was sent, in order. */
  lemma {:induction false} DrainAlone(s: State) returns (es: seq<Event>)
    requires Inv(s) && s.r.RTop?
    ensures ValidRun(s, es) && (forall e | e in es :: e == Read)
    ensures var t := Run(s, es); Inv(t) && t.r.RTop? && t.got == t.sent == s.sent && t.w == s.w
    decreases |s.sent| - |s.got|
  {
    PositionsEqual(s.taken, |s.sent|);
    if s.rpos == s.wpos {
      es := [];
      assert s.got == s.sent;
    } else {
      var es1 := TakeAlone(s);
      RunKeeps(s, es1);
      var es2 := DrainAlone(Run(s, es1));
      Concat(s, es1, es2);
      es := es1 + es2;
    }
  }

  /** A reader that has everything is told of the end if and only if the other end is closed. */
  lemma EndAlone(s: State) returns (es: seq<Event>)
    requires Inv(s) && s.r.RTop? && s.got == s.sent
    ensures ValidRun(s, es) && es == [Read, Read, Read]
    ensures Run(s, es) == s.(r := if s.w.WClosed? then REof(|s.sent|) else RTop)
  {
    var s1 := Step(s, Read);
    var s2 := Step(s1, Read);
    Prepend(s2, Read, []);
    Prepend(s1, Read, [Read] + []);
    Prepend(s, Read, [Read] + ([Read] + []));
    es := [Read, Read, Read];
    assert es == [Read] + ([Read] + ([Read] + []));
  }
}
