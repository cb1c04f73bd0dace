/** What `pipe`, `dup` and `close` (user/lib/pipe.c, user/lib/fd.c) have done when they return, for a process that
    is not interrupted: runs of the machine of module PipeClose, for every state, process and number. */
module PipeCalls {
  import opened Options
  import opened PipeClose

  /** Only the mappings and the program counter of `p` are different. */
  function Left(s: State, p: nat, fd: map<Slot, End>, data: map<Slot, nat>, pc: Pc): State
    requires p in s.procs
  {
    State(fd, data, s.procs[p := s.procs[p].(pc := pc)], s.cur)
  }

  /** Process `p` is on the processor, at `pc`. */
  predicate At(s: State, p: nat, pc: Pc) { s.cur == p && p in s.procs && s.procs[p].pc == pc }

  lemma LeftTwice(s: State, p: nat, t: State, fd: map<Slot, End>, data: map<Slot, nat>, pc: Pc)
    requires p in s.procs && p in t.procs && t == Left(s, p, t.fd, t.data, t.procs[p].pc)
    ensures Left(t, p, fd, data, pc) == Left(s, p, fd, data, pc)
  {
    assert Left(t, p, fd, data, pc).procs == Left(s, p, fd, data, pc).procs;
  }

  ghost predicate OneStep(s: State, e: Event, t: State) { Enabled(s, e) && t == Step(s, e) }

  lemma Run2(s: State, e: Event, t: State, f: Event, u: State)
    requires OneStep(s, e, t) && OneStep(t, f, u)
    ensures ValidRun(s, [e, f]) && Run(s, [e, f]) == u
  {
    Prepend(t, f, []);
    Prepend(s, e, [f] + []);
    assert [e] + ([f] + []) == [e, f];
  }

  lemma Run3(s: State, e: Event, t: State, f: Event, u: State, g: Event, v: State)
    requires OneStep(s, e, t) && OneStep(t, f, u) && OneStep(u, g, v)
    ensures ValidRun(s, [e, f, g]) && Run(s, [e, f, g]) == v
  {
    Run2(t, f, u, g, v);
    Prepend(s, e, [f, g]);
    assert [e] + [f, g] == [e, f, g];
  }

  // ----- close -----

  /** The three unmap calls of `close`. */
  lemma Unmapped(s: State, p: nat, num: nat, dup: Option<nat>, ok: bool)
    requires At(s, p, CloseFd(num, dup))
    ensures var g, x := Go(p, ok), Slot(p, num);
            && ValidRun(s, [g, g, g])
            && Run(s, [g, g, g]) ==
               Left(s, p, s.fd - {x}, s.data - {x}, if dup.Some? then DupData(dup.value, num) else Idle)
  {
    var g, x := Go(p, ok), Slot(p, num);
    var pc := if dup.Some? then DupData(dup.value, num) else Idle;
    var s1 := Left(s, p, s.fd - {x}, s.data, CloseData(num, dup));
    var s2 := Left(s, p, s.fd - {x}, s.data - {x}, CloseAgain(num, dup));
    var s3 := Left(s, p, s.fd - {x}, s.data - {x}, pc);
    LeftTwice(s, p, s1, s2.fd, s2.data, CloseAgain(num, dup));
    LeftTwice(s, p, s2, s3.fd, s3.data, pc);
    assert OneStep(s, g, s1);
    assert OneStep(s1, g, s2);
    assert s.fd - {x} - {x} == s.fd - {x};
    assert OneStep(s2, g, s3);
    Run3(s, g, s1, g, s2, g, s3);
  }

  /** `close` of any open number: both pages of that slot are gone, every other slot and process is as it was. */
  lemma CloseCall(s: State, p: nat, num: nat, ok: bool)
    requires Calls(s, p) && Slot(p, num) in s.fd
    ensures var es, x := [Close(p, num), Go(p, ok), Go(p, ok), Go(p, ok)], Slot(p, num);
            ValidRun(s, es) && Run(s, es) == Left(s, p, s.fd - {x}, s.data - {x}, Idle)
  {
    var g, x := Go(p, ok), Slot(p, num);
    var s1 := Step(s, Close(p, num));
    assert s1 == Left(s, p, s.fd, s.data, CloseFd(num, None));
    Unmapped(s1, p, num, None, ok);
    LeftTwice(s, p, s1, s.fd - {x}, s.data - {x}, Idle);
    Prepend(s, Close(p, num), [g, g, g]);
    assert [Close(p, num)] + [g, g, g] == [Close(p, num), g, g, g];
  }

  // ----- dup -----

  /** What the slot `Slot(p, num)` has been cleared of when the mapping half of `dup` begins. */
  ghost predicate Cleared(s: State, t: State, p: nat, src: nat, num: nat)
    requires p in s.procs
  {
    t == Left(s, p, s.fd - {Slot(p, num)}, s.data - {Slot(p, num)}, DupData(src, num))
  }

  /** `dup` up to there: it closes the target if that is open. */
  lemma DupClears(s: State, p: nat, src: nat, num: nat, ok: bool) returns (es: seq<Event>)
    requires Inv(s) && Calls(s, p) && Slot(p, src) in s.fd && num < MAXFD
    ensures |es| > 0 && es[0] == Dup(p, src, num) && forall e | e in es[1..] :: e == Go(p, ok)
    ensures ValidRun(s, es) && Cleared(s, Run(s, es), p, src, num)
  {
    var e, x, g := Dup(p, src, num), Slot(p, num), Go(p, ok);
    var s1 := Step(s, e);
    if x in s.fd {
      assert s1 == Left(s, p, s.fd, s.data, CloseFd(num, Some(src)));
      Unmapped(s1, p, num, Some(src), ok);
      LeftTwice(s, p, s1, s.fd - {x}, s.data - {x}, DupData(src, num));
      Prepend(s, e, [g, g, g]);
      es := [e] + [g, g, g];
    } else {
      NoStray(s, p, num);
      assert s.fd - {x} == s.fd && s.data - {x} == s.data;
      Prepend(s, e, []);
      es := [e] + [];
    }
  }

  /** The two map calls, when both succeed. */
  lemma BothMapped(s: State, p: nat, src: nat, num: nat)
    requires At(s, p, DupData(src, num)) && Slot(p, src) in s.fd && Slot(p, src) in s.data && src != num
    ensures var g, x, y := Go(p, true), Slot(p, num), Slot(p, src);
            ValidRun(s, [g, g]) && Run(s, [g, g]) == Left(s, p, s.fd[x := s.fd[y]], s.data[x := s.data[y]], Idle)
  {
    var g, x, y := Go(p, true), Slot(p, num), Slot(p, src);
    var s1 := Left(s, p, s.fd, s.data[x := s.data[y]], DupFd(src, num));
    var s2 := Left(s, p, s.fd[x := s.fd[y]], s.data[x := s.data[y]], Idle);
    LeftTwice(s, p, s1, s2.fd, s2.data, Idle);
    assert OneStep(s, g, s1);
    assert OneStep(s1, g, s2);
    Run2(s, g, s1, g, s2);
  }

  /** `dup` of an open pipe end, with every call successful: the new number has the same descriptor and the
      same data page, whatever it had before, and every other slot and process is as it was. */
  lemma DupCall(s: State, p: nat, src: nat, num: nat) returns (es: seq<Event>)
    requires Inv(s) && Calls(s, p) && src != num && num < MAXFD
    requires Slot(p, src) in s.fd && Slot(p, src) in s.data
    ensures |es| > 0 && es[0] == Dup(p, src, num) && forall e | e in es[1..] :: e == Go(p, true)
    ensures ValidRun(s, es)
    ensures var x, y := Slot(p, num), Slot(p, src);
            Run(s, es) == Left(s, p, s.fd[x := s.fd[y]], s.data[x := s.data[y]], Idle)
  {
    var g, x, y := Go(p, true), Slot(p, num), Slot(p, src);
    var es1 := DupClears(s, p, src, num, true);
    var t := Run(s, es1);
    BothMapped(t, p, src, num);
    assert t.fd[x := t.fd[y]] == s.fd[x := s.fd[y]] && t.data[x := t.data[y]] == s.data[x := s.data[y]];
    LeftTwice(s, p, t, s.fd[x := s.fd[y]], s.data[x := s.data[y]], Idle);
    Concat(s, es1, [g, g]);
    es := es1 + [g, g];
    assert es[1..] == es1[1..] + [g, g];
  }

  /** The error path: both pages of the new number go. */
  lemma ErrorPath(s: State, p: nat, num: nat)
    requires At(s, p, DupErrFd(num))
    ensures var g, x := Go(p, false), Slot(p, num);
            ValidRun(s, [g, g]) && Run(s, [g, g]) == Left(s, p, s.fd - {x}, s.data - {x}, Idle)
  {
    var g, x := Go(p, false), Slot(p, num);
    var s1 := Left(s, p, s.fd - {x}, s.data, DupErrData(num));
    var s2 := Left(s, p, s.fd - {x}, s.data - {x}, Idle);
    LeftTwice(s, p, s1, s2.fd, s2.data, Idle);
    assert OneStep(s, g, s1);
    assert OneStep(s1, g, s2);
    Run2(s, g, s1, g, s2);
  }

  /** A run that has come to the error path, with nothing changed but at the new number. */
  lemma ErrorEnds(s: State, es: seq<Event>, p: nat, num: nat)
    requires p in s.procs && s.cur == p && ValidRun(s, es)
    requires var t, x := Run(s, es), Slot(p, num);
             && t == Left(s, p, t.fd, t.data, DupErrFd(num))
             && t.fd - {x} == s.fd - {x} && t.data - {x} == s.data - {x}
    ensures ValidRun(s, es + [Go(p, false), Go(p, false)])
    ensures Run(s, es + [Go(p, false), Go(p, false)]) ==
            Left(s, p, s.fd - {Slot(p, num)}, s.data - {Slot(p, num)}, Idle)
  {
    var t, x := Run(s, es), Slot(p, num);
    ErrorPath(t, p, num);
    Concat(s, es, [Go(p, false), Go(p, false)]);
    LeftTwice(s, p, t, s.fd - {x}, s.data - {x}, Idle);
  }

  /** From the mapping half to the error path: the map of the data page fails, or that of the descriptor. */
  lemma MapFails(s: State, p: nat, src: nat, num: nat, late: bool) returns (es: seq<Event>)
    requires At(s, p, DupData(src, num)) && Slot(p, src) in s.data && src != num
    ensures es == (if late then [Go(p, true), Go(p, false)] else [Go(p, false)]) && ValidRun(s, es)
    ensures var t, x := Run(s, es), Slot(p, num);
            && t == Left(s, p, t.fd, t.data, DupErrFd(num))
            && t.fd - {x} == s.fd - {x} && t.data - {x} == s.data - {x}
  {
    var x, y := Slot(p, num), Slot(p, src);
    if late {
      var s1 := Left(s, p, s.fd, s.data[x := s.data[y]], DupFd(src, num));
      var s2 := Left(s, p, s.fd, s.data[x := s.data[y]], DupErrFd(num));
      LeftTwice(s, p, s1, s2.fd, s2.data, DupErrFd(num));
      assert OneStep(s, Go(p, true), s1);
      assert OneStep(s1, Go(p, false), s2);
      Run2(s, Go(p, true), s1, Go(p, false), s2);
      es := [Go(p, true), Go(p, false)];
    } else {
      Prepend(s, Go(p, false), []);
      es := [Go(p, false)] + [];
    }
  }

  /** `dup` when one of its map calls fails: both pages of the new number are gone, and every other slot and
      process is as it was. */
  lemma DupFails(s: State, p: nat, src: nat, num: nat, late: bool) returns (es: seq<Event>)
    requires Inv(s) && Calls(s, p) && src != num && num < MAXFD
    requires Slot(p, src) in s.fd && Slot(p, src) in s.data
    ensures |es| > 0 && es[0] == Dup(p, src, num) && (forall e | e in es[1..] :: e.Go? && e.p == p)
    ensures !late ==> forall e | e in es[1..] :: !e.ok
    ensures ValidRun(s, es)
    ensures Run(s, es) == Left(s, p, s.fd - {Slot(p, num)}, s.data - {Slot(p, num)}, Idle)
  {
    var x := Slot(p, num);
    var es1 := DupClears(s, p, src, num, false);
    var t := Run(s, es1);
    var es2 := MapFails(t, p, src, num, late);
    Concat(s, es1, es2);
    LeftTwice(s, p, t, Run(t, es2).fd, Run(t, es2).data, DupErrFd(num));
    assert t.fd - {x} == s.fd - {x} && t.data - {x} == s.data - {x};
    ErrorEnds(s, es1 + es2, p, num);
    es := es1 + es2 + [Go(p, false), Go(p, false)];
    assert es[1..] == es1[1..] + es2 + [Go(p, false), Go(p, false)];
  }

  lemma NothingToMap(t: State, p: nat, num: nat, ok: bool)
    requires At(t, p, DupData(num, num)) && Slot(p, num) !in t.fd && Slot(p, num) !in t.data
    ensures var g := Go(p, ok);
            ValidRun(t, [g, g]) && Run(t, [g, g]) == Left(t, p, t.fd, t.data, DupErrFd(num))
  {
    var g := Go(p, ok);
    var t1 := Left(t, p, t.fd, t.data, DupFd(num, num));
    var t2 := Left(t, p, t.fd, t.data, DupErrFd(num));
    LeftTwice(t, p, t1, t.fd, t.data, DupErrFd(num));
    assert OneStep(t, g, t1);
    assert OneStep(t1, g, t2);
    Run2(t, g, t1, g, t2);
  }

  /** `dup` of a number onto itself closes it: there is nothing left to map. */
  lemma DupSelf(s: State, p: nat, num: nat, ok: bool) returns (es: seq<Event>)
    requires Inv(s) && Calls(s, p) && Slot(p, num) in s.fd && num < MAXFD
    ensures |es| > 0 && es[0] == Dup(p, num, num) && forall e | e in es[1..] :: e.Go? && e.p == p
    ensures ValidRun(s, es)
    ensures Run(s, es) == Left(s, p, s.fd - {Slot(p, num)}, s.data - {Slot(p, num)}, Idle)
  {
    var x, g := Slot(p, num), Go(p, ok);
    var es1 := DupClears(s, p, num, num, ok);
    var t := Run(s, es1);
    NothingToMap(t, p, num, ok);
    Concat(s, es1, [g, g]);
    LeftTwice(s, p, t, t.fd, t.data, DupErrFd(num));
    assert t.fd - {x} == s.fd - {x} && t.data - {x} == s.data - {x};
    ErrorEnds(s, es1 + [g, g], p, num);
    es := es1 + [g, g] + [Go(p, false), Go(p, false)];
    assert es[1..] == es1[1..] + [g, g] + [Go(p, false), Go(p, false)];
  }

  // ----- pipe -----

  /** `pipe` with every call successful: a reading end and a writing end of a new pipe, each with the data
      page, and nothing else. */
  lemma PipeCall(s: State, p: nat, n0: nat, n1: nat, pipe: nat)
    requires Enabled(s, Pipe(p, n0, n1, pipe))
    ensures var g, x0, x1 := Go(p, true), Slot(p, n0), Slot(p, n1);
            var es := [Pipe(p, n0, n1, pipe), g, g, g];
            && ValidRun(s, es)
            && Run(s, es) == Left(s, p, s.fd[x0 := End(pipe, false)][x1 := End(pipe, true)],
                                  s.data[x0 := pipe][x1 := pipe], Idle)
  {
    var e, g, x0, x1 := Pipe(p, n0, n1, pipe), Go(p, true), Slot(p, n0), Slot(p, n1);
    var fd0, data0 := s.fd[x0 := End(pipe, false)], s.data[x0 := pipe];
    var s1 := Left(s, p, fd0, s.data, Making(n0, n1, pipe, MapFd1));
    var s2 := Left(s, p, fd0[x1 := End(pipe, true)], s.data, Making(n0, n1, pipe, MapData0));
    var s3 := Left(s, p, s2.fd, data0, Making(n0, n1, pipe, MapData1));
    var s4 := Left(s, p, s2.fd, data0[x1 := pipe], Idle);
    LeftTwice(s, p, s1, s2.fd, s2.data, Making(n0, n1, pipe, MapData0));
    LeftTwice(s, p, s2, s3.fd, s3.data, Making(n0, n1, pipe, MapData1));
    LeftTwice(s, p, s3, s4.fd, s4.data, Idle);
    assert OneStep(s, e, s1);
    assert OneStep(s1, g, s2);
    assert OneStep(s2, g, s3);
    assert OneStep(s3, g, s4);
    Run3(s1, g, s2, g, s3, g, s4);
    Prepend(s, e, [g, g, g]);
    assert [e] + [g, g, g] == [e, g, g, g];
  }

  /** What `pipe` does from its failed call on: it takes back what it has mapped. */
  lemma TakenBack(s: State, p: nat, n0: nat, n1: nat, pipe: nat)
    requires p in s.procs && s.cur == p && n0 != n1
    requires Slot(p, n0) !in s.fd && Slot(p, n1) !in s.fd && Slot(p, n0) !in s.data
    ensures var g, x0 := Go(p, false), Slot(p, n0);
            var t := Left(s, p, s.fd[x0 := End(pipe, false)], s.data, Making(n0, n1, pipe, UndoFd0));
            ValidRun(t, [g]) && Run(t, [g]) == Left(s, p, s.fd, s.data, Idle)
    ensures var g, x0, x1 := Go(p, false), Slot(p, n0), Slot(p, n1);
            var t := Left(s, p, s.fd[x0 := End(pipe, false)][x1 := End(pipe, true)], s.data,
                          Making(n0, n1, pipe, UndoFd1));
            ValidRun(t, [g, g]) && Run(t, [g, g]) == Left(s, p, s.fd, s.data, Idle)
  {
    var g, x0, x1 := Go(p, false), Slot(p, n0), Slot(p, n1);
    var fd0 := s.fd[x0 := End(pipe, false)];
    var t0 := Left(s, p, fd0, s.data, Making(n0, n1, pipe, UndoFd0));
    var t1 := Left(s, p, fd0[x1 := End(pipe, true)], s.data, Making(n0, n1, pipe, UndoFd1));
    var u := Left(s, p, s.fd, s.data, Idle);
    assert fd0 - {x0} == s.fd && fd0[x1 := End(pipe, true)] - {x1} == fd0;
    LeftTwice(s, p, t0, s.fd, s.data, Idle);
    LeftTwice(s, p, t1, fd0, s.data, Making(n0, n1, pipe, UndoFd0));
    assert OneStep(t0, g, u);
    assert OneStep(t1, g, t0);
    Prepend(t0, g, []);
    assert [g] + [] == [g];
    Run2(t1, g, t0, g, u);
  }

  /** `pipe` when its second descriptor cannot be had: nothing has changed. */
  lemma PipeFailsFirst(s: State, p: nat, n0: nat, n1: nat, pipe: nat)
    requires Enabled(s, Pipe(p, n0, n1, pipe)) && Slot(p, n0) !in s.data
    ensures var g := Go(p, false);
            var es := [Pipe(p, n0, n1, pipe), g, g];
            ValidRun(s, es) && Run(s, es) == Left(s, p, s.fd, s.data, Idle)
  {
    var e, g, x0 := Pipe(p, n0, n1, pipe), Go(p, false), Slot(p, n0);
    var s1 := Left(s, p, s.fd[x0 := End(pipe, false)], s.data, Making(n0, n1, pipe, MapFd1));
    var s2 := Left(s, p, s.fd[x0 := End(pipe, false)], s.data, Making(n0, n1, pipe, UndoFd0));
    LeftTwice(s, p, s1, s2.fd, s2.data, Making(n0, n1, pipe, UndoFd0));
    assert OneStep(s, e, s1);
    assert OneStep(s1, g, s2);
    TakenBack(s, p, n0, n1, pipe);
    Prepend(s1, g, [g]);
    Prepend(s, e, [g] + [g]);
    assert [e] + ([g] + [g]) == [e, g, g];
  }

  /** `pipe` when the data page cannot be had. */
  lemma PipeFailsSecond(s: State, p: nat, n0: nat, n1: nat, pipe: nat)
    requires Enabled(s, Pipe(p, n0, n1, pipe)) && Slot(p, n0) !in s.data
    ensures var h, g := Go(p, true), Go(p, false);
            var es := [Pipe(p, n0, n1, pipe), h, g, g, g];
            ValidRun(s, es) && Run(s, es) == Left(s, p, s.fd, s.data, Idle)
  {
    var e, h, g, x0, x1 := Pipe(p, n0, n1, pipe), Go(p, true), Go(p, false), Slot(p, n0), Slot(p, n1);
    var s1 := Left(s, p, s.fd[x0 := End(pipe, false)], s.data, Making(n0, n1, pipe, MapFd1));
    var s2 := Left(s, p, s1.fd[x1 := End(pipe, true)], s.data, Making(n0, n1, pipe, MapData0));
    var s3 := Left(s, p, s2.fd, s.data, Making(n0, n1, pipe, UndoFd1));
    LeftTwice(s, p, s1, s2.fd, s2.data, Making(n0, n1, pipe, MapData0));
    LeftTwice(s, p, s2, s3.fd, s3.data, Making(n0, n1, pipe, UndoFd1));
    assert OneStep(s, e, s1);
    assert OneStep(s1, h, s2);
    assert OneStep(s2, g, s3);
    TakenBack(s, p, n0, n1, pipe);
    Run3(s, e, s1, h, s2, g, s3);
    Concat(s, [e, h, g], [g, g]);
    assert [e, h, g] + [g, g] == [e, h, g, g, g];
  }

  /** `pipe` when the data page cannot be mapped a second time. */
  lemma PipeFailsLast(s: State, p: nat, n0: nat, n1: nat, pipe: nat)
    requires Enabled(s, Pipe(p, n0, n1, pipe)) && Slot(p, n0) !in s.data
    ensures var h, g := Go(p, true), Go(p, false);
            var es := [Pipe(p, n0, n1, pipe), h, h, g, g, g, g];
            ValidRun(s, es) && Run(s, es) == Left(s, p, s.fd, s.data, Idle)
  {
    var e, h, g, x0, x1 := Pipe(p, n0, n1, pipe), Go(p, true), Go(p, false), Slot(p, n0), Slot(p, n1);
    var s1 := Left(s, p, s.fd[x0 := End(pipe, false)], s.data, Making(n0, n1, pipe, MapFd1));
    var s2 := Left(s, p, s1.fd[x1 := End(pipe, true)], s.data, Making(n0, n1, pipe, MapData0));
    LeftTwice(s, p, s1, s2.fd, s2.data, Making(n0, n1, pipe, MapData0));
    assert OneStep(s, e, s1);
    assert OneStep(s1, h, s2);
    Run2(s, e, s1, h, s2);
    LastUndone(s, s2, p, n0, n1, pipe);
    Concat(s, [e, h], [h, g, g, g, g]);
    assert [e, h] + [h, g, g, g, g] == [e, h, h, g, g, g, g];
  }

  lemma LastUndone(s: State, s2: State, p: nat, n0: nat, n1: nat, pipe: nat)
    requires p in s.procs && s.cur == p && n0 != n1
    requires Slot(p, n0) !in s.fd && Slot(p, n1) !in s.fd && Slot(p, n0) !in s.data
    requires s2 == Left(s, p, s.fd[Slot(p, n0) := End(pipe, false)][Slot(p, n1) := End(pipe, true)], s.data,
                        Making(n0, n1, pipe, MapData0))
    ensures var h, g := Go(p, true), Go(p, false);
            ValidRun(s2, [h, g, g, g, g]) && Run(s2, [h, g, g, g, g]) == Left(s, p, s.fd, s.data, Idle)
  {
    var h, g, x0 := Go(p, true), Go(p, false), Slot(p, n0);
    var s3 := Left(s, p, s2.fd, s.data[x0 := pipe], Making(n0, n1, pipe, MapData1));
    var s4 := Left(s, p, s2.fd, s3.data, Making(n0, n1, pipe, UndoData0));
    var s5 := Left(s, p, s2.fd, s.data, Making(n0, n1, pipe, UndoFd1));
    assert s.data[x0 := pipe] - {x0} == s.data;
    LeftTwice(s, p, s2, s3.fd, s3.data, Making(n0, n1, pipe, MapData1));
    LeftTwice(s, p, s3, s4.fd, s4.data, Making(n0, n1, pipe, UndoData0));
    LeftTwice(s, p, s4, s5.fd, s5.data, Making(n0, n1, pipe, UndoFd1));
    assert OneStep(s2, h, s3);
    assert OneStep(s3, g, s4);
    assert OneStep(s4, g, s5);
    Run3(s2, h, s3, g, s4, g, s5);
    TakenBack(s, p, n0, n1, pipe);
    Concat(s2, [h, g, g], [g, g]);
    assert [h, g, g] + [g, g] == [h, g, g, g, g];
  }

  lemma NoStray(s: State, p: nat, num: nat)
    requires Inv(s) && Calls(s, p) && Slot(p, num) !in s.fd
    ensures Slot(p, num) !in s.data
  {
  }

  /** `pipe` when any one of its calls fails: every slot is as it was. */
  lemma PipeFails(s: State, p: nat, n0: nat, n1: nat, pipe: nat, done: nat) returns (es: seq<Event>)
    requires Inv(s) && Enabled(s, Pipe(p, n0, n1, pipe)) && done < 3
    ensures |es| > done + 1 && es[0] == Pipe(p, n0, n1, pipe)
    ensures forall k | 1 <= k < |es| :: es[k] == Go(p, k <= done)
    ensures ValidRun(s, es) && Run(s, es) == Left(s, p, s.fd, s.data, Idle)
  {
    var e, h, g := Pipe(p, n0, n1, pipe), Go(p, true), Go(p, false);
    NoStray(s, p, n0);
    if done == 0 {
      PipeFailsFirst(s, p, n0, n1, pipe);
      es := [e, g, g];
    } else if done == 1 {
      PipeFailsSecond(s, p, n0, n1, pipe);
      es := [e, h, g, g, g];
    } else {
      PipeFailsLast(s, p, n0, n1, pipe);
      es := [e, h, h, g, g, g, g];
    }
  }

  // ----- close as the other end sees it -----

  /** A closed slot is in neither count. */
  lemma CloseCounts(s: State, t: State, x: Slot)
    requires NoMix(s) && x in s.fd && t.fd == s.fd - {x} && t.data == s.data - {x}
    requires Unbacked(s, s.fd[x].pipe) == {} && Bare(s, s.fd[x].pipe) == {}
    ensures NoMix(t) && Unbacked(t, s.fd[x].pipe) == {} && Bare(t, s.fd[x].pipe) == {}
    ensures FdSlots(t, s.fd[x]) == FdSlots(s, s.fd[x]) - {x}
  {
    assert forall y | y in Unbacked(t, s.fd[x].pipe) :: y in Unbacked(s, s.fd[x].pipe);
    assert forall y | y in Bare(t, s.fd[x].pipe) :: y in Bare(s, s.fd[x].pipe);
  }

  lemma InvNoMix(s: State)
    requires Inv(s)
    ensures NoMix(s)
  {
  }

  /** A process closes an end of a pipe that is in order, and then another one, at the other end, asks: it is
      told "closed" if and only if that was the last descriptor of the end. */
  lemma CloseThenAsk(s: State, p: nat, num: nat, q: nat, m: nat) returns (es: seq<Event>)
    requires Inv(s) && Calls(s, p) && Slot(p, num) in s.fd && q in s.procs && q != p && s.procs[q].pc.Idle?
    requires Slot(q, m) in s.fd && s.fd[Slot(q, m)] == Other(s.fd[Slot(p, num)])
    requires Unbacked(s, s.fd[Slot(p, num)].pipe) == {} && Bare(s, s.fd[Slot(p, num)].pipe) == {}
    ensures ValidRun(s, es) && Enabled(Run(s, es), Go(q, true))
    ensures Answers(Run(s, es), Go(q, true), q, m, FdSlots(s, s.fd[Slot(p, num)]) == {Slot(p, num)})
  {
    var x, y, ok := Slot(p, num), Slot(q, m), true;
    var es1 := [Close(p, num), Go(p, ok), Go(p, ok), Go(p, ok)];
    CloseCall(s, p, num, ok);
    var t := Run(s, es1);
    InvNoMix(s);
    CloseCounts(s, t, x);
    var es2 := AskRun(t, q, m);
    Concat(s, es1, es2);
    es := es1 + es2;
    ToldClosed(t, y);
    assert x in FdSlots(s, s.fd[x]);
    assert FdSlots(t, s.fd[x]) == {} <==> FdSlots(s, s.fd[x]) == {x};
  }

  lemma ToldClosed(t: State, y: Slot)
    requires NoMix(t) && y in t.fd && Unbacked(t, t.fd[y].pipe) == {} && Bare(t, t.fd[y].pipe) == {}
    ensures PagerefFd(t, y) == PagerefData(t, y) <==> FdSlots(t, Other(t.fd[y])) == {}
  {
    EqualCountsIff(t, t.fd[y]);
    assert y !in Unbacked(t, t.fd[y].pipe);
    assert y in t.data && t.data[y] == t.fd[y].pipe;
  }

  // ----- what a destroyed process leaves behind -----

  /** A descriptor in an environment that is gone, not one that a fork is filling. */
  predicate Orphan(s: State, x: Slot) {
    x in s.fd && x.proc !in s.procs && forall q | q in s.procs :: ChildOf(s.procs[q].pc) != Some(x.proc)
  }

  /** Destroying a process leaves its descriptors and data pages where they are. */
  lemma KillLeaves(s: State, p: nat, num: nat)
    requires Inv(s) && Enabled(s, Kill(p)) && Slot(p, num) in s.fd
    ensures var s' := Step(s, Kill(p));
            && s'.fd == s.fd && s'.data == s.data && s'.procs == s.procs - {p} && Orphan(s', Slot(p, num))
  {
  }

  lemma OrphanGo(s: State, p: nat, ok: bool, x: Slot)
    requires Orphan(s, x) && Busy(s, p)
    ensures Orphan(GoStep(s, p, ok), x) && GoStep(s, p, ok).fd[x] == s.fd[x]
  {
    var s' := GoStep(s, p, ok);
    GoLocal(s, p, ok, x.proc);
    GoProcs(s, p, ok);
    forall q | q in s'.procs ensures ChildOf(s'.procs[q].pc) != Some(x.proc) {
      if q == p { GoChild(s, p, ok); }
    }
  }

  /** A fork goes on filling the same child, and nothing else becomes a fork. */
  lemma GoChild(s: State, p: nat, ok: bool)
    requires Busy(s, p)
    ensures p in GoStep(s, p, ok).procs
    ensures var pc' := GoStep(s, p, ok).procs[p].pc; ChildOf(pc').Some? ==> ChildOf(pc') == ChildOf(s.procs[p].pc)
  {
    if Changing(s.procs[p].pc) { CloseChild(s, p, ok); }
  }

  lemma CloseChild(s: State, p: nat, ok: bool)
    requires Busy(s, p) && Changing(s.procs[p].pc)
    ensures p in CloseStep(s, p, ok).procs && ChildOf(CloseStep(s, p, ok).procs[p].pc).None?
  {
  }

  lemma OrphanStays(s: State, e: Event, x: Slot)
    requires Orphan(s, x) && Enabled(s, e)
    ensures Orphan(Step(s, e), x) && Step(s, e).fd[x] == s.fd[x]
  {
    if e.Go? { OrphanGo(s, e.p, e.ok, x); }
  }

  /** Over every run: an end of a pipe that a destroyed process had open is never closed again. */
  lemma {:induction false} OrphanForEver(s: State, es: seq<Event>, x: Slot)
    requires Orphan(s, x) && ValidRun(s, es)
    ensures Orphan(Run(s, es), x) && Run(s, es).fd[x] == s.fd[x] && Open(Run(s, es), s.fd[x])
    decreases |es|
  {
    if es != [] {
      OrphanStays(s, es[0], x);
      OrphanForEver(Step(s, es[0]), es[1..], x);
    }
  }
}
