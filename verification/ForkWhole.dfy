/** What `fork` (user/lib/fork.c) and a store to any page have done when they are over, for an environment that is
    not interrupted: whole runs of the machine of module CowFork, with their outcome in terms of entries,
    permissions and bytes. */
module ForkWhole {
  import opened Options
  import opened CowFork
  import opened ForkCode

  // ----- runs -----

  lemma First(c: Machine, e: Event, rest: seq<Event>)
    requires Enabled(c, e) && ValidRun(Step(c, e), rest)
    ensures ValidRun(c, [e] + rest) && Run(c, [e] + rest) == Run(Step(c, e), rest)
  {
    assert ([e] + rest)[1..] == rest;
  }

  // ----- fork -----

  /** The fork loop of `p` has come to page `n`; it began in `c0`. */
  ghost predicate InLoop(c0: Machine, c: Machine, p: nat, child: nat, n: nat) {
    Duplicated(c0, c, p, child, n) && Active(c0, p) && p != child && n <= LIMIT
  }

  lemma NextPage(c0: Machine, c: Machine, c1: Machine, p: nat, child: nat, n: nat)
    requires InLoop(c0, c, p, child, n) && n < LIMIT && OnePage(c, c1, p, child, n)
    ensures InLoop(c0, c1, p, child, n + 1)
  {
    DuplicatedNext(c0, c, c1, p, child, n);
  }

  /** The rest of the loop. */
  lemma {:induction false} LoopRun(c0: Machine, c: Machine, p: nat, child: nat, n: nat) returns (es: seq<Event>)
    requires InLoop(c0, c, p, child, n)
    ensures ValidRun(c, es) && InLoop(c0, Run(c, es), p, child, LIMIT)
    decreases LIMIT - n
  {
    if n == LIMIT {
      es := [];
    } else if Slot(p, n) !in c.pt {
      var e := DupSkip(p);
      SkipPage(c, p, child, n);
      NextPage(c0, c, Step(c, e), p, child, n);
      var rest := LoopRun(c0, Step(c, e), p, child, n + 1);
      First(c, e, rest);
      es := [e] + rest;
    } else if MapsAsIs(c.pt[Slot(p, n)].perm) {
      var e := DupWhole(p, child, n);
      WholePage(c, p, child, n);
      NextPage(c0, c, Step(c, e), p, child, n);
      var rest := LoopRun(c0, Step(c, e), p, child, n + 1);
      First(c, e, rest);
      es := [e] + rest;
    } else {
      var e, e' := DupHalf(p, child, n), DupRemap(p, child, n);
      LazyPage(c, p, child, n);
      var c1 := Step(c, e);
      NextPage(c0, c, Step(c1, e'), p, child, n);
      var rest := LoopRun(c0, Step(c1, e'), p, child, n + 1);
      First(c1, e', rest);
      First(c, e, [e'] + rest);
      es := [e] + ([e'] + rest);
    }
  }

  /** What the permission of a page is after a fork, on both sides: a writable private page has lost PTE_W and has
      PTE_COW, any other page is as it was. */
  function Lent(perm: set<Flag>): set<Flag> {
    if W in perm && Lib !in perm && Cow !in perm then perm - {W} + {Cow} else perm
  }

  /** The address spaces after a fork: the child has every page of the parent's below the stack top, and besides
      them at most the stack page it was born with; nobody else's entries have changed. */
  ghost predicate SpacesForked(c: Machine, c': Machine, p: nat, child: nat, page: nat) {
    && (forall v: nat | v < LIMIT && Slot(p, v) in c.pt ::
          var t := Pte(c.pt[Slot(p, v)].ppn, Lent(c.pt[Slot(p, v)].perm));
          Entry(c', Slot(p, v)) == Entry(c', Slot(child, v)) == Some(t))
    && (forall v: nat | v < LIMIT && Slot(p, v) !in c.pt ::
          && Slot(p, v) !in c'.pt
          && Entry(c', Slot(child, v)) == if v == STACK then Some(Pte(page, {R, W, U})) else None)
    && (forall v: nat | v >= LIMIT :: Entry(c', Slot(p, v)) == Entry(c, Slot(p, v)) && Slot(child, v) !in c'.pt)
    && (forall s: Slot | s.proc != p && s.proc != child :: Entry(c', s) == Entry(c, s))
  }

  lemma ExoforkEntries(c: Machine, p: nat, child: nat, page: nat)
    requires Enabled(c, Exofork(p, child, page))
    ensures var c1 := Step(c, Exofork(p, child, page));
            && p != child && Active(c1, p) && c1.envs[p].dup == Some(Dup(child, 0, false))
            && (forall s :: Entry(c1, s) == if s == Slot(child, STACK) then Some(Pte(page, {R, W, U})) else Entry(c, s))
            && (forall v: nat | v != STACK :: Slot(child, v) !in c1.pt)
            && c1.phys == c.phys[page := Zero()] && child in c1.envs && c1.envs[child] == Env(false, p, None, None)
            && InLoop(c1, c1, p, child, 0)
  {
    var c1 := Step(c, Exofork(p, child, page));
    assert c1.envs[p := c1.envs[p].(dup := Some(Dup(child, 0, false)))] == c1.envs;
    forall s ensures Entry(c1, s) == After(c1, p, child, 0, s) {
    }
  }

  lemma LentIsGiven(t: Pte)
    ensures Given(t) == Pte(t.ppn, Lent(t.perm))
  {
  }

  lemma SpacesAfterLoop(c: Machine, c1: Machine, c2: Machine, p: nat, child: nat, page: nat)
    requires p != child && (forall s | s in c.pt :: s.proc != child)
    requires forall s :: Entry(c1, s) == if s == Slot(child, STACK) then Some(Pte(page, {R, W, U})) else Entry(c, s)
    requires Duplicated(c1, c2, p, child, LIMIT)
    ensures SpacesForked(c, c2, p, child, page)
  {
    forall s ensures Entry(c2, s) == After(c1, p, child, LIMIT, s) {
    }
    forall v: nat | v < LIMIT && Slot(p, v) in c.pt
      ensures var t := Pte(c.pt[Slot(p, v)].ppn, Lent(c.pt[Slot(p, v)].perm));
              Entry(c2, Slot(p, v)) == Entry(c2, Slot(child, v)) == Some(t)
    {
      assert Entry(c1, Slot(p, v)) == Entry(c, Slot(p, v));
      LentIsGiven(c.pt[Slot(p, v)]);
    }
    forall v: nat | v < LIMIT && Slot(p, v) !in c.pt
      ensures Slot(p, v) !in c2.pt
      ensures Entry(c2, Slot(child, v)) == if v == STACK then Some(Pte(page, {R, W, U})) else None
    {
      assert Entry(c1, Slot(p, v)) == Entry(c, Slot(p, v));
      assert Entry(c1, Slot(child, v)) == if v == STACK then Some(Pte(page, {R, W, U})) else None;
      assert Entry(c2, Slot(p, v)) == After(c1, p, child, LIMIT, Slot(p, v));
      assert Entry(c2, Slot(child, v)) == After(c1, p, child, LIMIT, Slot(child, v));
    }
    forall v: nat | v >= LIMIT
      ensures Entry(c2, Slot(p, v)) == Entry(c, Slot(p, v)) && Slot(child, v) !in c2.pt
    {
      assert Entry(c2, Slot(p, v)) == After(c1, p, child, LIMIT, Slot(p, v));
      assert Entry(c2, Slot(child, v)) == After(c1, p, child, LIMIT, Slot(child, v));
      assert Entry(c1, Slot(child, v)) == Entry(c, Slot(child, v));
    }
    forall s: Slot | s.proc != p && s.proc != child ensures Entry(c2, s) == Entry(c, s) {
      assert Entry(c2, s) == After(c1, p, child, LIMIT, s);
    }
  }

  lemma Done(c: Machine, c1: Machine, c2: Machine, p: nat, child: nat)
    requires Idle(c, p) && p != child && child !in c.envs && InLoop(c1, c2, p, child, LIMIT)
    requires c1.envs == c.envs[p := c.envs[p].(dup := Some(Dup(child, 0, false)))][child := Env(false, p, None, None)]
    ensures Enabled(c2, ForkDone(p))
    ensures var c3 := Step(c2, ForkDone(p));
            c3.pt == c2.pt && c3.phys == c2.phys && c3.envs == c.envs[child := Env(true, p, None, None)]
  {
    var c3 := Step(c2, ForkDone(p));
    assert c.envs[p].(dup := None) == c.envs[p];
    assert c3.envs == c.envs[child := Env(true, p, None, None)];
  }

  /** What a whole fork has done: parent and child are both running and idle, every other environment is as it
      was, and no byte of memory has changed but for the child's new stack page. */
  ghost predicate Forked(c: Machine, c': Machine, p: nat, child: nat, page: nat) {
    && Idle(c', p) && Idle(c', child) && c'.envs == c.envs[child := Env(true, p, None, None)]
    && SpacesForked(c, c', p, child, page) && c'.phys == c.phys[page := Zero()]
  }

  /** The whole of `fork`, from any idle environment. */
  lemma WholeFork(c: Machine, p: nat, child: nat, page: nat) returns (es: seq<Event>)
    requires Idle(c, p) && child !in c.envs && Unused(c, child) && Fresh(c, page)
    ensures |es| >= 2 && es[0] == Exofork(p, child, page) && es[|es| - 1] == ForkDone(p) && ValidRun(c, es)
    ensures Forked(c, Run(c, es), p, child, page)
  {
    var e, f := Exofork(p, child, page), ForkDone(p);
    ExoforkEntries(c, p, child, page);
    var c1 := Step(c, e);
    var loop := LoopRun(c1, c1, p, child, 0);
    var c2 := Run(c1, loop);
    SpacesAfterLoop(c, c1, c2, p, child, page);
    Done(c, c1, c2, p, child);
    Append(c1, loop, f);
    First(c, e, loop + [f]);
    es := [e] + (loop + [f]);
  }

  /** What a program reads at an address of its own, if it may. */
  ghost predicate Reads(c: Machine, p: nat, vpn: nat, off: nat, v: int) {
    && Enabled(c, Load(p, vpn, off)) && c.pt[Slot(p, vpn)].ppn in c.phys
    && c.phys[c.pt[Slot(p, vpn)].ppn][off] == v
  }

  /** So both sides read after the fork, at every address, exactly what the parent could read before it, and in
      every other environment nothing has changed. */
  lemma ForkReads(c: Machine, c': Machine, p: nat, child: nat, page: nat, q: nat, vpn: nat, off: nat, v: int)
    requires Idle(c, p) && child !in c.envs && Unused(c, child) && Fresh(c, page)
    requires Forked(c, c', p, child, page)
    ensures vpn < LIMIT && Slot(p, vpn) in c.pt && c.pt[Slot(p, vpn)].ppn in c.phys ==>
              (Reads(c', child, vpn, off, v) <==> Reads(c, p, vpn, off, v))
    ensures q != child && (Slot(q, vpn) in c.pt ==> c.pt[Slot(q, vpn)].ppn in c.phys) ==>
              (Reads(c', q, vpn, off, v) <==> Reads(c, q, vpn, off, v))
  {
    ReadsFollow(c, c', p, Slot(p, vpn), child);
    if q == p && vpn < LIMIT && Slot(p, vpn) in c.pt {
      ReadsFollow(c, c', p, Slot(p, vpn), p);
    } else if q != child {
      assert Entry(c', Slot(q, vpn)) == Entry(c, Slot(q, vpn));
    }
  }

  lemma ReadsFollow(c: Machine, c': Machine, p: nat, s: Slot, q: nat)
    requires Slot(p, s.vpn) == s
    ensures s in c.pt && Entry(c', Slot(q, s.vpn)) == Some(Pte(c.pt[s].ppn, Lent(c.pt[s].perm))) ==>
              forall f | f == R || f == X || f == U || f == Lib :: Has(c', Slot(q, s.vpn), f) <==> Has(c, s, f)
  {
  }

  // ----- a store to any page -----

  /** What a page holds before a store to it: zeros if nothing is mapped. */
  function Held(c: Machine, s: Slot): Page {
    if s in c.pt && c.pt[s].ppn in c.phys then c.phys[c.pt[s].ppn] else Zero()
  }

  /** The permission of a page after a store to it: PTE_W is set and PTE_COW is not, the rest is as it was. */
  function Kept(c: Machine, s: Slot): set<Flag> {
    if s in c.pt then c.pt[s].perm - {Cow} + {W} else {R, W, U}
  }

  /** The store is done: the page holds the new byte and otherwise what it held; it is writable; the environment
      goes on; no other entry has changed, but that the handler's scratch page is unmapped; and another entry
      shows the new byte if and only if it was on the same page and that was not copy-on-write. */
  ghost predicate Stored(c: Machine, c': Machine, s: Slot, off: nat, v: int)
    requires off < PGSIZE
  {
    && s in c'.pt && c'.pt[s].perm == Kept(c, s) && Held(c', s) == Held(c, s)[off := v] && c'.pt[s].ppn in c'.phys
    && c'.envs == c.envs
    && (forall x | x != s && x != Slot(s.proc, UCOW) ::
          Entry(c', x) == Entry(c, x) && (x in c.pt ==> Held(c', x) == Seen(c, s, off, v, x)))
  }

  /** What another entry shows after the store. */
  function Seen(c: Machine, s: Slot, off: nat, v: int, x: Slot): Page
    requires off < PGSIZE && x in c.pt
  {
    if s in c.pt && Cow !in c.pt[s].perm && c.pt[x].ppn == c.pt[s].ppn then Held(c, x)[off := v] else Held(c, x)
  }

  /** The page is ready for the store: writable, with the same bytes; it is another one if it was shared. */
  ghost predicate Ready(c: Machine, c1: Machine, s: Slot) {
    && s in c1.pt && c1.pt[s].ppn in c1.phys && c1.envs == c.envs && c1.pt[s].perm == Kept(c, s)
    && Held(c1, s) == Held(c, s)
    && (forall x | x != s && x != Slot(s.proc, UCOW) :: Entry(c1, x) == Entry(c, x))
    && (forall x | x in c.pt && x != s && x != Slot(s.proc, UCOW) ::
          && c.pt[x].ppn in c1.phys && c1.phys[c.pt[x].ppn] == Held(c, x)
          && (c.pt[x].ppn == c1.pt[s].ppn <==> s in c.pt && Cow !in c.pt[s].perm && c.pt[x].ppn == c.pt[s].ppn))
  }

  /** The last step: the page is writable by now. */
  lemma StoreNow(c: Machine, c1: Machine, s: Slot, off: nat, v: int)
    requires Active(c, s.proc) && s.vpn != UCOW && off < PGSIZE && Ready(c, c1, s)
    ensures var e := Store(s.proc, s.vpn, off, v);
            && Enabled(c1, e) && ValidRun(c1, [e]) && Stored(c, Run(c1, [e]), s, off, v)
  {
    var e := Store(s.proc, s.vpn, off, v);
    First(c1, e, []);
    assert [e] + [] == [e];
    assert s == Slot(s.proc, s.vpn);
    var c' := Step(c1, e);
    forall x | x != s && x != Slot(s.proc, UCOW)
      ensures Entry(c', x) == Entry(c, x) && (x in c.pt ==> Held(c', x) == Seen(c, s, off, v, x))
    {
      assert Entry(c1, x) == Entry(c, x);
    }
  }

  /** The handler's copy, from `k` bytes on. */
  lemma {:induction false} CopyRun(c0: Machine, c: Machine, s: Slot, page: nat, k: nat) returns (es: seq<Event>)
    requires CopyState(c0, c, s, page, k)
    ensures ValidRun(c, es) && CopyState(c0, Run(c, es), s, page, PGSIZE)
    decreases PGSIZE - k
  {
    if k == PGSIZE {
      es := [];
    } else {
      var e := FaultCopy(s.proc);
      CopyNext(c0, c, Step(c, e), s, page, k);
      var rest := CopyRun(c0, Step(c, e), s, page, k + 1);
      First(c, e, rest);
      es := [e] + rest;
    }
  }

  lemma HandlerEnds(c0: Machine, c: Machine, s: Slot, page: nat) returns (es: seq<Event>)
    requires CopyState(c0, c, s, page, PGSIZE)
    ensures es == [FaultMap(s.proc), FaultUnmap(s.proc)] && ValidRun(c, es) && OwnCopy(c0, Run(c, es), s, page)
  {
    var p := s.proc;
    var c1 := Step(c, FaultMap(p));
    var c2 := Step(c1, FaultUnmap(p));
    First(c1, FaultUnmap(p), []);
    First(c, FaultMap(p), [FaultUnmap(p)] + []);
    es := [FaultMap(p), FaultUnmap(p)];
    assert [FaultMap(p)] + ([FaultUnmap(p)] + []) == es;
    assert c2.phys[page] == c0.phys[c0.pt[s].ppn];
    assert c2.phys == c0.phys[page := c0.phys[c0.pt[s].ppn]];
    assert c2.envs == c0.envs[p := c0.envs[p].(fault := None)];
    assert c2.pt == c0.pt[s := Pte(page, Owned(c0.pt[s].perm))] - {Slot(p, UCOW)};
  }

  lemma {:induction false} Concat(c: Machine, es: seq<Event>, fs: seq<Event>)
    requires ValidRun(c, es) && ValidRun(Run(c, es), fs)
    ensures ValidRun(c, es + fs) && Run(c, es + fs) == Run(Run(c, es), fs)
    decreases |es|
  {
    if es == [] {
      assert es + fs == fs;
    } else {
      Concat(Step(c, es[0]), es[1..], fs);
      assert (es + fs)[1..] == es[1..] + fs;
    }
  }

  /** The copy-on-write handler from the fault to its return. */
  lemma HandlerRun(c: Machine, s: Slot, page: nat) returns (es: seq<Event>)
    requires Enabled(c, FaultEnter(s.proc, s.vpn)) && c.pt[s].ppn in c.phys && Fresh(c, page)
    ensures ValidRun(c, es) && OwnCopy(c, Run(c, es), s, page)
  {
    var p := s.proc;
    var c1 := Step(c, FaultEnter(p, s.vpn));
    var c2 := Step(c1, FaultAlloc(p, page));
    assert s == Slot(p, s.vpn);
    assert c2.envs == c1.envs[p := c1.envs[p].(fault := Some(Copying(s.vpn, 0)))];
    assert CopyState(c1, c2, s, page, 0);
    var es1 := CopyRun(c1, c2, s, page, 0);
    var es2 := HandlerEnds(c1, Run(c2, es1), s, page);
    Concat(c2, es1, es2);
    First(c1, FaultAlloc(p, page), es1 + es2);
    First(c, FaultEnter(p, s.vpn), [FaultAlloc(p, page)] + (es1 + es2));
    es := [FaultEnter(p, s.vpn)] + ([FaultAlloc(p, page)] + (es1 + es2));
    var c' := Run(c, es);
    assert c'.envs == c.envs[p := c.envs[p].(fault := None)];
  }

  lemma OwnIsReady(c: Machine, c': Machine, s: Slot, page: nat)
    requires OwnCopy(c, c', s, page) && Active(c, s.proc) && s.vpn != UCOW && Cow in c.pt[s].perm
    requires EntriesOk(c) && Fresh(c, page)
    ensures Ready(c, c', s)
  {
    assert c.envs[s.proc].(fault := None) == c.envs[s.proc];
    assert c.envs[s.proc := c.envs[s.proc]] == c.envs;
  }

  /** A store goes through, to whatever page a program names, by a run of its own: at once to a writable page;
      after it was made writable, to a library or read-only one; after a page of zeros was mapped, where there
      was none; and after the copy-on-write handler, to a page that is shared. */
  lemma StoreLands(c: Machine, s: Slot, off: nat, v: int, page: nat) returns (es: seq<Event>)
    requires EntriesOk(c) && Active(c, s.proc) && s.vpn != UCOW && off < PGSIZE && Fresh(c, page)
    ensures ValidRun(c, es) && Stored(c, Run(c, es), s, off, v)
  {
    var p, vpn, e := s.proc, s.vpn, Store(s.proc, s.vpn, off, v);
    assert s == Slot(p, vpn);
    if s !in c.pt {
      var z := ZeroFill(p, vpn, page);
      StoreNow(c, Step(c, z), s, off, v);
      First(c, z, [e]);
      es := [z] + [e];
    } else if W in c.pt[s].perm {
      StoreNow(c, c, s, off, v);
      es := [e];
    } else if Cow in c.pt[s].perm {
      var es1 := HandlerRun(c, s, page);
      OwnIsReady(c, Run(c, es1), s, page);
      StoreNow(c, Run(c, es1), s, off, v);
      Concat(c, es1, [e]);
      es := es1 + [e];
    } else {
      var g := GrantWrite(p, vpn);
      StoreNow(c, Step(c, g), s, off, v);
      First(c, g, [e]);
      es := [g] + [e];
    }
  }

  // ----- fork and store together -----

  lemma ForkedEntriesOk(c: Machine, c': Machine, p: nat, child: nat, page: nat)
    requires EntriesOk(c) && Forked(c, c', p, child, page) && Fresh(c, page) && Unused(c, child)
    ensures EntriesOk(c')
  {
    forall s | s in c'.pt
      ensures c'.pt[s].ppn in c'.phys && !(Cow in c'.pt[s].perm && W in c'.pt[s].perm)
      ensures !(Cow in c'.pt[s].perm && Lib in c'.pt[s].perm)
    {
      if s.proc == p || s.proc == child {
        var o := Slot(p, s.vpn);
        assert s == Slot(s.proc, s.vpn);
        if s.vpn < LIMIT && o in c.pt {
          assert Entry(c', s) == Some(Pte(c.pt[o].ppn, Lent(c.pt[o].perm)));
        } else if s.proc == p {
          assert Entry(c', s) == Entry(c, s);
        }
      } else {
        assert Entry(c', s) == Entry(c, s);
      }
    }
  }

  /** One side of a fork stores to a page that the parent had, private and writable or copy-on-write, or as a
      library page: it reads the new byte there, and the other side reads it if and only if the page is a library
      page; otherwise the old one. */
  lemma ForkThenStore(c: Machine, p: nat, child: nat, page: nat, vpn: nat, off: nat, v: int, byChild: bool, page': nat)
    returns (es: seq<Event>)
    requires EntriesOk(c) && Idle(c, p) && child !in c.envs && Unused(c, child) && Fresh(c, page)
    requires vpn < LIMIT && vpn != UCOW && off < PGSIZE && Slot(p, vpn) in c.pt
    requires W in c.pt[Slot(p, vpn)].perm || Cow in c.pt[Slot(p, vpn)].perm || Lib in c.pt[Slot(p, vpn)].perm
    requires page' != page && Fresh(c, page')
    ensures ValidRun(c, es)
    ensures var c', s := Run(c, es), Slot(p, vpn);
            var (mine, other) := if byChild then (child, p) else (p, child);
            && Slot(mine, vpn) in c'.pt && Held(c', Slot(mine, vpn)) == Held(c, s)[off := v]
            && Slot(other, vpn) in c'.pt
            && Held(c', Slot(other, vpn)) == (if Lib in c.pt[s].perm then Held(c, s)[off := v] else Held(c, s))
            && (forall f | f == R || f == X || f == U ::
                  (Has(c', Slot(mine, vpn), f) <==> Has(c, s, f)) && (Has(c', Slot(other, vpn), f) <==> Has(c, s, f)))
  {
    var es1 := WholeFork(c, p, child, page);
    var c1, s := Run(c, es1), Slot(p, vpn);
    ForkedEntriesOk(c, c1, p, child, page);
    FreshAfter(c, c1, p, child, page, page');
    var m, o := Slot(if byChild then child else p, vpn), Slot(if byChild then p else child, vpn);
    assert Entry(c1, m) == Entry(c1, o) == Some(Pte(c.pt[s].ppn, Lent(c.pt[s].perm)));
    var es2 := StoreLands(c1, m, off, v, page');
    Concat(c, es1, es2);
    es := es1 + es2;
    SidesAfter(c, c1, Run(c1, es2), s, m, o, off, v);
  }

  lemma SidesAfter(c: Machine, c1: Machine, c': Machine, s: Slot, m: Slot, o: Slot, off: nat, v: int)
    requires EntriesOk(c) && s in c.pt && off < PGSIZE && m != o && o.vpn != UCOW && Stored(c1, c', m, off, v)
    requires W in c.pt[s].perm || Cow in c.pt[s].perm || Lib in c.pt[s].perm
    requires Entry(c1, m) == Entry(c1, o) == Some(Pte(c.pt[s].ppn, Lent(c.pt[s].perm)))
    requires c.pt[s].ppn in c.phys && c.pt[s].ppn in c1.phys && c1.phys[c.pt[s].ppn] == c.phys[c.pt[s].ppn]
    ensures m in c'.pt && Held(c', m) == Held(c, s)[off := v] && o in c'.pt
    ensures Held(c', o) == if Lib in c.pt[s].perm then Held(c, s)[off := v] else Held(c, s)
    ensures forall f | f == R || f == X || f == U ::
              (Has(c', m, f) <==> Has(c, s, f)) && (Has(c', o, f) <==> Has(c, s, f))
  {
    assert Entry(c', o) == Entry(c1, o);
    assert Held(c1, m) == Held(c1, o) == Held(c, s);
  }

  lemma FreshAfter(c: Machine, c': Machine, p: nat, child: nat, page: nat, page': nat)
    requires Forked(c, c', p, child, page) && Unused(c, child) && page' != page && Fresh(c, page')
    ensures Fresh(c', page')
  {
    forall s | s in c'.pt ensures c'.pt[s].ppn != page' {
      assert s == Slot(s.proc, s.vpn);
      var o := Slot(p, s.vpn);
      if (s.proc == p || s.proc == child) && s.vpn < LIMIT && o in c.pt {
        assert Entry(c', s) == Some(Pte(c.pt[o].ppn, Lent(c.pt[o].perm)));
      } else if s.proc != child {
        assert Entry(c', s) == Entry(c, s);
      }
    }
  }
}
