/** The loops of user/lib/fork.c as they run: `fork` over the page numbers and `cow_entry` with its
    copy. Each step is one event of the machine in module CowFork, so what these methods do is a
    run of that machine, and the simulation proved there covers it. */
module ForkCode {
  import opened CowFork
  import opened Options

  lemma {:induction false} Append(c: Machine, es: seq<Event>, e: Event)
    requires ValidRun(c, es) && Enabled(Run(c, es), e)
    ensures ValidRun(c, es + [e]) && Run(c, es + [e]) == Step(Run(c, es), e)
    decreases |es|
  {
    if es == [] {
      assert [e][1..] == [];
    } else {
      Append(Step(c, es[0]), es[1..], e);
      assert (es + [e])[1..] == es[1..] + [e];
    }
  }

  // ----- fork -----

  /** What `duppage` gives both sides of a page. */
  function Given(t: Pte): Pte { if MapsAsIs(t.perm) then t else Pte(t.ppn, Lazy(t.perm)) }

  /** What the entry at `s` has to be once the loop of `p` for `child` has passed page `n`. */
  function After(c: Machine, p: nat, child: nat, n: nat, s: Slot): Option<Pte> {
    if s.vpn < n && (s.proc == child || s.proc == p) && Slot(p, s.vpn) in c.pt then Some(Given(c.pt[Slot(p, s.vpn)]))
    else if s in c.pt then Some(c.pt[s]) else None
  }

  function Entry(c: Machine, s: Slot): Option<Pte> { if s in c.pt then Some(c.pt[s]) else None }

  ghost predicate Duplicated(c: Machine, c': Machine, p: nat, child: nat, n: nat) {
    && c'.phys == c.phys
    && (forall s :: Entry(c', s) == After(c, p, child, n, s))
    && p in c.envs && c'.envs == c.envs[p := c.envs[p].(dup := Some(Dup(child, n, false)))]
  }

  /** The effect of the loop body on page `n`. */
  ghost predicate OnePage(c1: Machine, c2: Machine, p: nat, child: nat, n: nat) {
    && p in c1.envs && c2.phys == c1.phys
    && c2.envs == c1.envs[p := c1.envs[p].(dup := Some(Dup(child, n + 1, false)))]
    && (forall s | s != Slot(p, n) && s != Slot(child, n) :: Entry(c2, s) == Entry(c1, s))
    && (Slot(p, n) !in c1.pt ==>
          Entry(c2, Slot(p, n)) == None && Entry(c2, Slot(child, n)) == Entry(c1, Slot(child, n)))
    && (Slot(p, n) in c1.pt ==>
          Entry(c2, Slot(p, n)) == Entry(c2, Slot(child, n)) == Some(Given(c1.pt[Slot(p, n)])))
  }

  lemma SkipPage(c: Machine, p: nat, child: nat, n: nat)
    requires AtPage(c, p, child, n, false) && p != child && Slot(p, n) !in c.pt
    ensures Enabled(c, DupSkip(p)) && OnePage(c, Step(c, DupSkip(p)), p, child, n)
  {
  }

  lemma WholePage(c: Machine, p: nat, child: nat, n: nat)
    requires AtPage(c, p, child, n, false) && p != child && Slot(p, n) in c.pt && MapsAsIs(c.pt[Slot(p, n)].perm)
    ensures var e := DupWhole(p, child, n); Enabled(c, e) && OnePage(c, Step(c, e), p, child, n)
  {
  }

  lemma LazyPage(c: Machine, p: nat, child: nat, n: nat)
    requires AtPage(c, p, child, n, false) && p != child && Slot(p, n) in c.pt && !MapsAsIs(c.pt[Slot(p, n)].perm)
    ensures var e, e' := DupHalf(p, child, n), DupRemap(p, child, n);
            && Enabled(c, e) && Enabled(Step(c, e), e')
            && OnePage(c, Step(Step(c, e), e'), p, child, n)
  {
  }

  lemma DuplicatedNext(c: Machine, c1: Machine, c2: Machine, p: nat, child: nat, n: nat)
    requires Duplicated(c, c1, p, child, n) && p != child && OnePage(c1, c2, p, child, n)
    ensures Duplicated(c, c2, p, child, n + 1)
  {
    assert Entry(c1, Slot(p, n)) == After(c, p, child, n, Slot(p, n)) == Entry(c, Slot(p, n));
    assert Entry(c1, Slot(child, n)) == After(c, p, child, n, Slot(child, n));
    forall s ensures Entry(c2, s) == After(c, p, child, n + 1, s) {
      assert Entry(c1, s) == After(c, p, child, n, s);
    }
  }

  // ----- cow_entry -----

  /** Environment `p` has its own copy of the page at `s`: the entry leads to `page`, with the same
      bytes, writable and no longer copy-on-write; nothing else has changed. */
  ghost predicate OwnCopy(c: Machine, c': Machine, s: Slot, page: nat) {
    && s in c.pt && c.pt[s].ppn in c.phys
    && c'.pt == c.pt[s := Pte(page, Owned(c.pt[s].perm))] - {Slot(s.proc, UCOW)}
    && c'.phys == c.phys[page := c.phys[c.pt[s].ppn]]
    && s.proc in c.envs && c'.envs == c.envs[s.proc := c.envs[s.proc].(fault := None)]
  }

  /** The copy loop of the handler after `k` bytes. */
  ghost predicate CopyState(c: Machine, c': Machine, s: Slot, page: nat, k: nat) {
    && k <= PGSIZE && s in c.pt && s.vpn != UCOW && c.pt[s].ppn in c.phys && c.pt[s].ppn != page && s.proc in c.envs
    && c'.pt == c.pt[Slot(s.proc, UCOW) := Pte(page, Owned(c.pt[s].perm))]
    && c'.phys.Keys == c.phys.Keys + {page}
    && (forall n | n in c.phys && n != page :: c'.phys[n] == c.phys[n])
    && (forall i | 0 <= i < k :: c'.phys[page][i] == c.phys[c.pt[s].ppn][i])
    && c'.envs == c.envs[s.proc := c.envs[s.proc].(fault := Some(Copying(s.vpn, k)))]
  }

  class Memory {
    var c: Machine

    constructor (m: Machine)
      ensures c == m
    {
      c := m;
    }

    method Do(e: Event)
      requires Enabled(c, e)
      modifies this
      ensures c == Step(old(c), e)
    {
      c := Step(c, e);
    }

    /** `duppage`, or nothing for a page that is not mapped. */
    method Duppage(p: nat, child: nat, vpn: nat, ghost c0: Machine, ghost es: seq<Event>)
      returns (ghost es': seq<Event>)
      requires AtPage(c, p, child, vpn, false) && p != child && ValidRun(c0, es) && c == Run(c0, es)
      modifies this
      ensures OnePage(old(c), c, p, child, vpn)
      ensures ValidRun(c0, es') && c == Run(c0, es')
    {
      if Slot(p, vpn) in c.pt {
        if MapsAsIs(c.pt[Slot(p, vpn)].perm) {
          WholePage(c, p, child, vpn);
          Append(c0, es, DupWhole(p, child, vpn));
          Do(DupWhole(p, child, vpn));
          es' := es + [DupWhole(p, child, vpn)];
        } else {
          LazyPage(c, p, child, vpn);
          Append(c0, es, DupHalf(p, child, vpn));
          Do(DupHalf(p, child, vpn));
          es' := es + [DupHalf(p, child, vpn)];
          Append(c0, es', DupRemap(p, child, vpn));
          Do(DupRemap(p, child, vpn));
          es' := es' + [DupRemap(p, child, vpn)];
        }
      } else {
        SkipPage(c, p, child, vpn);
        Append(c0, es, DupSkip(p));
        Do(DupSkip(p));
        es' := es + [DupSkip(p)];
      }
    }

    /** The loop of `fork`: every page below the stack top is given to the child, private writable
        ones copy-on-write on both sides; no byte of memory is copied. */
    method ForkLoop(p: nat, child: nat) returns (ghost es: seq<Event>)
      requires AtPage(c, p, child, 0, false) && p != child
      modifies this
      ensures Duplicated(old(c), c, p, child, LIMIT)
      ensures ValidRun(old(c), es) && c == Run(old(c), es)
    {
      var i := 0;
      es := [];
      while i < LIMIT
        invariant 0 <= i <= LIMIT && Active(c, p) && Duplicated(old(c), c, p, child, i)
        invariant ValidRun(old(c), es) && c == Run(old(c), es)
      {
        ghost var c1 := c;
        es := Duppage(p, child, i, old(c), es);
        DuplicatedNext(old(c), c1, c, p, child, i);
        i := i + 1;
      }
    }

    /** `cow_entry` after a store fault on a copy-on-write page: the environment ends with its own
        writable copy, and no other mapping or page changes. */
    method CowEntry(p: nat, vpn: nat, page: nat) returns (ghost es: seq<Event>)
      requires p in c.envs && c.envs[p].fault == Some(Entered(vpn)) && vpn != UCOW
      requires Slot(p, vpn) in c.pt && c.pt[Slot(p, vpn)].ppn in c.phys && Fresh(c, page)
      modifies this
      ensures OwnCopy(old(c), c, Slot(p, vpn), page)
      ensures ValidRun(old(c), es) && c == Run(old(c), es)
    {
      ghost var c0 := c;
      var s := Slot(p, vpn);
      Append(c0, [], FaultAlloc(p, page));
      Do(FaultAlloc(p, page));
      es := [] + [FaultAlloc(p, page)];
      var k := 0;
      while k < PGSIZE
        invariant 0 <= k <= PGSIZE && CopyState(c0, c, s, page, k)
        invariant ValidRun(c0, es) && c == Run(c0, es)
      {
        Append(c0, es, FaultCopy(p));
        ghost var c1 := c;
        Do(FaultCopy(p));
        es := es + [FaultCopy(p)];
        CopyNext(c0, c1, c, s, page, k);
        k := k + 1;
      }
      es := Finish(p, vpn, page, c0, es);
    }

    /** Mapping the copy in place of the shared page and dropping the scratch mapping. */
    method Finish(p: nat, vpn: nat, page: nat, ghost c0: Machine, ghost es: seq<Event>) returns (ghost es': seq<Event>)
      requires CopyState(c0, c, Slot(p, vpn), page, PGSIZE) && ValidRun(c0, es) && c == Run(c0, es)
      modifies this
      ensures OwnCopy(c0, c, Slot(p, vpn), page)
      ensures ValidRun(c0, es') && c == Run(c0, es')
    {
      ghost var s := Slot(p, vpn);
      Append(c0, es, FaultMap(p));
      Do(FaultMap(p));
      es' := es + [FaultMap(p)];
      Append(c0, es', FaultUnmap(p));
      Do(FaultUnmap(p));
      es' := es' + [FaultUnmap(p)];
      assert c.phys[page] == c0.phys[c0.pt[s].ppn];
      assert c.phys == c0.phys[page := c0.phys[c0.pt[s].ppn]];
    }
  }

  lemma CopyNext(c0: Machine, c1: Machine, c2: Machine, s: Slot, page: nat, k: nat)
    requires CopyState(c0, c1, s, page, k) && k < PGSIZE && Enabled(c1, FaultCopy(s.proc))
             && c2 == Step(c1, FaultCopy(s.proc))
    ensures CopyState(c0, c2, s, page, k + 1)
  {
  }
}
