/** The loop of `fork` (user/lib/fork.c) with its two looks at a page apart: it reads `vpt[i]`, and later
    hands what it read to `duppage`, which goes by that and not by the entry as it is then. The stores that
    the loop itself makes to its stack come in between, and so do the faults they raise. Everything else is
    the machine of module CowFork. */
module ForkRead {
  import opened Options
  import opened CowFork

  /** `seen` is what the fork loop of an environment has read for the page it is at: nothing mapped there, or
      the permission. */
  datatype Reader = Reader(c: Machine, seen: map<nat, Option<set<Flag>>>)

  datatype Act =
    | Other(e: Event)
    | Look(p: nat)                       // reads vpt[i]
    | Use(p: nat)                        // goes on, or makes the first call of duppage
    | Remap(p: nat)                      // makes the second call

  /** What module CowFork does in one step with the read. */
  predicate LoopEvent(e: Event) { e.DupSkip? || e.DupWhole? || e.DupHalf? || e.DupRemap? }

  function PermAt(c: Machine, s: Slot): Option<set<Flag>> { if s in c.pt then Some(c.pt[s].perm) else None }

  predicate InLoop(c: Machine, p: nat, half: bool) {
    Active(c, p) && c.envs[p].dup.Some? && c.envs[p].dup.value.half == half && c.envs[p].dup.value.next < LIMIT
  }

  /** The page the loop of `p` is at, in the parent and in the child. */
  function Here(c: Machine, p: nat): Slot
    requires p in c.envs && c.envs[p].dup.Some?
  {
    Slot(p, c.envs[p].dup.value.next)
  }

  function There(c: Machine, p: nat): Slot
    requires p in c.envs && c.envs[p].dup.Some?
  {
    Slot(c.envs[p].dup.value.child, c.envs[p].dup.value.next)
  }

  predicate EnabledAct(m: Reader, x: Act) {
    match x
    case Other(e) => Enabled(m.c, e) && !LoopEvent(e)
    case Look(p) => InLoop(m.c, p, false) && p !in m.seen
    case Use(p) => InLoop(m.c, p, false) && p in m.seen && (m.seen[p].Some? ==> Here(m.c, p) in m.c.pt)
    case Remap(p) => InLoop(m.c, p, true) && p in m.seen && m.seen[p].Some? && Here(m.c, p) in m.c.pt
  }

  function Onward(c: Machine, p: nat): Machine
    requires p in c.envs && c.envs[p].dup.Some?
  {
    SetDup(c, p, Some(Dup(c.envs[p].dup.value.child, c.envs[p].dup.value.next + 1, false)))
  }

  /** `duppage` with the permission read: the page is the one mapped now. */
  function UseSeen(m: Reader, p: nat): Reader
    requires EnabledAct(m, Use(p))
  {
    var c := m.c;
    if m.seen[p].None? then Reader(Onward(c, p), m.seen - {p})
    else
      var perm, n := m.seen[p].value, c.pt[Here(c, p)].ppn;
      if MapsAsIs(perm) then Reader(Onward(SetPte(c, There(c, p), Pte(n, perm)), p), m.seen - {p})
      else
        Reader(SetDup(SetPte(c, There(c, p), Pte(n, Lazy(perm))), p, Some(c.envs[p].dup.value.(half := true))), m.seen)
  }

  function Do(m: Reader, x: Act): Reader
    requires EnabledAct(m, x)
  {
    match x
    case Other(e) => Reader(Step(m.c, e), m.seen)
    case Look(p) => Reader(m.c, m.seen[p := PermAt(m.c, Here(m.c, p))])
    case Use(p) => UseSeen(m, p)
    case Remap(p) =>
      var s := Here(m.c, p);
      Reader(Onward(SetPte(m.c, s, Pte(m.c.pt[s].ppn, Lazy(m.seen[p].value))), p), m.seen - {p})
  }

  /** The reference machine copies when the call is made, if the loop has decided to make it. */
  function EagerAct(m: Reader, a: Eager, x: Act): Eager
    requires EnabledAct(m, x)
  {
    match x
    case Other(e) => EagerStep(a, e)
    case Look(_) => a
    case Use(p) =>
      if m.seen[p].None? then a
      else if MapsAsIs(m.seen[p].value) then Inherit(a, Here(m.c, p), There(m.c, p)) else Drop(a, There(m.c, p))
    case Remap(p) => Inherit(a, Here(m.c, p), There(m.c, p))
  }

  // ----- what was read and what is there -----

  /** What holds of a permission once read: the entry has it still, or it was a library page's and has
      since become writable. What was read as unmapped may have been mapped since. */
  predicate Stands(perm: set<Flag>, now: set<Flag>) {
    && (W in perm || Cow in perm || Lib in perm)
    && (now == perm || (W !in perm && Cow !in perm && now == perm + {W}))
  }

  ghost predicate SeenOk(c: Machine, p: nat, r: Option<set<Flag>>) {
    && p in c.envs && c.envs[p].started && c.envs[p].dup.Some? && c.envs[p].dup.value.next < LIMIT
    && (r.Some? ==> Here(c, p).vpn != UCOW && Here(c, p) in c.pt && Stands(r.value, c.pt[Here(c, p)].perm))
    && (c.envs[p].dup.value.half ==> r.Some? && !MapsAsIs(r.value))
  }

  ghost predicate Reads(m: Reader) { forall p | p in m.seen :: SeenOk(m.c, p, m.seen[p]) }

  ghost predicate RInv(m: Reader, a: Eager) { Sim(m.c, a) && Reads(m) }

  /** The copy-on-write handler gives `p` its own page where the loop of `p` has read and not yet called. */
  predicate Upset(m: Reader, x: Act) {
    && x.Other? && x.e.FaultMap? && x.e.p in m.seen && m.seen[x.e.p].Some?
    && x.e.p in m.c.envs && m.c.envs[x.e.p].dup.Some? && m.c.envs[x.e.p].fault.Some?
    && m.c.envs[x.e.p].fault.value.vpn == Here(m.c, x.e.p).vpn
  }

  /** An event of another environment leaves the loop of `p` and its page alone. */
  lemma OthersLeave(c: Machine, e: Event, p: nat)
    requires EnvsOk(c) && Enabled(c, e) && !LoopEvent(e) && e.p != p && (e.MemShare? ==> e.q != p)
    requires p in c.envs && c.envs[p].started && c.envs[p].dup.Some?
    ensures var c' := Step(c, e);
            p in c'.envs && c'.envs[p] == c.envs[p] && forall s: Slot | s.proc == p :: SameEntry(c, c', s)
  {
    if e.ForkDone? {
      assert DupOk(c, e.p, c.envs[e.p].dup.value);
    } else if FaultEvent(e) {
      FaultsLeave(c, e, p);
    }
  }

  lemma FaultsLeave(c: Machine, e: Event, p: nat)
    requires Enabled(c, e) && FaultEvent(e) && e.p != p && p in c.envs
    ensures var c' := Step(c, e);
            p in c'.envs && c'.envs[p] == c.envs[p] && forall s: Slot | s.proc == p :: SameEntry(c, c', s)
  {
  }

  /** Events of `p` itself: only its faults concern the page that its loop is at. */
  lemma OwnLeaves(c: Machine, e: Event, p: nat)
    requires EnvsOk(c) && EntriesOk(c) && Enabled(c, e) && !LoopEvent(e) && e.p == p
    requires p in c.envs && c.envs[p].started && c.envs[p].dup.Some? && c.envs[p].dup.value.next < LIMIT
    requires Here(c, p).vpn != UCOW && Here(c, p) in c.pt
    requires !(e.FaultMap? && c.envs[p].fault.value.vpn == Here(c, p).vpn)
    ensures var c' := Step(c, e);
            && p in c'.envs && c'.envs[p].started && c'.envs[p].dup == c.envs[p].dup && Here(c, p) in c'.pt
            && (c'.pt[Here(c, p)] == c.pt[Here(c, p)]
                || (W !in c.pt[Here(c, p)].perm && Cow !in c.pt[Here(c, p)].perm
                    && c'.pt[Here(c, p)].perm == c.pt[Here(c, p)].perm + {W}))
  {
    if FaultEvent(e) { OwnFault(c, e, p); }
  }

  lemma OwnFault(c: Machine, e: Event, p: nat)
    requires EnvsOk(c) && Enabled(c, e) && FaultEvent(e) && e.p == p
    requires p in c.envs && c.envs[p].dup.Some? && Here(c, p).vpn != UCOW && Here(c, p) in c.pt
    requires !(e.FaultMap? && c.envs[p].fault.value.vpn == Here(c, p).vpn)
    ensures var c' := Step(c, e);
            && p in c'.envs && c'.envs[p].started == c.envs[p].started && c'.envs[p].dup == c.envs[p].dup
            && Here(c, p) in c'.pt && c'.pt[Here(c, p)] == c.pt[Here(c, p)]
  {
  }

  lemma OwnLoop(c: Machine, e: Event, p: nat)
    requires EnvsOk(c) && Enabled(c, e) && !LoopEvent(e) && e.p == p
    requires p in c.envs && c.envs[p].started && c.envs[p].dup.Some? && c.envs[p].dup.value.next < LIMIT
    ensures var c' := Step(c, e); p in c'.envs && c'.envs[p].started && c'.envs[p].dup == c.envs[p].dup
  {
  }

  lemma SeenOther(m: Reader, e: Event, p: nat)
    requires EnvsOk(m.c) && EntriesOk(m.c) && Enabled(m.c, e) && !LoopEvent(e) && !Upset(m, Other(e))
    requires p in m.seen && SeenOk(m.c, p, m.seen[p])
    ensures SeenOk(Step(m.c, e), p, m.seen[p])
  {
    if e.p != p {
      OthersLeave(m.c, e, p);
      assert SameEntry(m.c, Step(m.c, e), Here(m.c, p));
    } else {
      OwnLoop(m.c, e, p);
      if m.seen[p].Some? { OwnLeaves(m.c, e, p); }
    }
  }

  // ----- the simulation -----

  /** A library page that has become writable goes to the child with the permission read. */
  lemma StaleLibrary(c: Machine, a: Eager, p: nat, perm: set<Flag>)
    requires Sim(c, a) && InLoop(c, p, false) && Here(c, p) in c.pt && Here(c, p).vpn != UCOW
    requires Lib in perm && Cow !in perm && Has(c, Here(c, p), Lib)
    ensures Sim(Onward(SetPte(c, There(c, p), Pte(c.pt[Here(c, p)].ppn, perm)), p), Inherit(a, Here(c, p), There(c, p)))
  {
    var s, t, d := Here(c, p), There(c, p), c.envs[p].dup.value;
    ActiveUnguarded(c, s);
    assert InView(c, s);
    ChildLoose(c, p, d);
    ShareSim(c, a, s, t, perm);
    DupPcSim(SetPte(c, t, Pte(c.pt[s].ppn, perm)), ShareCell(a, s, t), p, d, Dup(d.child, d.next + 1, false));
  }

  lemma UseWhole(m: Reader, a: Eager, p: nat)
    requires Sim(m.c, a) && EnabledAct(m, Use(p)) && Here(m.c, p) in m.c.pt
    requires m.seen[p] == Some(m.c.pt[Here(m.c, p)].perm) && MapsAsIs(m.seen[p].value)
    ensures Sim(UseSeen(m, p).c, EagerAct(m, a, Use(p)))
  {
    var c, d := m.c, m.c.envs[p].dup.value;
    var d' := Dup(d.child, d.next + 1, false);
    assert UseSeen(m, p).c == SetDup(SetPte(c, There(c, p), c.pt[Here(c, p)]), p, Some(d'));
    DupWholeSim(c, a, p, d.child, d.next);
  }

  lemma UseHalf(m: Reader, a: Eager, p: nat)
    requires Sim(m.c, a) && EnabledAct(m, Use(p)) && Here(m.c, p) in m.c.pt
    requires m.seen[p] == Some(m.c.pt[Here(m.c, p)].perm) && !MapsAsIs(m.seen[p].value)
    ensures Sim(UseSeen(m, p).c, EagerAct(m, a, Use(p)))
  {
    DupHalfSim(m.c, a, p, m.c.envs[p].dup.value.child, m.c.envs[p].dup.value.next);
  }

  lemma OnwardSim(c: Machine, a: Eager, p: nat)
    requires Sim(c, a) && p in c.envs && c.envs[p].dup.Some? && !c.envs[p].dup.value.half
    requires c.envs[p].dup.value.next < LIMIT
    ensures Sim(Onward(c, p), a)
  {
    var d := c.envs[p].dup.value;
    var d' := Dup(d.child, d.next + 1, false);
    assert Onward(c, p) == SetDup(c, p, Some(d'));
    DupPcSim(c, a, p, d, d');
  }

  lemma UseNothing(m: Reader, a: Eager, p: nat)
    requires Sim(m.c, a) && EnabledAct(m, Use(p)) && m.seen[p].None?
    ensures Sim(UseSeen(m, p).c, EagerAct(m, a, Use(p)))
  {
    OnwardSim(m.c, a, p);
  }

  lemma UseStale(m: Reader, a: Eager, p: nat)
    requires Sim(m.c, a) && EnabledAct(m, Use(p)) && m.seen[p].Some? && SeenOk(m.c, p, m.seen[p])
    requires m.seen[p].value != m.c.pt[Here(m.c, p)].perm
    ensures Sim(UseSeen(m, p).c, EagerAct(m, a, Use(p)))
  {
    StaleLibrary(m.c, a, p, m.seen[p].value);
  }

  lemma UseSim(m: Reader, a: Eager, p: nat)
    requires Sim(m.c, a) && EnabledAct(m, Use(p)) && SeenOk(m.c, p, m.seen[p])
    ensures Sim(UseSeen(m, p).c, EagerAct(m, a, Use(p)))
  {
    if m.seen[p].None? {
      UseNothing(m, a, p);
    } else if m.seen[p].value != m.c.pt[Here(m.c, p)].perm {
      UseStale(m, a, p);
    } else if MapsAsIs(m.seen[p].value) {
      UseWhole(m, a, p);
    } else {
      UseHalf(m, a, p);
    }
  }

  lemma RemapSim(m: Reader, a: Eager, p: nat)
    requires RInv(m, a) && EnabledAct(m, Remap(p))
    ensures Sim(Do(m, Remap(p)).c, EagerAct(m, a, Remap(p)))
  {
    assert SeenOk(m.c, p, m.seen[p]);
    DupRemapSim(m.c, a, p, m.c.envs[p].dup.value.child, m.c.envs[p].dup.value.next);
  }

  /** One turn of the loop of `q` leaves what the loop of `p` has read, and its page. */
  lemma SeenLoop(m: Reader, x: Act, p: nat)
    requires EnvsOk(m.c) && EnabledAct(m, x) && (x.Use? || x.Remap?) && p in Do(m, x).seen
    requires Reads(m)
    ensures SeenOk(Do(m, x).c, p, m.seen[p])
  {
    assert SeenOk(m.c, p, m.seen[p]) && SeenOk(m.c, x.p, m.seen[x.p]);
    assert DupOk(m.c, x.p, m.c.envs[x.p].dup.value);
  }

  lemma LookOk(m: Reader, p: nat)
    requires EnvsOk(m.c) && PrivateOk(m.c) && EnabledAct(m, Look(p))
    ensures SeenOk(m.c, p, PermAt(m.c, Here(m.c, p)))
  {
    if Here(m.c, p) in m.c.pt { ActiveUnguarded(m.c, Here(m.c, p)); }
  }

  lemma ReadsKept(m: Reader, x: Act)
    requires EnvsOk(m.c) && EntriesOk(m.c) && PrivateOk(m.c) && Reads(m) && EnabledAct(m, x) && !Upset(m, x)
    ensures Reads(Do(m, x))
  {
    var m' := Do(m, x);
    forall p | p in m'.seen ensures SeenOk(m'.c, p, m'.seen[p]) {
      match x
      case Other(e) => SeenOther(m, e, p);
      case Look(q) => if p == q { LookOk(m, p); } else { assert SeenOk(m.c, p, m.seen[p]); }
      case _ => SeenLoop(m, x, p);
    }
  }

  /** Whatever is not upset is faithful to eager copying, although what the loop goes by may be out of date. */
  lemma ActSim(m: Reader, a: Eager, x: Act)
    requires RInv(m, a) && EnabledAct(m, x) && !Upset(m, x)
    ensures RInv(Do(m, x), EagerAct(m, a, x))
  {
    ReadsKept(m, x);
    match x
    case Other(e) => StepSim(m.c, a, e);
    case Look(_) =>
    case Use(p) => UseSim(m, a, p);
    case Remap(p) => RemapSim(m, a, p);
  }

  // ----- runs -----

  ghost predicate ValidActs(m: Reader, xs: seq<Act>)
    decreases |xs|
  {
    xs == [] || (EnabledAct(m, xs[0]) && ValidActs(Do(m, xs[0]), xs[1..]))
  }

  ghost predicate Undisturbed(m: Reader, xs: seq<Act>)
    requires ValidActs(m, xs)
    decreases |xs|
  {
    xs == [] || (!Upset(m, xs[0]) && Undisturbed(Do(m, xs[0]), xs[1..]))
  }

  ghost function RunActs(m: Reader, xs: seq<Act>): Reader
    requires ValidActs(m, xs)
    decreases |xs|
  {
    if xs == [] then m else RunActs(Do(m, xs[0]), xs[1..])
  }

  ghost function EagerActs(m: Reader, a: Eager, xs: seq<Act>): Eager
    requires ValidActs(m, xs)
    decreases |xs|
  {
    if xs == [] then a else EagerActs(Do(m, xs[0]), EagerAct(m, a, xs[0]), xs[1..])
  }

  /** Over every run in which no fork loop is upset, every program sees the memory of eager copying. */
  lemma {:induction false} ReaderRefines(m: Reader, a: Eager, xs: seq<Act>)
    requires RInv(m, a) && ValidActs(m, xs) && Undisturbed(m, xs)
    ensures RInv(RunActs(m, xs), EagerActs(m, a, xs))
    decreases |xs|
  {
    if xs != [] {
      ActSim(m, a, xs[0]);
      ReaderRefines(Do(m, xs[0]), EagerAct(m, a, xs[0]), xs[1..]);
    }
  }

  lemma PrependAct(m: Reader, a: Eager, x: Act, xs: seq<Act>)
    requires EnabledAct(m, x) && ValidActs(Do(m, x), xs)
    ensures ValidActs(m, [x] + xs) && RunActs(m, [x] + xs) == RunActs(Do(m, x), xs)
    ensures EagerActs(m, a, [x] + xs) == EagerActs(Do(m, x), EagerAct(m, a, x), xs)
    ensures Undisturbed(m, [x] + xs) <==> !Upset(m, x) && Undisturbed(Do(m, x), xs)
  {
    assert ([x] + xs)[1..] == xs;
  }

  // ----- an upset loop -----

  /** The loop of `p` has read copy-on-write at a page that `p` now has to itself, writable. */
  ghost predicate Misled(m: Reader, a: Eager, p: nat) {
    && InLoop(m.c, p, false) && p in m.seen && m.seen[p].Some? && W !in m.seen[p].value && Lib !in m.seen[p].value
    && Has(m.c, Here(m.c, p), W) && Here(m.c, p).vpn != UCOW && Agree(m.c, a) && CellsOk(a)
    && There(m.c, p) != Here(m.c, p) && !HalfDone(Onward(m.c, p), There(m.c, p))
    && Here(m.c, p) in a.cell && Here(m.c, p) !in a.lib && m.c.pt[Here(m.c, p)].ppn in m.c.phys
  }

  /** It then maps that page copy-on-write in the child, and the parent's next store shows there. */
  lemma MisledShows(m: Reader, a: Eager, p: nat) returns (xs: seq<Act>)
    requires Misled(m, a, p)
    ensures ValidActs(m, xs) && Undisturbed(m, xs) && !Agree(RunActs(m, xs).c, EagerActs(m, a, xs))
  {
    var s, t := Here(m.c, p), There(m.c, p);
    var v := a.val[a.cell[s]][0] + 1;
    var x0, x1 := Use(p), Other(Store(p, s.vpn, 0, v));
    var m1, a1 := Do(m, x0), EagerAct(m, a, x0);
    var m2, a2 := Do(m1, x1), EagerAct(m1, a1, x1);
    PrependAct(m1, a1, x1, []);
    PrependAct(m, a, x0, [x1] + []);
    xs := [x0] + ([x1] + []);
    assert a1.cell[t] == a.next && a1.cell[s] == a.cell[s] != a.next;
    assert m2.c.phys[m2.c.pt[t].ppn][0] == v;
    assert InView(m2.c, t);
    assert a2.val[a2.cell[t]][0] == v - 1;
  }

  /** An upset leads to that, once the handler is done. */
  lemma UpsetMisleads(m: Reader, a: Eager, p: nat)
    requires RInv(m, a) && EnabledAct(m, Other(FaultMap(p))) && Upset(m, Other(FaultMap(p)))
    ensures var m1 := Do(m, Other(FaultMap(p)));
            && EnabledAct(m1, Other(FaultUnmap(p))) && !Upset(m1, Other(FaultUnmap(p)))
            && Misled(Do(m1, Other(FaultUnmap(p))), a, p)
  {
    UpsetSeen(m, p);
    FaultMapSim(m.c, a, p, Here(m.c, p).vpn);
    UnmapMisleads(Do(m, Other(FaultMap(p))), a, p);
  }

  /** What was read is copy-on-write: only such a page takes the handler there. */
  lemma UpsetSeen(m: Reader, p: nat)
    requires EnvsOk(m.c) && EntriesOk(m.c) && Reads(m) && Upset(m, Other(FaultMap(p)))
    requires Enabled(m.c, FaultMap(p))
    ensures Cow in m.seen[p].value && W !in m.seen[p].value && Lib !in m.seen[p].value
    ensures !m.c.envs[p].dup.value.half && m.c.envs[p].dup.value.next < LIMIT && m.c.envs[p].started
    ensures Here(m.c, p) in m.c.pt && m.c.pt[Here(m.c, p)].perm == m.seen[p].value && Here(m.c, p).vpn != UCOW
  {
    assert SeenOk(m.c, p, m.seen[p]) && FaultOk(m.c, p, m.c.envs[p].fault.value);
  }

  lemma UnmapMisleads(m: Reader, a: Eager, p: nat)
    requires Sim(m.c, a) && p in m.c.envs && m.c.envs[p].dup.Some? && !m.c.envs[p].dup.value.half
    requires m.c.envs[p].dup.value.next < LIMIT && m.c.envs[p].fault == Some(Mapped(Here(m.c, p).vpn))
    requires p in m.seen && m.seen[p].Some? && W !in m.seen[p].value && Lib !in m.seen[p].value
    ensures EnabledAct(m, Other(FaultUnmap(p))) && Misled(Do(m, Other(FaultUnmap(p))), a, p)
  {
    FaultUnmapSim(m.c, a, p, Here(m.c, p).vpn);
    UnmapShape(m.c, p);
    NowMisled(Do(m, Other(FaultUnmap(p))), a, p);
  }

  lemma UnmapShape(c: Machine, p: nat)
    requires EnvsOk(c) && p in c.envs && c.envs[p].dup.Some? && !c.envs[p].dup.value.half
    requires c.envs[p].dup.value.next < LIMIT && c.envs[p].fault == Some(Mapped(Here(c, p).vpn))
    ensures Enabled(c, FaultUnmap(p))
    ensures var c' := Step(c, FaultUnmap(p));
            && InLoop(c', p, false) && Here(c', p) == Here(c, p) && Here(c', p).vpn != UCOW
            && Has(c', Here(c', p), W) && !Has(c', Here(c', p), Lib)
  {
    assert FaultOk(c, p, c.envs[p].fault.value);
  }

  lemma NowMisled(m: Reader, a: Eager, p: nat)
    requires Sim(m.c, a) && InLoop(m.c, p, false) && p in m.seen && m.seen[p].Some?
    requires W !in m.seen[p].value && Lib !in m.seen[p].value
    requires Here(m.c, p).vpn != UCOW && Has(m.c, Here(m.c, p), W) && !Has(m.c, Here(m.c, p), Lib)
    ensures Misled(m, a, p)
  {
    assert DupOk(m.c, p, m.c.envs[p].dup.value);
    NotHalf(m.c, Here(m.c, p));
    assert InView(m.c, Here(m.c, p));
  }

  /** An act in a state reached without upsets lets a program see, now or after further acts without upsets,
      what eager copying would not have shown it, if and only if it upsets a fork loop. */
  lemma FaithfulIffUndisturbed(m: Reader, a: Eager, x: Act)
    requires RInv(m, a) && EnabledAct(m, x)
    ensures (forall xs | ValidActs(Do(m, x), xs) && Undisturbed(Do(m, x), xs) ::
               Agree(RunActs(Do(m, x), xs).c, EagerActs(Do(m, x), EagerAct(m, a, x), xs)))
            <==> !Upset(m, x)
  {
    var m1, a1 := Do(m, x), EagerAct(m, a, x);
    if Upset(m, x) {
      UpsetMisleads(m, a, x.e.p);
      var y := Other(FaultUnmap(x.e.p));
      var rest := MisledShows(Do(m1, y), a, x.e.p);
      PrependAct(m1, a1, y, rest);
      var xs := [y] + rest;
      assert ValidActs(m1, xs) && Undisturbed(m1, xs) && !Agree(RunActs(m1, xs).c, EagerActs(m1, a1, xs));
    } else {
      ActSim(m, a, x);
      forall xs | ValidActs(m1, xs) && Undisturbed(m1, xs) ensures Agree(RunActs(m1, xs).c, EagerActs(m1, a1, xs)) {
        ReaderRefines(m1, a1, xs);
      }
    }
  }

  // ----- an upset is possible at every copy-on-write page -----

  lemma CopyEnabled(c: Machine, p: nat, vpn: nat, k: nat)
    requires EnvsOk(c) && p in c.envs && c.envs[p].fault == Some(Copying(vpn, k)) && k < PGSIZE
    ensures Enabled(c, FaultCopy(p))
    ensures Step(c, FaultCopy(p)).envs == c.envs[p := c.envs[p].(fault := Some(Copying(vpn, k + 1)))]
  {
    assert FaultOk(c, p, Copying(vpn, k));
  }

  /** The next byte of the handler's copy. */
  lemma CopyAct(m: Reader, a: Eager, p: nat, vpn: nat, k: nat)
    requires RInv(m, a) && p in m.c.envs && m.c.envs[p].fault == Some(Copying(vpn, k)) && k < PGSIZE
    ensures EnabledAct(m, Other(FaultCopy(p))) && RInv(Do(m, Other(FaultCopy(p))), a)
    ensures Do(m, Other(FaultCopy(p))).c.envs == m.c.envs[p := m.c.envs[p].(fault := Some(Copying(vpn, k + 1)))]
  {
    CopyEnabled(m.c, p, vpn, k);
    ActSim(m, a, Other(FaultCopy(p)));
  }

  /** The handler's copy, from `k` bytes on. */
  lemma {:induction false} CopyActs(m: Reader, a: Eager, p: nat, vpn: nat, k: nat) returns (xs: seq<Act>)
    requires RInv(m, a) && p in m.c.envs && m.c.envs[p].fault == Some(Copying(vpn, k)) && k <= PGSIZE
    ensures ValidActs(m, xs) && Undisturbed(m, xs)
    ensures var m' := RunActs(m, xs);
            && EagerActs(m, a, xs) == a && RInv(m', a) && m'.seen == m.seen && p in m'.c.envs
            && m'.c.envs[p] == m.c.envs[p].(fault := Some(Copying(vpn, PGSIZE)))
    decreases PGSIZE - k
  {
    if k == PGSIZE {
      xs := [];
    } else {
      var x := Other(FaultCopy(p));
      CopyAct(m, a, p, vpn, k);
      var rest := CopyActs(Do(m, x), a, p, vpn, k + 1);
      PrependAct(m, a, x, rest);
      xs := [x] + rest;
    }
  }

  lemma LookAct(m: Reader, a: Eager, p: nat)
    requires RInv(m, a) && InLoop(m.c, p, false) && p !in m.seen && Has(m.c, Here(m.c, p), Cow)
    ensures var m' := Do(m, Look(p));
            RInv(m', a) && m'.c == m.c && m'.seen == m.seen[p := Some(m.c.pt[Here(m.c, p)].perm)]
    ensures Here(m.c, p).vpn != UCOW && !Has(m.c, Here(m.c, p), W)
  {
    ActiveUnguarded(m.c, Here(m.c, p));
    ActSim(m, a, Look(p));
  }

  lemma EnterEnabled(m: Reader, p: nat)
    requires EnabledAct(m, Look(p)) && Has(m.c, Here(m.c, p), Cow)
    requires Here(m.c, p).vpn != UCOW && !Has(m.c, Here(m.c, p), W)
    ensures var m1, x := Do(m, Look(p)), Other(FaultEnter(p, Here(m.c, p).vpn));
            && EnabledAct(m1, x) && !Upset(m1, x) && Do(m1, x).c.pt == m.c.pt
            && Do(m1, x).seen == m.seen[p := Some(m.c.pt[Here(m.c, p)].perm)]
            && Do(m1, x).c.envs == m.c.envs[p := m.c.envs[p].(fault := Some(Entered(Here(m.c, p).vpn)))]
  {
  }

  /** The loop reads, and a store to the page faults. */
  lemma EnterAct(m: Reader, a: Eager, p: nat)
    requires RInv(m, a) && InLoop(m.c, p, false) && p !in m.seen && Has(m.c, Here(m.c, p), Cow)
    ensures var m1, x := Do(m, Look(p)), Other(FaultEnter(p, Here(m.c, p).vpn));
            && EnabledAct(m1, x) && RInv(Do(m1, x), a) && Do(m1, x).c.pt == m.c.pt
            && Do(m1, x).seen == m.seen[p := Some(m.c.pt[Here(m.c, p)].perm)]
            && Do(m1, x).c.envs == m.c.envs[p := m.c.envs[p].(fault := Some(Entered(Here(m.c, p).vpn)))]
  {
    LookAct(m, a, p);
    EnterEnabled(m, p);
    ActSim(Do(m, Look(p)), a, Other(FaultEnter(p, Here(m.c, p).vpn)));
  }

  lemma AllocEnabled(c: Machine, p: nat, vpn: nat, page: nat)
    requires EnvsOk(c) && p in c.envs && c.envs[p].fault == Some(Entered(vpn)) && Fresh(c, page)
    ensures Enabled(c, FaultAlloc(p, page))
  {
    assert FaultOk(c, p, Entered(vpn));
  }

  lemma AllocAct(m: Reader, a: Eager, p: nat, vpn: nat, page: nat)
    requires RInv(m, a) && p in m.c.envs && m.c.envs[p].fault == Some(Entered(vpn)) && Enabled(m.c, FaultAlloc(p, page))
    ensures var m' := Do(m, Other(FaultAlloc(p, page)));
            RInv(m', a) && m'.seen == m.seen && m'.c.envs == m.c.envs[p := m.c.envs[p].(fault := Some(Copying(vpn, 0)))]
  {
    ActSim(m, a, Other(FaultAlloc(p, page)));
  }

  lemma UpsetReady(m: Reader, a: Eager, p: nat)
    requires RInv(m, a) && p in m.c.envs && p in m.seen && m.seen[p].Some?
    requires m.c.envs[p].fault.Some? && m.c.envs[p].dup.Some?
    requires m.c.envs[p].fault.value == Copying(Here(m.c, p).vpn, PGSIZE)
    ensures EnabledAct(m, Other(FaultMap(p))) && Upset(m, Other(FaultMap(p)))
  {
    assert FaultOk(m.c, p, m.c.envs[p].fault.value);
  }

  /** The handler, from its entry to its mapping call. */
  lemma HandlerActs(m: Reader, a: Eager, p: nat, vpn: nat, page: nat) returns (xs: seq<Act>)
    requires RInv(m, a) && p in m.c.envs && m.c.envs[p].fault == Some(Entered(vpn)) && Fresh(m.c, page)
    ensures ValidActs(m, xs) && Undisturbed(m, xs)
    ensures var m' := RunActs(m, xs);
            && EagerActs(m, a, xs) == a && RInv(m', a) && m'.seen == m.seen && p in m'.c.envs
            && m'.c.envs[p] == m.c.envs[p].(fault := Some(Copying(vpn, PGSIZE)))
  {
    var x := Other(FaultAlloc(p, page));
    AllocEnabled(m.c, p, vpn, page);
    AllocAct(m, a, p, vpn, page);
    var rest := CopyActs(Do(m, x), a, p, vpn, 0);
    PrependAct(m, a, x, rest);
    xs := [x] + rest;
  }

  /** The loop reads a copy-on-write page; a store to it comes before the call. */
  lemma UpsetRun(m: Reader, a: Eager, p: nat, page: nat) returns (xs: seq<Act>)
    requires RInv(m, a) && InLoop(m.c, p, false) && p !in m.seen && Has(m.c, Here(m.c, p), Cow) && Fresh(m.c, page)
    ensures ValidActs(m, xs) && Undisturbed(m, xs) && RInv(RunActs(m, xs), EagerActs(m, a, xs))
    ensures EnabledAct(RunActs(m, xs), Other(FaultMap(p))) && Upset(RunActs(m, xs), Other(FaultMap(p)))
  {
    var vpn := Here(m.c, p).vpn;
    var x0, x1 := Look(p), Other(FaultEnter(p, vpn));
    EnterAct(m, a, p);
    var m1 := Do(m, x0);
    var m2 := Do(m1, x1);
    var rest := HandlerActs(m2, a, p, vpn, page);
    PrependAct(m1, a, x1, rest);
    PrependAct(m, a, x0, [x1] + rest);
    xs := [x0] + ([x1] + rest);
    UpsetReady(RunActs(m2, rest), EagerActs(m2, a, rest), p);
  }
}
