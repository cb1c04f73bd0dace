/** What a file-server call and a message between clients have done when they are over, for environments that take
    turns and are not disturbed: runs of the protocol of module FsRpc, with the exact state they end in. */
module FsCalls {
  import opened Options
  import opened FsRpc
  import opened FsHangs

  // ----- the three sends of a call -----

  /** A quiet state after `c` has sent a request, which the server has received. */
  function Requested(s: State, c: nat, kind: int, dst: nat): State
    requires c in s.cl && BufSlot(s, c) in s.pt
  {
    s.(cl := s.cl[c := s.cl[c].(pc := CSent(kind, dst), call := s.stamp)], pc := SAwait,
       box := Mailbox(false, kind, c), pt := s.pt[ReqSlot() := Pte(s.pt[BufSlot(s, c)].page, true, false, false)],
       req := s.stamp, stamp := s.stamp + 1)
  }

  lemma SendsRequest(s: State, c: nat, kind: int, dst: nat) returns (ss: seq<State>, es: seq<Event>)
    requires Calm(s) && c in s.cl && Known(kind) && dst != s.cl[c].buf
    ensures es == [Call(c, kind, dst), ServerReceive, TrySend(c)] && Trace(ss, es) && ss[0] == s
    ensures BufSlot(s, c) in s.pt && ss[3] == Requested(s, c, kind, dst)
  {
    assert BufSlot(s, c) in s.pt;
    var e0, e1, e2 := Call(c, kind, dst), ServerReceive, TrySend(c);
    var s1 := Step(s, e0);
    var s2 := Step(s1, e1);
    var s3 := Step(s2, e2);
    ss, es := [s, s1, s2, s3], [e0, e1, e2];
    assert Follows(s, e0, s1) && Follows(s1, e1, s2) && Follows(s2, e2, s3);
    assert s3.cl == Requested(s, c, kind, dst).cl;
  }

  /** The server has read the request and has its answer. */
  function Answering(t: State, c: nat, kind: int, result: int, give: Option<nat>): State
    requires HasRequest(t)
  {
    t.(pc := SReply(c, result, give, Only), log := t.log + [Served(c, t.req, kind, Request(t), result)])
  }

  lemma Serves(t: State, c: nat, kind: int, result: int, give: Option<nat>) returns (ss: seq<State>, es: seq<Event>)
    requires t.pc.SAwait? && t.box == Mailbox(false, kind, c) && HasRequest(t)
    requires Known(kind) && kind != FSREQ_OPEN && give != Some(REQ)
    ensures es == [ServerDispatch(0, 0), ServerFinish(result, give)] && Trace(ss, es) && ss[0] == t
    ensures ss[2] == Answering(t, c, kind, result, give)
  {
    var e0, e1 := ServerDispatch(0, 0), ServerFinish(result, give);
    var t1 := Step(t, e0);
    var t2 := Step(t1, e1);
    ss, es := [t, t1, t2], [e0, e1];
    assert Follows(t, e0, t1) && Follows(t1, e1, t2);
  }

  /** The client has its answer, and the page that came with it, and has returned. */
  function Returned(t: State, c: nat, dst: nat, result: int, give: Option<nat>): State
    requires c in t.cl
  {
    var x := Slot(SERVER, if give.Some? then give.value else 0);
    t.(cl := t.cl[c := t.cl[c].(pc := CIdle, box := Mailbox(false, result, SERVER))], pc := SLoop,
       pt := if give.Some? && x in t.pt then t.pt[Slot(c, dst) := Pte(t.pt[x].page, true, false, true)] else t.pt,
       answers := t.answers[t.req := result])
  }

  lemma Takes(t: State, c: nat, kind: int, dst: nat, result: int, give: Option<nat>)
    returns (ss: seq<State>, es: seq<Event>)
    requires t.pc == SReply(c, result, give, Only) && c in t.cl && t.cl[c].pc == CSent(kind, dst)
    ensures es == [Receive(c), ServerReply, Return(c)] && Trace(ss, es) && ss[0] == t
    ensures ss[3] == Returned(t, c, dst, result, give)
  {
    var e0, e1, e2 := Receive(c), ServerReply, Return(c);
    var t1 := Step(t, e0);
    var t2 := Step(t1, e1);
    var t3 := Step(t2, e2);
    ss, es := [t, t1, t2, t3], [e0, e1, e2];
    assert Follows(t, e0, t1) && Follows(t1, e1, t2) && Follows(t2, e2, t3);
    assert t3.cl == Returned(t, c, dst, result, give).cl;
  }

  /** What a call has done when it is over: the client is idle, with the server's answer in its mailbox; the server
      is about to receive; the request was answered once, from the client's buffer; the page that the server
      sent, if it has it, is where the client asked for it; nothing else has changed but what REQVA shows. */
  ghost predicate CallDone(s: State, u: State, c: nat, kind: int, dst: nat, result: int, give: Option<nat>)
    requires c in s.cl && BufSlot(s, c) in s.pt && s.pt[BufSlot(s, c)].page in s.phys
  {
    && u.cl == s.cl[c := s.cl[c].(pc := CIdle, call := s.stamp, box := Mailbox(false, result, SERVER))]
    && u.pc == SLoop && !u.box.recving && u.phys == s.phys && u.leaked == s.leaked
    && u.log == s.log + [Served(c, s.stamp, kind, Contents(s, c), result)] && u.answers == s.answers[s.stamp := result]
    && (forall x | x != ReqSlot() && x != Slot(c, dst) ::
          (x in u.pt <==> x in s.pt) && (x in s.pt ==> u.pt[x] == s.pt[x]))
    && (var y := Slot(SERVER, if give.Some? then give.value else 0);
        if give.Some? && y in s.pt
        then Slot(c, dst) in u.pt && u.pt[Slot(c, dst)] == Pte(s.pt[y].page, true, false, true)
        else (Slot(c, dst) in u.pt <==> Slot(c, dst) in s.pt)
             && (Slot(c, dst) in s.pt ==> u.pt[Slot(c, dst)] == s.pt[Slot(c, dst)]))
  }

  /** `fsipc` for every request but an open, from every quiet state, with every answer. */
  lemma CallCompletes(s: State, c: nat, kind: int, dst: nat, result: int, give: Option<nat>)
    returns (ss: seq<State>, es: seq<Event>)
    requires Calm(s) && c in s.cl && Known(kind) && kind != FSREQ_OPEN && dst != s.cl[c].buf && give != Some(REQ)
    ensures Trace(ss, es) && ss[0] == s && |es| == 8 && es[0] == Call(c, kind, dst) && es[7] == Return(c)
    ensures BufSlot(s, c) in s.pt && s.pt[BufSlot(s, c)].page in s.phys
    ensures CallDone(s, ss[8], c, kind, dst, result, give)
  {
    var ss0, es0 := SendsRequest(s, c, kind, dst);
    var t := ss0[3];
    var ss1, es1 := Serves(t, c, kind, result, give);
    TraceAppend(ss0, es0, ss1, es1);
    var ss2, es2 := Takes(ss1[2], c, kind, dst, result, give);
    TraceAppend(ss0 + ss1[1..], es0 + es1, ss2, es2);
    ss, es := ss0 + ss1[1..] + ss2[1..], es0 + es1 + es2;
    DoneAfter(s, c, kind, dst, result, give);
  }

  lemma DoneAfter(s: State, c: nat, kind: int, dst: nat, result: int, give: Option<nat>)
    requires Calm(s) && c in s.cl && Known(kind) && dst != s.cl[c].buf && give != Some(REQ)
    ensures BufSlot(s, c) in s.pt && s.pt[BufSlot(s, c)].page in s.phys
    ensures var t := Requested(s, c, kind, dst);
            && HasRequest(t) && c in t.cl
            && CallDone(s, Returned(Answering(t, c, kind, result, give), c, dst, result, give),
                        c, kind, dst, result, give)
  {
    assert BufSlot(s, c) in s.pt && c != SERVER;
    var u := Returned(Answering(Requested(s, c, kind, dst), c, kind, result, give), c, dst, result, give);
    assert u.cl == s.cl[c := s.cl[c].(pc := CIdle, call := s.stamp, box := Mailbox(false, result, SERVER))];
  }

  // ----- what a client writes is what the server reads -----

  /** A client writes its buffer, by way of the copy-on-write handler if relatives share it. */
  lemma Writes(s: State, c: nat, v: int, page: nat) returns (ss: seq<State>, es: seq<Event>)
    requires Calm(s) && c in s.cl && Fresh(s, page)
    requires BufSlot(s, c) in s.pt && (s.pt[BufSlot(s, c)].w || s.pt[BufSlot(s, c)].cow)
    ensures Trace(ss, es) && ss[0] == s
    ensures var t := ss[|es|];
            && Calm(t) && t.cl == s.cl && t.log == s.log && t.stamp == s.stamp
            && BufSlot(t, c) in t.pt && t.pt[BufSlot(t, c)].page in t.phys && Contents(t, c) == v
            && (forall d | d in s.cl && d != c && BufSlot(s, d) in s.pt
                  && (s.pt[BufSlot(s, d)].page == s.pt[BufSlot(s, c)].page ==> !s.pt[BufSlot(s, c)].w) ::
                  BufSlot(t, d) in t.pt && t.pt[BufSlot(t, d)].page in t.phys && Contents(t, d) == Contents(s, d))
  {
    var x := BufSlot(s, c);
    if s.pt[x].w {
      var e := Store(c, s.cl[c].buf, v);
      TraceOne(s, e);
      ss, es := [s, Step(s, e)], [e];
    } else {
      var e0, e1 := Fault(c, s.cl[c].buf, page), Store(c, s.cl[c].buf, v);
      var s1 := Step(s, e0);
      var s2 := Step(s1, e1);
      assert Follows(s, e0, s1) && Follows(s1, e1, s2);
      ss, es := [s, s1, s2], [e0, e1];
    }
  }

  /** From the client's store to its return: the server has answered what the client wrote. */
  lemma WriteAndCall(s: State, c: nat, v: int, page: nat, kind: int, dst: nat, result: int)
    returns (ss: seq<State>, es: seq<Event>)
    requires Calm(s) && c in s.cl && Fresh(s, page) && Known(kind) && kind != FSREQ_OPEN && dst != s.cl[c].buf
    requires BufSlot(s, c) in s.pt && (s.pt[BufSlot(s, c)].w || s.pt[BufSlot(s, c)].cow)
    ensures Trace(ss, es) && ss[0] == s
    ensures var u := ss[|es|];
            && u.log == s.log + [Served(c, s.stamp, kind, v, result)]
            && c in u.cl && u.cl[c].pc == CIdle && u.cl[c].box == Mailbox(false, result, SERVER)
  {
    var ss0, es0 := Writes(s, c, v, page);
    var t := ss0[|es0|];
    var ss1, es1 := CallCompletes(t, c, kind, dst, result, None);
    TraceAppend(ss0, es0, ss1, es1);
    ss, es := ss0 + ss1[1..], es0 + es1;
  }

  // ----- a block of a file -----

  function Filled(t: State, vpn: nat, page: nat, v: int): State {
    t.(pt := t.pt[Slot(SERVER, vpn) := Pte(page, true, false, false)], phys := t.phys[page := v])
  }

  /** The server takes a block into its cache and fills it. */
  lemma FillsBlock(t: State, vpn: nat, page: nat, v: int) returns (ss: seq<State>, es: seq<Event>)
    requires Enabled(t, ServerAlloc(vpn, page))
    ensures Trace(ss, es) && ss[0] == t && ss[|es|] == Filled(t, vpn, page, v)
  {
    var e0, e1 := ServerAlloc(vpn, page), ServerStore(vpn, v);
    var t1 := Step(t, e0);
    var t2 := Step(t1, e1);
    ss, es := [t, t1, t2], [e0, e1];
    assert Follows(t, e0, t1) && Follows(t1, e1, t2);
    assert t2.phys == t.phys[page := v];
  }

  /** ... while it serves, and sends its page. */
  lemma ServesBlock(t: State, c: nat, kind: int, result: int, vpn: nat, page: nat, v: int)
    returns (ss: seq<State>, es: seq<Event>)
    requires t.pc.SAwait? && t.box == Mailbox(false, kind, c) && HasRequest(t)
    requires Known(kind) && kind != FSREQ_OPEN && Enabled(t, ServerAlloc(vpn, page))
    ensures Trace(ss, es) && ss[0] == t
    ensures ss[|es|] == Filled(Answering(t, c, kind, result, Some(vpn)), vpn, page, v)
  {
    var e0, e1 := ServerDispatch(0, 0), ServerFinish(result, Some(vpn));
    var t1 := Step(t, e0);
    TraceOne(t, e0);
    assert t1 == t.(pc := SServe(c, kind));
    var ss1, es1 := FillsBlock(t1, vpn, page, v);
    TraceAppend([t, t1], [e0], ss1, es1);
    var t2 := ss1[|es1|];
    FinishFilled(t, t2, c, kind, result, vpn, page, v);
    TraceOne(t2, e1);
    TraceAppend([t, t1] + ss1[1..], [e0] + es1, [t2, Step(t2, e1)], [e1]);
    ss, es := [t, t1] + ss1[1..] + [t2, Step(t2, e1)][1..], [e0] + es1 + [e1];
  }

  lemma FinishFilled(t: State, t2: State, c: nat, kind: int, result: int, vpn: nat, page: nat, v: int)
    requires HasRequest(t) && vpn != REQ && Fresh(t, page)
    requires t2 == Filled(t.(pc := SServe(c, kind)), vpn, page, v)
    ensures Enabled(t2, ServerFinish(result, Some(vpn)))
    ensures Step(t2, ServerFinish(result, Some(vpn))) ==
            Filled(Answering(t, c, kind, result, Some(vpn)), vpn, page, v)
  {
    assert Request(t2) == Request(t);
  }

  /** A client that asks for a block has it mapped afterwards, on the very page that the server has in its cache,
      with what the server has read into it. */
  lemma MapCompletes(s: State, c: nat, kind: int, dst: nat, result: int, vpn: nat, page: nat, v: int)
    returns (ss: seq<State>, es: seq<Event>)
    requires Calm(s) && c in s.cl && Known(kind) && kind != FSREQ_OPEN && dst != s.cl[c].buf
    requires vpn != REQ && !(FILES <= vpn < FILES + MAXOPEN) && Slot(SERVER, vpn) !in s.pt && Fresh(s, page)
    ensures Trace(ss, es) && ss[0] == s
    ensures var u, x := ss[|es|], Slot(c, dst);
            && u.cl == s.cl[c := s.cl[c].(pc := CIdle, call := s.stamp, box := Mailbox(false, result, SERVER))]
            && x in u.pt && u.pt[x] == Pte(page, true, false, true) && page in u.phys && u.phys[page] == v
            && Slot(SERVER, vpn) in u.pt && u.pt[Slot(SERVER, vpn)].page == page
  {
    var ss0, es0 := SendsRequest(s, c, kind, dst);
    var t := ss0[3];
    var ss1, es1 := ServesBlock(t, c, kind, result, vpn, page, v);
    TraceAppend(ss0, es0, ss1, es1);
    var ss2, es2 := Takes(ss1[|es1|], c, kind, dst, result, Some(vpn));
    TraceAppend(ss0 + ss1[1..], es0 + es1, ss2, es2);
    ss, es := ss0 + ss1[1..] + ss2[1..], es0 + es1 + es2;
    assert c != SERVER;
  }

  // ----- a client's own memory -----

  /** A page that a client maps holds what it stores there, and unmapping it undoes the mapping. */
  lemma AllocStoreUnmap(s: State, c: nat, vpn: nat, page: nat, lib: bool, v: int)
    requires Idle(s, c) && vpn != s.cl[c].buf && Slot(c, vpn) !in s.pt && Fresh(s, page)
    ensures var e0, e1, e2 := Alloc(c, vpn, page, lib), Store(c, vpn, v), Unmap(c, vpn);
            && Enabled(s, e0) && Enabled(Step(s, e0), e1) && Enabled(Step(Step(s, e0), e1), e2)
            && var s1, s2 := Step(Step(s, e0), e1), Step(Step(Step(s, e0), e1), e2);
               && s1.pt == s.pt[Slot(c, vpn) := Pte(page, true, false, lib)] && s1.phys == s.phys[page := v]
               && s2 == s.(phys := s.phys[page := v])
  {
    var e0, e1, e2 := Alloc(c, vpn, page, lib), Store(c, vpn, v), Unmap(c, vpn);
    var s1 := Step(Step(s, e0), e1);
    assert s1.phys == s.phys[page := v];
    assert s1.pt - {Slot(c, vpn)} == s.pt;
  }

  /** The copy-on-write handler, as one step: the page reads as before, for the faulting client and for everybody
      else, and it is now writable and the client's alone. */
  lemma FaultCopies(s: State, c: nat, vpn: nat, page: nat, x: Slot)
    requires Enabled(s, Fault(c, vpn, page)) && x in s.pt && s.pt[x].page in s.phys
    ensures var s', y := Step(s, Fault(c, vpn, page)), Slot(c, vpn);
            && x in s'.pt && s'.pt[x].page in s'.phys && s'.phys[s'.pt[x].page] == s.phys[s.pt[x].page]
            && s'.pt[y].w && !s'.pt[y].cow && (x != y ==> s'.pt[x] == s.pt[x] && s'.pt[x].page != s'.pt[y].page)
  {
  }

  /** An open that finds the table not full has the lowest free slot, cleared, and every other entry stays. */
  lemma OpenTakesSlot(s: State, i: nat, page: nat, x: Slot)
    requires Enabled(s, ServerDispatch(i, page)) && s.box.value == FSREQ_OPEN && !TableFull(s)
    ensures i < MAXOPEN && FreeAt(s, i) && (forall j: nat | j < i :: !FreeAt(s, j))
    ensures var s', o := Step(s, ServerDispatch(i, page)), OpenSlot(i);
            && s'.pc == SServe(s.box.from, FSREQ_OPEN)
            && o in s'.pt && s'.pt[o].page in s'.phys && s'.phys[s'.pt[o].page] == 0
            && (x != o ==> (x in s'.pt <==> x in s.pt) && (x in s.pt ==> s'.pt[x] == s.pt[x]))
  {
  }

  // ----- a message between clients -----

  /** One client receives outside `fsipc` and another sends: the receiver has the value, the sender's index and the
      page, where it asked for it and with the permission given. */
  lemma PeerDelivers(s: State, c: nat, d: nat, v: int, dst: nat, vpn: nat, t: Pte)
    returns (ss: seq<State>, es: seq<Event>)
    requires Idle(s, c) && Idle(s, d) && c != d && dst != s.cl[d].buf && vpn != s.cl[c].buf && Slot(c, vpn) in s.pt
    ensures es == [Listen(d, dst), PeerSend(c, d, v, Some(vpn), t), Return(d)] && Trace(ss, es) && ss[0] == s
    ensures ss[3] == s.(cl := s.cl[d := s.cl[d].(pc := CIdle, box := Mailbox(false, v, c))],
                        pt := s.pt[Slot(d, dst) := t.(page := s.pt[Slot(c, vpn)].page)])
  {
    var e0, e1, e2 := Listen(d, dst), PeerSend(c, d, v, Some(vpn), t), Return(d);
    var s1 := Step(s, e0);
    var s2 := Step(s1, e1);
    var s3 := Step(s2, e2);
    ss, es := [s, s1, s2, s3], [e0, e1, e2];
    assert Follows(s, e0, s1) && Follows(s1, e1, s2) && Follows(s2, e2, s3);
    assert s3.cl == s.cl[d := s.cl[d].(pc := CIdle, box := Mailbox(false, v, c))];
  }

  // ----- a slot of the open table that is lost -----

  /** The page of slot `i` has a reference that no environment holds. */
  predicate Lost(s: State, i: nat) { OpenSlot(i) in s.pt && s.pt[OpenSlot(i)].page in s.leaked }

  /** A client that is destroyed with the file open leaves it so: `env_free` passes over library entries. */
  lemma DestroyLoses(s: State, c: nat, x: Slot, i: nat)
    requires Protocol(s) && Enabled(s, Destroy(c)) && OpenSlot(i) in s.pt
    requires x in s.pt && x.env == c && s.pt[x].lib && s.pt[x].page == s.pt[OpenSlot(i)].page
    ensures Lost(Step(s, Destroy(c)), i)
  {
  }

  lemma LeakedGrows(s: State, e: Event)
    requires Enabled(s, e)
    ensures s.leaked <= Step(s, e).leaked
  {
    if e.Destroy? {
    } else if IpcEvent(e) {
      SameLeaked(s, e);
    } else {
      SameLeakedElsewhere(s, e);
    }
  }

  lemma SameLeaked(s: State, e: Event)
    requires Enabled(s, e) && IpcEvent(e) && !e.Destroy?
    ensures Step(s, e).leaked == s.leaked
  {
  }

  lemma SameLeakedElsewhere(s: State, e: Event)
    requires Enabled(s, e) && !IpcEvent(e)
    ensures Step(s, e).leaked == s.leaked
  {
  }

  /** The entry of a lost slot stays: `open_alloc` does not take the slot, and nobody else touches it. */
  lemma LostEntry(s: State, e: Event, i: nat)
    requires Protocol(s) && Enabled(s, e) && Lost(s, i) && i < MAXOPEN
    ensures OpenSlot(i) in Step(s, e).pt && Step(s, e).pt[OpenSlot(i)] == s.pt[OpenSlot(i)]
  {
    if e.Fork? {
      ForkSlots(s, e.c, e.child);
    } else if Single(e) && Touched(s, e) != Some(OpenSlot(i)) {
      EntriesElsewhere(s, e, OpenSlot(i));
    }
  }

  lemma LostFollows(s: State, e: Event, s': State, i: nat)
    requires Protocol(s) && Follows(s, e, s') && Lost(s, i) && i < MAXOPEN
    ensures Protocol(s') && Lost(s', i)
  {
    ProtocolKept(s, e);
    LostEntry(s, e, i);
    LeakedGrows(s, e);
  }

  /** Over every run: that slot of the open table is never free again. */
  lemma {:induction false} LostForEver(ss: seq<State>, es: seq<Event>, j: nat, k: nat, i: nat)
    requires Trace(ss, es) && j <= k < |ss| && Protocol(ss[j]) && Lost(ss[j], i) && i < MAXOPEN
    ensures Protocol(ss[k]) && Lost(ss[k], i) && !FreeAt(ss[k], i)
    decreases k
  {
    if j < k {
      LostForEver(ss, es, j, k - 1, i);
      LostFollows(ss[k - 1], es[k - 1], ss[k], i);
    }
  }
}
