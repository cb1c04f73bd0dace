/** When a reply of the file server reaches somebody. A reply is one turn after another of the loop in
    `ipc_send` (user/lib/ipc.c), which ends when the environment at the requester's index receives, in `fsipc`
    or not; the server serves nobody else meanwhile. Here is what makes that loop endless, over every run of
    the protocol of FsRpc, with a run for each cause. */
module FsHangs {
  import opened Options
  import opened FsRpc

  // ----- replies that are owed, and replies that are not -----

  /** The event leaves the server with a request whose sender does not wait for the reply to come next: the
      sender is destroyed, another client answers it, it has never entered `fsipc`, or it has the first of
      two replies. */
  predicate Spoils(s: State, e: Event, c: nat) {
    match e
    case Destroy(d) => d == c && Awaiting(s, c)
    case PeerSend(_, to, _, _, _) => to == c && Awaiting(s, c) && Receiving(s, c)
    case RawSend(d, _, _) => d == c && s.box.recving
    case ServerReply => s.pc.SReply? && s.pc.whom == c && s.pc.stage == First && Awaiting(s, c) && Receiving(s, c)
    case _ => false
  }

  /** One event, while the server is and stays with a request of `c`. */
  lemma SpoilStep(s: State, e: Event, c: nat)
    requires Protocol(s) && Enabled(s, e) && Engaged(Step(s, e)) == Some(c)
    ensures if Engaged(s) == Some(c) then Awaiting(Step(s, e), c) <==> Awaiting(s, c) && !Spoils(s, e, c)
            else Awaiting(Step(s, e), c) <==> !Spoils(s, e, c)
  {
    if LocalEvent(e) {
      SpoilStepLocal(s, e, c);
    } else if CallEvent(e) {
      SpoilStepCall(s, e, c);
    } else if OtherEvent(e) {
      SpoilStepOther(s, e, c);
    } else {
      SpoilStepServer(s, e, c);
    }
  }

  lemma SpoilStepLocal(s: State, e: Event, c: nat)
    requires LocalEvent(e)
    requires Protocol(s) && Enabled(s, e) && Engaged(Step(s, e)) == Some(c)
    ensures if Engaged(s) == Some(c) then Awaiting(Step(s, e), c) <==> Awaiting(s, c) && !Spoils(s, e, c)
            else Awaiting(Step(s, e), c) <==> !Spoils(s, e, c)
  {
    if c in s.cl { assert ClientOk(s, c); }
  }

  lemma SpoilStepCall(s: State, e: Event, c: nat)
    requires CallEvent(e)
    requires Protocol(s) && Enabled(s, e) && Engaged(Step(s, e)) == Some(c)
    ensures if Engaged(s) == Some(c) then Awaiting(Step(s, e), c) <==> Awaiting(s, c) && !Spoils(s, e, c)
            else Awaiting(Step(s, e), c) <==> !Spoils(s, e, c)
  {
    if c in s.cl { assert ClientOk(s, c); }
  }

  lemma SpoilStepOther(s: State, e: Event, c: nat)
    requires OtherEvent(e)
    requires Protocol(s) && Enabled(s, e) && Engaged(Step(s, e)) == Some(c)
    ensures if Engaged(s) == Some(c) then Awaiting(Step(s, e), c) <==> Awaiting(s, c) && !Spoils(s, e, c)
            else Awaiting(Step(s, e), c) <==> !Spoils(s, e, c)
  {
    if c in s.cl { assert ClientOk(s, c); }
  }

  lemma SpoilStepServer(s: State, e: Event, c: nat)
    requires ServerEvent(e)
    requires Protocol(s) && Enabled(s, e) && Engaged(Step(s, e)) == Some(c)
    ensures if Engaged(s) == Some(c) then Awaiting(Step(s, e), c) <==> Awaiting(s, c) && !Spoils(s, e, c)
            else Awaiting(Step(s, e), c) <==> !Spoils(s, e, c)
  {
    if c in s.cl { assert ClientOk(s, c); }
  }

  /** Since event `j`, which spoiled it, the server has been with that request. */
  ghost predicate SpoiledAt(ss: seq<State>, es: seq<Event>, j: nat, k: nat, c: nat)
    requires |ss| == |es| + 1 && k < |ss|
  {
    j < k && Spoils(ss[j], es[j], c) && forall i | j < i <= k :: Engaged(ss[i]) == Some(c)
  }

  ghost predicate Spoiled(ss: seq<State>, es: seq<Event>, k: nat, c: nat)
    requires |ss| == |es| + 1 && k < |ss|
  {
    exists j: nat :: SpoiledAt(ss, es, j, k, c)
  }

  lemma SpoiledNext(ss: seq<State>, es: seq<Event>, k: nat, c: nat)
    requires |ss| == |es| + 1 && 0 < k < |ss| && Engaged(ss[k]) == Some(c)
    ensures Spoiled(ss, es, k, c) <==>
              Spoils(ss[k - 1], es[k - 1], c) || (Engaged(ss[k - 1]) == Some(c) && Spoiled(ss, es, k - 1, c))
  {
    if Spoils(ss[k - 1], es[k - 1], c) { assert SpoiledAt(ss, es, k - 1, k, c); }
    if Engaged(ss[k - 1]) == Some(c) && Spoiled(ss, es, k - 1, c) {
      var j: nat :| SpoiledAt(ss, es, j, k - 1, c);
      assert SpoiledAt(ss, es, j, k, c);
    }
    if Spoiled(ss, es, k, c) {
      var j: nat :| SpoiledAt(ss, es, j, k, c);
      if j < k - 1 { assert SpoiledAt(ss, es, j, k - 1, c); }
    }
  }

  lemma SpoilFollows(s: State, e: Event, s': State, c: nat)
    requires Protocol(s) && Follows(s, e, s') && Engaged(s') == Some(c)
    ensures if Engaged(s) == Some(c) then Awaiting(s', c) <==> Awaiting(s, c) && !Spoils(s, e, c)
            else Awaiting(s', c) <==> !Spoils(s, e, c)
  {
    SpoilStep(s, e, c);
  }

  lemma AwaitedShown(s: State, c: nat)
    requires Protocol(s) && Memory(s) && Awaiting(s, c)
    ensures Engaged(s) == Some(c) && BufSlot(s, c) in s.pt && AtReqva(s, c)
  {
    assert ClientOk(s, c);
  }

  /** In every state of every run a client awaits an answer exactly when the server is with its request and
      nothing has spoiled it; and then the page at REQVA is that client's buffer. */
  lemma {:induction false} AwaitsIffServed(ss: seq<State>, es: seq<Event>, k: nat, c: nat)
    requires Trace(ss, es) && Start(ss[0]) && k < |ss|
    ensures Awaiting(ss[k], c) <==> Engaged(ss[k]) == Some(c) && !Spoiled(ss, es, k, c)
    ensures Awaiting(ss[k], c) ==> BufSlot(ss[k], c) in ss[k].pt && AtReqva(ss[k], c)
  {
    TraceSafe(ss, es, k);
    if Awaiting(ss[k], c) { AwaitedShown(ss[k], c); }
    if k > 0 && Engaged(ss[k]) == Some(c) { AwaitsNext(ss, es, k, c); }
  }

  lemma {:induction false} AwaitsNext(ss: seq<State>, es: seq<Event>, k: nat, c: nat)
    requires Trace(ss, es) && Start(ss[0]) && 0 < k < |ss| && Engaged(ss[k]) == Some(c)
    ensures Awaiting(ss[k], c) <==> !Spoiled(ss, es, k, c)
  {
    SpoiledNext(ss, es, k, c);
    SpoilTrace(ss, es, k, c);
    if k > 1 && Engaged(ss[k - 1]) == Some(c) { AwaitsNext(ss, es, k - 1, c); }
  }

  lemma SpoilTrace(ss: seq<State>, es: seq<Event>, k: nat, c: nat)
    requires Trace(ss, es) && Start(ss[0]) && 0 < k < |ss| && Engaged(ss[k]) == Some(c)
    ensures Awaiting(ss[k], c) <==>
              (Engaged(ss[k - 1]) == Some(c) ==> Awaiting(ss[k - 1], c)) && !Spoils(ss[k - 1], es[k - 1], c)
  {
    TraceSafe(ss, es, k - 1);
    SpoilFollows(ss[k - 1], es[k - 1], ss[k], c);
  }

  // ----- when a reply loop ends -----

  predicate Listening(s: State, c: nat) { c in s.cl && s.cl[c].pc.CListen? && s.cl[c].box.recving }

  /** The server has a reply for `c` to get rid of, now or after the one it is at, and nobody at that index
      is waiting for it. */
  predicate Hopeless(s: State, c: nat) {
    && (s.pc.SReply? || s.pc.SOn?) && s.pc.whom == c && !Listening(s, c)
    && (Awaiting(s, c) ==> s.pc.SReply? && s.pc.stage == First)
  }

  /** That lasts until the environment at that index receives outside `fsipc`. */
  lemma HopelessStays(s: State, e: Event, c: nat)
    requires Protocol(s) && Enabled(s, e) && Hopeless(s, c) && !(e.Listen? && e.c == c)
    ensures Hopeless(Step(s, e), c) && !Step(s, e).box.recving
  {
    if LocalEvent(e) {
      HopelessStaysLocal(s, e, c);
    } else if CallEvent(e) {
      HopelessStaysCall(s, e, c);
    } else if OtherEvent(e) {
      HopelessStaysOther(s, e, c);
    } else {
      HopelessStaysServer(s, e, c);
    }
  }

  lemma HopelessStaysLocal(s: State, e: Event, c: nat)
    requires LocalEvent(e)
    requires Protocol(s) && Enabled(s, e) && Hopeless(s, c) && !(e.Listen? && e.c == c)
    ensures Hopeless(Step(s, e), c) && !Step(s, e).box.recving
  {
    if c in s.cl { assert ClientOk(s, c); }
  }

  lemma HopelessStaysCall(s: State, e: Event, c: nat)
    requires CallEvent(e)
    requires Protocol(s) && Enabled(s, e) && Hopeless(s, c) && !(e.Listen? && e.c == c)
    ensures Hopeless(Step(s, e), c) && !Step(s, e).box.recving
  {
    if c in s.cl { assert ClientOk(s, c); }
  }

  lemma HopelessStaysOther(s: State, e: Event, c: nat)
    requires OtherEvent(e)
    requires Protocol(s) && Enabled(s, e) && Hopeless(s, c) && !(e.Listen? && e.c == c)
    ensures Hopeless(Step(s, e), c) && !Step(s, e).box.recving
  {
    if c in s.cl { assert ClientOk(s, c); }
  }

  lemma HopelessStaysServer(s: State, e: Event, c: nat)
    requires ServerEvent(e)
    requires Protocol(s) && Enabled(s, e) && Hopeless(s, c) && !(e.Listen? && e.c == c)
    ensures Hopeless(Step(s, e), c) && !Step(s, e).box.recving
  {
    if c in s.cl { assert ClientOk(s, c); }
  }

  ghost predicate NoListen(es: seq<Event>, i: nat, j: nat, c: nat) {
    forall k: nat | i <= k < j && k < |es| :: !(es[k].Listen? && es[k].c == c)
  }

  /** Over every run: until then no request is taken, by anybody, and no send to the server succeeds. */
  lemma {:induction false} HopelessUntil(ss: seq<State>, es: seq<Event>, i: nat, j: nat, c: nat)
    requires Trace(ss, es) && i <= j < |ss| && Protocol(ss[i]) && Hopeless(ss[i], c) && NoListen(es, i, j, c)
    ensures Protocol(ss[j]) && Hopeless(ss[j], c) && !ss[j].box.recving && ss[j].req == ss[i].req
    decreases j
  {
    if i < j {
      HopelessUntil(ss, es, i, j - 1, c);
      HopelessFollows(ss[j - 1], es[j - 1], ss[j], c);
    }
  }

  lemma HopelessFollows(s: State, e: Event, s': State, c: nat)
    requires Protocol(s) && Follows(s, e, s') && Hopeless(s, c) && !(e.Listen? && e.c == c)
    ensures Protocol(s') && Hopeless(s', c) && !s'.box.recving && s'.req == s.req
  {
    ProtocolKept(s, e);
    HopelessStays(s, e, c);
    SameRequest(s, e);
  }

  lemma SameRequest(s: State, e: Event)
    requires Enabled(s, e) && !s.box.recving
    ensures Step(s, e).req == s.req
  {
    if LocalEvent(e) {
      SameRequestLocal(s, e);
    } else if IpcEvent(e) {
      SameRequestIpc(s, e);
    } else {
      SameRequestServer(s, e);
    }
  }

  lemma SameRequestLocal(s: State, e: Event)
    requires LocalEvent(e)
    requires Enabled(s, e) && !s.box.recving
    ensures Step(s, e).req == s.req
  {
  }

  lemma SameRequestIpc(s: State, e: Event)
    requires IpcEvent(e)
    requires Enabled(s, e) && !s.box.recving
    ensures Step(s, e).req == s.req
  {
  }

  lemma SameRequestServer(s: State, e: Event)
    requires ServerEvent(e)
    requires Enabled(s, e) && !s.box.recving
    ensures Step(s, e).req == s.req
  {
  }

  /** ... and then it is over: a reply that is not the first of two goes to whoever listens there. */
  lemma ListenerTakes(s: State, c: nat)
    requires s.pc.SReply? && s.pc.whom == c && s.pc.stage != First && Listening(s, c)
    ensures Enabled(s, ServerReply) && Step(s, ServerReply).pc == SLoop
    ensures c in Step(s, ServerReply).cl && Step(s, ServerReply).cl[c].box == Mailbox(false, s.pc.result, SERVER)
  {
  }

  /** There is a way on from `s` on which the server gets rid of its reply to `c` without a receive outside
      `fsipc` at that index. */
  ghost predicate CanEnd(s: State, c: nat) {
    exists ss, es :: Ends(s, c, ss, es)
  }

  ghost predicate Ends(s: State, c: nat, ss: seq<State>, es: seq<Event>) {
    Trace(ss, es) && ss[0] == s && NoListen(es, 0, |es|, c) && Engaged(ss[|es|]) != Some(c)
  }

  /** A reply loop can end that way if and only if the client awaits the answer and it is the only one. */
  lemma LoopIff(s: State, c: nat)
    requires Protocol(s) && s.pc.SReply? && s.pc.whom == c && !Listening(s, c)
    ensures CanEnd(s, c) <==> Awaiting(s, c) && s.pc.stage == Only
  {
    if Awaiting(s, c) && s.pc.stage == Only {
      var ss, es := EndRun(s, c);
      assert Ends(s, c, ss, es);
    } else {
      AlreadyHopeless(s, c);
      forall ss, es ensures !Ends(s, c, ss, es) {
        if Ends(s, c, ss, es) { HopelessUntil(ss, es, 0, |es|, c); }
      }
    }
  }

  lemma AlreadyHopeless(s: State, c: nat)
    requires Protocol(s) && s.pc.SReply? && s.pc.whom == c && !Listening(s, c)
    requires !(Awaiting(s, c) && s.pc.stage == Only)
    ensures Hopeless(s, c)
  {
    if c in s.cl { assert ClientOk(s, c); }
  }

  lemma EndRun(s: State, c: nat) returns (ss: seq<State>, es: seq<Event>)
    requires Protocol(s) && s.pc.SReply? && s.pc.whom == c && Awaiting(s, c) && s.pc.stage == Only
    ensures Ends(s, c, ss, es)
  {
    if s.cl[c].pc.CSent? {
      var s1 := Step(s, Receive(c));
      var s2 := Step(s1, ServerReply);
      ss, es := [s, s1, s2], [Receive(c), ServerReply];
      assert Follows(s, Receive(c), s1) && Follows(s1, ServerReply, s2);
    } else {
      var s1 := Step(s, ServerReply);
      ss, es := [s, s1], [ServerReply];
      assert Follows(s, ServerReply, s1);
    }
  }

  /** Over every run: that is so if and only if the reply is the only one to its request and none of the
      causes above has struck since the request came. */
  lemma LoopEndsIff(ss: seq<State>, es: seq<Event>, k: nat, c: nat)
    requires Trace(ss, es) && Start(ss[0]) && k < |ss|
    requires ss[k].pc.SReply? && ss[k].pc.whom == c && !Listening(ss[k], c)
    ensures CanEnd(ss[k], c) <==> ss[k].pc.stage == Only && !Spoiled(ss, es, k, c)
  {
    TraceSafe(ss, es, k);
    LoopIff(ss[k], c);
    AwaitsIffServed(ss, es, k, c);
  }

  // ----- how a reply comes to be owed to nobody -----

  lemma TraceAppend(ss: seq<State>, es: seq<Event>, ss': seq<State>, es': seq<Event>)
    requires Trace(ss, es) && Trace(ss', es') && ss'[0] == ss[|es|]
    ensures Trace(ss + ss'[1..], es + es') && (ss + ss'[1..])[|es + es'|] == ss'[|es'|]
  {
    var tt, fs := ss + ss'[1..], es + es';
    forall k | 0 <= k < |fs| ensures Follows(tt[k], fs[k], tt[k + 1]) {
      if k < |es| {
        assert Follows(ss[k], es[k], ss[k + 1]);
      } else {
        assert Follows(ss'[k - |es|], es'[k - |es|], ss'[k - |es| + 1]);
      }
    }
  }

  lemma TraceOne(s: State, e: Event)
    requires Enabled(s, e)
    ensures Trace([s, Step(s, e)], [e])
  {
    assert Follows(s, e, Step(s, e));
  }

  /** All clients are idle, and so is the server. */
  ghost predicate Calm(s: State) {
    && (forall c | c in s.cl :: s.cl[c].pc.CIdle? && !s.cl[c].box.recving) && SERVER !in s.cl
    && s.pc.SLoop? && !s.box.recving && Buffers(s) && Housed(s)
  }

  /** A request of `c` has reached the server, and `c` has not gone on. */
  ghost predicate AtServer(s: State, c: nat, kind: int) {
    && s.pc.SAwait? && !s.box.recving && s.box.from == c && s.box.value == kind && HasRequest(s)
    && c in s.cl && s.cl[c].pc.CSent? && !s.cl[c].box.recving
  }

  lemma SendRun(s: State, c: nat, kind: int, dst: nat) returns (ss: seq<State>, es: seq<Event>)
    requires Calm(s) && c in s.cl && Known(kind) && dst != s.cl[c].buf
    ensures Trace(ss, es) && ss[0] == s && es == [Call(c, kind, dst), ServerReceive, TrySend(c)]
    ensures var t := ss[3];
            && AtServer(t, c, kind) && t.cl[c].pc.dst == dst && t.cl.Keys == s.cl.Keys
            && (forall d | d in s.cl && d != c :: t.cl[d] == s.cl[d])
            && (forall x | x != ReqSlot() :: (x in t.pt <==> x in s.pt) && (x in s.pt ==> t.pt[x] == s.pt[x]))
            && ReqSlot() in t.pt && t.pt[ReqSlot()].page == s.pt[BufSlot(s, c)].page && t.phys == s.phys
            && t.leaked == s.leaked && t.cl[c].buf == s.cl[c].buf
  {
    assert BufSlot(s, c) in s.pt;
    var e0, e1, e2 := Call(c, kind, dst), ServerReceive, TrySend(c);
    var s1 := Step(s, e0);
    var s2 := Step(s1, e1);
    var s3 := Step(s2, e2);
    ss, es := [s, s1, s2, s3], [e0, e1, e2];
    assert Follows(s, e0, s1) && Follows(s1, e1, s2) && Follows(s2, e2, s3);
  }

  /** The handler of a request that is not an open, up to its reply. */
  lemma ServeRun(s: State, c: nat) returns (ss: seq<State>, es: seq<Event>)
    requires s.pc.SAwait? && !s.box.recving && s.box.from == c && s.box.value == FSREQ_SYNC && HasRequest(s)
    ensures Trace(ss, es) && ss[0] == s && ss[|es|].pc == SReply(c, 0, None, Only) && ss[|es|].cl == s.cl
  {
    var e0, e1 := ServerDispatch(0, 0), ServerFinish(0, None);
    var s1 := Step(s, e0);
    var s2 := Step(s1, e1);
    ss, es := [s, s1, s2], [e0, e1];
    assert Follows(s, e0, s1) && Follows(s1, e1, s2);
  }

  /** A client that is destroyed between its send and its receive. */
  lemma DestroyedHangs(s: State, c: nat) returns (ss: seq<State>, es: seq<Event>)
    requires Calm(s) && c in s.cl
    ensures Trace(ss, es) && ss[0] == s && Hopeless(ss[|es|], c) && c !in ss[|es|].cl && Destroy(c) in es
  {
    var ss0, es0 := SendRun(s, c, FSREQ_SYNC, s.cl[c].buf + 1);
    var ss1, es1 := DestroyedRun(ss0[3], c);
    TraceAppend(ss0, es0, ss1, es1);
    ss, es := ss0 + ss1[1..], es0 + es1;
    assert es[3] == Destroy(c);
  }

  lemma DestroyedRun(t: State, c: nat) returns (ss: seq<State>, es: seq<Event>)
    requires AtServer(t, c, FSREQ_SYNC) && SERVER != c
    ensures Trace(ss, es) && ss[0] == t && Hopeless(ss[|es|], c) && c !in ss[|es|].cl
    ensures |es| > 0 && es[0] == Destroy(c)
  {
    var t1 := Step(t, Destroy(c));
    TraceOne(t, Destroy(c));
    var ss1, es1 := ServeRun(t1, c);
    TraceAppend([t, t1], [Destroy(c)], ss1, es1);
    ss, es := [t, t1] + ss1[1..], [Destroy(c)] + es1;
  }

  /** A client that another one answers. */
  lemma PeerAnswerHangs(s: State, c: nat, d: nat, v: int) returns (ss: seq<State>, es: seq<Event>)
    requires Calm(s) && c in s.cl && d in s.cl && c != d
    ensures Trace(ss, es) && ss[0] == s && Hopeless(ss[|es|], c)
    ensures c in ss[|es|].cl && Enabled(ss[|es|], Return(c)) && ss[|es|].cl[c].box == Mailbox(false, v, d)
  {
    var ss0, es0 := SendRun(s, c, FSREQ_SYNC, s.cl[c].buf + 1);
    var ss1, es1 := PeerRun(ss0[3], c, d, v);
    var ss2, es2 := ServeRun(ss1[2], c);
    TraceAppend(ss1, es1, ss2, es2);
    TraceAppend(ss0, es0, ss1 + ss2[1..], es1 + es2);
    ss, es := ss0 + (ss1 + ss2[1..])[1..], es0 + (es1 + es2);
  }

  lemma PeerRun(t: State, c: nat, d: nat, v: int) returns (ss: seq<State>, es: seq<Event>)
    requires c in t.cl && t.cl[c].pc.CSent? && d != c && d in t.cl && t.cl[d].pc.CIdle? && !t.cl[d].box.recving
    ensures Trace(ss, es) && ss[0] == t && |es| == 2
    ensures var u, x := ss[2], t.cl[c];
            && u.pc == t.pc && u.box == t.box && u.pt == t.pt && u.phys == t.phys
            && u.cl == t.cl[c := x.(pc := CAwait(x.pc.kind, x.pc.dst), box := Mailbox(false, v, d))]
  {
    var e0, e1 := Receive(c), PeerSend(d, c, v, None, Pte(0, false, false, false));
    var t1 := Step(t, e0);
    var t2 := Step(t1, e1);
    assert Follows(t, e0, t1) && Follows(t1, e1, t2);
    ss, es := [t, t1, t2], [e0, e1];
  }

  /** An environment that sends a request outside `fsipc` and does not receive. */
  lemma RawRequestHangs(s: State, c: nat) returns (ss: seq<State>, es: seq<Event>)
    requires Calm(s) && c in s.cl
    ensures Trace(ss, es) && ss[0] == s && Hopeless(ss[|es|], c) && c in ss[|es|].cl && ss[|es|].cl[c].pc.CIdle?
  {
    assert BufSlot(s, c) in s.pt;
    var e0, e1 := ServerReceive, RawSend(c, FSREQ_SYNC, Some(s.cl[c].buf));
    var s1 := Step(s, e0);
    var s2 := Step(s1, e1);
    assert Follows(s, e0, s1) && Follows(s1, e1, s2);
    assert Trace([s, s1, s2], [e0, e1]);
    var ss1, es1 := ServeRun(s2, c);
    TraceAppend([s, s1, s2], [e0, e1], ss1, es1);
    ss, es := [s, s1, s2] + ss1[1..], [e0, e1] + es1;
  }

  // ----- a full open table -----

  /** The server is in `serve_open` for `c` with a second reply to go. */
  predicate Doomed(s: State, c: nat) {
    (s.pc.SOn? && s.pc.whom == c) || (s.pc.SReply? && s.pc.whom == c && s.pc.stage != Only)
  }

  /** The second reply is taken. */
  predicate SecondTaken(s: State, e: Event, c: nat) {
    e.ServerReply? && s.pc.SReply? && s.pc.whom == c && s.pc.stage == Second && Receiving(s, c)
  }

  lemma DoomedStep(s: State, e: Event, c: nat)
    requires Protocol(s) && Enabled(s, e)
    ensures Doomed(Step(s, e), c) <==> (Doomed(s, c) && !SecondTaken(s, e, c)) || (e.ServerDispatch? && BadOpen(s, c))
    ensures SecondTaken(s, e, c) ==> Listening(s, c)
  {
    if LocalEvent(e) {
      DoomedStepLocal(s, e, c);
    } else if CallEvent(e) {
      DoomedStepCall(s, e, c);
    } else if OtherEvent(e) {
      DoomedStepOther(s, e, c);
    } else {
      DoomedStepServer(s, e, c);
    }
  }

  lemma DoomedStepLocal(s: State, e: Event, c: nat)
    requires LocalEvent(e)
    requires Protocol(s) && Enabled(s, e)
    ensures Doomed(Step(s, e), c) <==> (Doomed(s, c) && !SecondTaken(s, e, c)) || (e.ServerDispatch? && BadOpen(s, c))
    ensures SecondTaken(s, e, c) ==> Listening(s, c)
  {
    if c in s.cl { assert ClientOk(s, c); }
  }

  lemma DoomedStepCall(s: State, e: Event, c: nat)
    requires CallEvent(e)
    requires Protocol(s) && Enabled(s, e)
    ensures Doomed(Step(s, e), c) <==> (Doomed(s, c) && !SecondTaken(s, e, c)) || (e.ServerDispatch? && BadOpen(s, c))
    ensures SecondTaken(s, e, c) ==> Listening(s, c)
  {
    if c in s.cl { assert ClientOk(s, c); }
  }

  lemma DoomedStepOther(s: State, e: Event, c: nat)
    requires OtherEvent(e)
    requires Protocol(s) && Enabled(s, e)
    ensures Doomed(Step(s, e), c) <==> (Doomed(s, c) && !SecondTaken(s, e, c)) || (e.ServerDispatch? && BadOpen(s, c))
    ensures SecondTaken(s, e, c) ==> Listening(s, c)
  {
    if c in s.cl { assert ClientOk(s, c); }
  }

  lemma DoomedStepServer(s: State, e: Event, c: nat)
    requires ServerEvent(e)
    requires Protocol(s) && Enabled(s, e)
    ensures Doomed(Step(s, e), c) <==> (Doomed(s, c) && !SecondTaken(s, e, c)) || (e.ServerDispatch? && BadOpen(s, c))
    ensures SecondTaken(s, e, c) ==> Listening(s, c)
  {
    if c in s.cl { assert ClientOk(s, c); }
  }

  ghost predicate OpenedAt(ss: seq<State>, es: seq<Event>, j: nat, k: nat, c: nat)
    requires |ss| == |es| + 1 && k < |ss|
  {
    && j < k && es[j].ServerDispatch? && BadOpen(ss[j], c)
    && forall i {:trigger es[i]} | j < i < k :: !SecondTaken(ss[i], es[i], c)
  }

  ghost predicate OpenedFull(ss: seq<State>, es: seq<Event>, k: nat, c: nat)
    requires |ss| == |es| + 1 && k < |ss|
  {
    exists j: nat :: OpenedAt(ss, es, j, k, c)
  }

  lemma OpenedNext(ss: seq<State>, es: seq<Event>, k: nat, c: nat)
    requires |ss| == |es| + 1 && 0 < k < |ss|
    ensures OpenedFull(ss, es, k, c) <==>
              || (OpenedFull(ss, es, k - 1, c) && !SecondTaken(ss[k - 1], es[k - 1], c))
              || (es[k - 1].ServerDispatch? && BadOpen(ss[k - 1], c))
  {
    if OpenedFull(ss, es, k - 1, c) && !SecondTaken(ss[k - 1], es[k - 1], c) {
      var j: nat :| OpenedAt(ss, es, j, k - 1, c);
      assert OpenedAt(ss, es, j, k, c);
    }
    if es[k - 1].ServerDispatch? && BadOpen(ss[k - 1], c) { assert OpenedAt(ss, es, k - 1, k, c); }
    if OpenedFull(ss, es, k, c) {
      var j: nat :| OpenedAt(ss, es, j, k, c);
      if j < k - 1 { assert OpenedAt(ss, es, j, k - 1, c); }
    }
  }

  lemma DoomedFollows(s: State, e: Event, s': State, c: nat)
    requires Protocol(s) && Follows(s, e, s')
    ensures Doomed(s', c) <==> (Doomed(s, c) && !SecondTaken(s, e, c)) || (e.ServerDispatch? && BadOpen(s, c))
  {
    DoomedStep(s, e, c);
  }

  /** Over every run: the server is caught in `serve_open` for a client if and only if it has dispatched an
      open of that client when no slot of the open table was free, and no receive outside `fsipc` at that
      index has taken the second reply since. */
  lemma {:induction false} StuckIff(ss: seq<State>, es: seq<Event>, k: nat, c: nat)
    requires Trace(ss, es) && Start(ss[0]) && k < |ss|
    ensures Doomed(ss[k], c) <==> OpenedFull(ss, es, k, c)
  {
    if k > 0 {
      StuckIff(ss, es, k - 1, c);
      TraceSafe(ss, es, k - 1);
      OpenedNext(ss, es, k, c);
      DoomedFollows(ss[k - 1], es[k - 1], ss[k], c);
    }
  }

  /** The open file `i` is mapped in some client. */
  ghost predicate HeldAt(s: State, i: nat) {
    OpenSlot(i) in s.pt && exists x :: x in s.pt && x.env != SERVER && s.pt[x].page == s.pt[OpenSlot(i)].page
  }

  /** Every slot of the open table is open in some client. */
  ghost predicate TableHeld(s: State) {
    forall i: nat | i < MAXOPEN :: HeldAt(s, i)
  }

  lemma HeldIsFull(s: State)
    requires TableHeld(s)
    ensures TableFull(s)
  {
    forall i: nat | i < MAXOPEN ensures !FreeAt(s, i) {
      assert HeldAt(s, i);
    }
  }

  lemma HeldElsewhere(s: State, s': State, i: nat)
    requires HeldAt(s, i)
    requires forall x | x != ReqSlot() :: (x in s'.pt <==> x in s.pt) && (x in s.pt ==> s'.pt[x] == s.pt[x])
    ensures HeldAt(s', i)
  {
    var x :| x in s.pt && x.env != SERVER && s.pt[x].page == s.pt[OpenSlot(i)].page;
    assert x in s'.pt && s'.pt[x].page == s'.pt[OpenSlot(i)].page;
  }

  /** The double reply, up to the moment the client is woken. */
  lemma ReplyOnce(s: State, c: nat) returns (ss: seq<State>, es: seq<Event>)
    requires AtServer(s, c, FSREQ_OPEN) && TableFull(s)
    ensures Trace(ss, es) && ss[0] == s && Doomed(ss[|es|], c) && Hopeless(ss[|es|], c)
    ensures c in ss[|es|].cl && Enabled(ss[|es|], Return(c))
  {
    var e := ServerDispatch(0, 0);
    TraceOne(s, e);
    var ss1, es1 := FirstTaken(Step(s, e), c);
    TraceAppend([s, Step(s, e)], [e], ss1, es1);
    ss, es := [s, Step(s, e)] + ss1[1..], [e] + es1;
  }

  lemma FirstTaken(s: State, c: nat) returns (ss: seq<State>, es: seq<Event>)
    requires s.pc == SReply(c, E_MAX_OPEN, None, First) && c in s.cl && s.cl[c].pc.CSent?
    ensures Trace(ss, es) && ss[0] == s && Doomed(ss[|es|], c) && Hopeless(ss[|es|], c)
    ensures c in ss[|es|].cl && Enabled(ss[|es|], Return(c))
  {
    var e0, e1 := Receive(c), ServerReply;
    var s1 := Step(s, e0);
    var s2 := Step(s1, e1);
    ss, es := [s, s1, s2], [e0, e1];
    assert Follows(s, e0, s1) && Follows(s1, e1, s2);
  }

  /** From any calm state with a full table, an open by any client leads there. */
  lemma FullTableHangs(s: State, c: nat) returns (ss: seq<State>, es: seq<Event>)
    requires Calm(s) && TableHeld(s) && c in s.cl
    ensures Trace(ss, es) && ss[0] == s && Doomed(ss[|es|], c) && Hopeless(ss[|es|], c)
  {
    var ss0, es0 := SendRun(s, c, FSREQ_OPEN, s.cl[c].buf + 1);
    var t := ss0[3];
    forall i: nat | i < MAXOPEN ensures HeldAt(t, i) {
      assert HeldAt(s, i);
      HeldElsewhere(s, t, i);
    }
    HeldIsFull(t);
    var ss1, es1 := ReplyOnce(t, c);
    TraceAppend(ss0, es0, ss1, es1);
    ss, es := ss0 + ss1[1..], es0 + es1;
  }

  // ----- filling the table, from an empty one -----

  const FDS: nat := 0x5fc00            // VPN(FDTABLE)
  const NFD: nat := 31                 // how many descriptors fd_alloc gives out
  const NCLIENT: nat := 34             // enough clients for MAXOPEN files

  /** Which client opens file `i`, and at which descriptor. */
  function Opener(i: nat): nat { 2 + i / NFD }

  function FdPage(i: nat): Slot { Slot(Opener(i), FDS + i % NFD) }

  /** Clients 2 .. 2 + m - 1, all with their buffer at page 0 of their address space. */
  ghost predicate Family(s: State, m: nat) {
    Calm(s) && s.leaked == {} && (forall c :: c in s.cl <==> 2 <= c < 2 + m) && forall c | c in s.cl :: s.cl[c].buf == 0
  }

  /** Files 0 .. n - 1 are open, on pages 1 .. n, and nothing is on a page above. */
  ghost predicate Filled(s: State, n: nat) {
    && (forall i: nat | i < n :: OpenFile(s, i))
    && (forall i: nat | n <= i < MAXOPEN :: OpenSlot(i) !in s.pt)
    && (forall x | x in s.pt :: s.pt[x].page <= n)
  }

  predicate OpenFile(s: State, i: nat) {
    OpenSlot(i) in s.pt && s.pt[OpenSlot(i)].page == i + 1 && FdPage(i) in s.pt && s.pt[FdPage(i)].page == i + 1
  }

  /** One client, no open file. */
  function Empty(): State {
    State(map[2 := Client(CIdle, 0, 0, Mailbox(false, 0, 0))], SLoop, Mailbox(false, 0, 0),
          map[Slot(2, 0) := Pte(0, true, false, false)], map[0 := 0], {}, 0, 1, [], map[])
  }

  lemma EmptyStart()
    ensures Start(Empty()) && Family(Empty(), 1) && Filled(Empty(), 0)
  {
  }

  lemma ForkEnabled(s: State, m: nat)
    requires Family(s, m) && m >= 1
    ensures Enabled(s, Fork(2, 2 + m))
  {
    assert 2 in s.cl && 2 + m !in s.cl;
  }

  lemma ForkFamily(s: State, s': State, m: nat)
    requires Family(s, m) && m >= 1 && Follows(s, Fork(2, 2 + m), s')
    ensures Family(s', m + 1)
  {
    ForkCalm(s, 2, 2 + m, s');
    ForkMember(s, s', m);
  }

  lemma ForkCalm(s: State, c: nat, child: nat, s': State)
    requires Buffers(s) && Housed(s) && Follows(s, Fork(c, child), s')
    ensures c in s.cl && s'.leaked == s.leaked && s'.pc == s.pc && s'.box == s.box && Buffers(s') && Housed(s')
    ensures s'.cl == s.cl[child := Client(CIdle, s.cl[c].buf, s.stamp, Mailbox(false, 0, 0))]
  {
    BuffersForked(s, c, child);
    HousedForked(s, c, child);
  }

  lemma ForkMember(s: State, s': State, m: nat)
    requires Family(s, m) && m >= 1 && s'.leaked == s.leaked && s'.pc == s.pc && s'.box == s.box
    requires 2 in s.cl && s'.cl == s.cl[2 + m := Client(CIdle, s.cl[2].buf, s.stamp, Mailbox(false, 0, 0))]
    requires Buffers(s') && Housed(s')
    ensures Family(s', m + 1)
  {
  }

  lemma ForkFilled(s: State, m: nat)
    requires Filled(s, 0) && Enabled(s, Fork(2, 2 + m)) && m >= 1
    ensures Filled(Step(s, Fork(2, 2 + m)), 0)
  {
    ForkSlots(s, 2, 2 + m);
  }

  lemma {:induction false} ForkRun(s: State, m: nat) returns (ss: seq<State>, es: seq<Event>)
    requires Family(s, m) && 1 <= m <= NCLIENT && Filled(s, 0)
    ensures Trace(ss, es) && ss[0] == s && Family(ss[|es|], NCLIENT) && Filled(ss[|es|], 0)
    decreases NCLIENT - m
  {
    if m == NCLIENT {
      ss, es := [s], [];
    } else {
      ForkEnabled(s, m);
      ForkFamily(s, Step(s, Fork(2, 2 + m)), m);
      ForkFilled(s, m);
      var e := Fork(2, 2 + m);
      var ss1, es1 := ForkRun(Step(s, e), m + 1);
      TraceOne(s, e);
      TraceAppend([s, Step(s, e)], [e], ss1, es1);
      ss, es := [s, Step(s, e)] + ss1[1..], [e] + es1;
    }
  }

  /** An open of file `n`: the client's call, the server's service, the client's return. */
  lemma OpenRun(s: State, n: nat) returns (ss: seq<State>, es: seq<Event>)
    requires Family(s, NCLIENT) && Filled(s, n) && n < MAXOPEN
    ensures Trace(ss, es) && ss[0] == s && Family(ss[|es|], NCLIENT) && Filled(ss[|es|], n + 1)
  {
    var c, dst := Opener(n), FDS + n % NFD;
    assert c in s.cl;
    var ss0, es0 := SendRun(s, c, FSREQ_OPEN, dst);
    var t := ss0[3];
    SentFilled(s, t, n);
    var ss1, es1 := GrantRun(t, c, n);
    TraceAppend(ss0, es0, ss1, es1);
    ss, es := ss0 + ss1[1..], es0 + es1;
    Granted(s, t, ss1[|es1|], n);
  }

  lemma SentFilled(s: State, t: State, n: nat)
    requires Family(s, NCLIENT) && Filled(s, n) && n < MAXOPEN && Opener(n) in s.cl && t.leaked == s.leaked
    requires forall x | x != ReqSlot() :: (x in t.pt <==> x in s.pt) && (x in s.pt ==> t.pt[x] == s.pt[x])
    requires ReqSlot() in t.pt && t.pt[ReqSlot()].page == s.pt[BufSlot(s, Opener(n))].page
    ensures Filled(t, n) && OpenOk(t, n, n + 1) && !TableFull(t)
  {
    assert BufSlot(s, Opener(n)) in s.pt;
    forall i: nat | i < n ensures OpenFile(t, i) && !FreeAt(t, i) {
      assert OpenFile(s, i);
      assert FdPage(i) in t.pt && t.pt[FdPage(i)].page == t.pt[OpenSlot(i)].page && FdPage(i) != OpenSlot(i);
    }
    assert OpenSlot(n) !in t.pt && FreeAt(t, n);
  }

  /** From the dispatch of an open with slot `n` free to the client's return. */
  lemma GrantRun(t: State, c: nat, n: nat) returns (ss: seq<State>, es: seq<Event>)
    requires AtServer(t, c, FSREQ_OPEN) && OpenOk(t, n, n + 1) && !TableFull(t) && OpenSlot(n) !in t.pt
    ensures Trace(ss, es) && ss[0] == t
    ensures var u := ss[|es|];
            && u.pc == SLoop && !u.box.recving && u.leaked == t.leaked && u.cl.Keys == t.cl.Keys
            && u.cl[c].pc == CIdle && !u.cl[c].box.recving && u.cl[c].buf == t.cl[c].buf
            && (forall d | d in t.cl && d != c :: u.cl[d] == t.cl[d])
            && u.pt == t.pt[OpenSlot(n) := Pte(n + 1, true, false, true)]
                           [Slot(c, t.cl[c].pc.dst) := Pte(n + 1, true, false, true)]
            && u.phys == t.phys[n + 1 := 0]
  {
    var e := ServerDispatch(n, n + 1);
    var t1 := Step(t, e);
    TraceOne(t, e);
    var ss1, es1 := FinishRun(t1, c, n);
    var ss2, es2 := TakeRun(ss1[2], c, n);
    TraceAppend(ss1, es1, ss2, es2);
    TraceAppend([t, t1], [e], ss1 + ss2[1..], es1 + es2);
    ss, es := [t, t1] + (ss1 + ss2[1..])[1..], [e] + (es1 + es2);
  }

  /** The handler has the page of slot `n` to send, and the client receives. */
  lemma FinishRun(t: State, c: nat, n: nat) returns (ss: seq<State>, es: seq<Event>)
    requires t.pc == SServe(c, FSREQ_OPEN) && HasRequest(t) && c in t.cl && t.cl[c].pc.CSent?
    ensures Trace(ss, es) && ss[0] == t && |es| == 2
    ensures var u, x := ss[2], t.cl[c];
            && u.pc == SReply(c, 0, Some(FILES + n), Only) && u.box == t.box && u.leaked == t.leaked
            && u.pt == t.pt && u.phys == t.phys
            && u.cl == t.cl[c := x.(pc := CAwait(x.pc.kind, x.pc.dst), box := x.box.(recving := true))]
  {
    var e0, e1 := ServerFinish(0, Some(FILES + n)), Receive(c);
    var t1 := Step(t, e0);
    var t2 := Step(t1, e1);
    assert Follows(t, e0, t1) && Follows(t1, e1, t2);
    ss, es := [t, t1, t2], [e0, e1];
  }

  /** The reply with the page of slot `n`, and the return. */
  lemma TakeRun(t: State, c: nat, n: nat) returns (ss: seq<State>, es: seq<Event>)
    requires t.pc == SReply(c, 0, Some(FILES + n), Only) && Awaiting(t, c) && t.cl[c].pc.CAwait? && !t.box.recving
    requires OpenSlot(n) in t.pt
    ensures Trace(ss, es) && ss[0] == t
    ensures var u := ss[|es|];
            && u.pc == SLoop && !u.box.recving && u.leaked == t.leaked && u.cl.Keys == t.cl.Keys
            && u.cl[c].pc == CIdle && !u.cl[c].box.recving && u.cl[c].buf == t.cl[c].buf
            && (forall d | d in t.cl && d != c :: u.cl[d] == t.cl[d])
            && u.pt == t.pt[Slot(c, t.cl[c].pc.dst) := Pte(t.pt[OpenSlot(n)].page, true, false, true)]
            && u.phys == t.phys
  {
    var e0, e1 := ServerReply, Return(c);
    var t1 := Step(t, e0);
    var t2 := Step(t1, e1);
    assert Follows(t, e0, t1) && Follows(t1, e1, t2);
    ss, es := [t, t1, t2], [e0, e1];
  }

  lemma Granted(s: State, t: State, u: State, n: nat)
    requires Family(s, NCLIENT) && Filled(t, n) && n < MAXOPEN && Opener(n) in s.cl
    requires t.cl.Keys == s.cl.Keys && (forall d | d in s.cl && d != Opener(n) :: t.cl[d] == s.cl[d])
    requires t.cl[Opener(n)].buf == 0 && t.leaked == {} && t.phys == s.phys
    requires forall x | x != ReqSlot() :: (x in t.pt <==> x in s.pt) && (x in s.pt ==> t.pt[x] == s.pt[x])
    requires ReqSlot() in t.pt && t.pt[ReqSlot()].page in t.phys
    requires u.pc == SLoop && !u.box.recving && u.leaked == t.leaked && u.cl.Keys == t.cl.Keys
    requires u.cl[Opener(n)].pc == CIdle && !u.cl[Opener(n)].box.recving && u.cl[Opener(n)].buf == t.cl[Opener(n)].buf
    requires forall d | d in t.cl && d != Opener(n) :: u.cl[d] == t.cl[d]
    requires u.pt == t.pt[OpenSlot(n) := Pte(n + 1, true, false, true)][FdPage(n) := Pte(n + 1, true, false, true)]
    requires u.phys == t.phys[n + 1 := 0]
    ensures Family(u, NCLIENT) && Filled(u, n + 1)
  {
    GrantedFilled(t, u, n);
    GrantedFamily(s, t, u, n);
  }

  lemma GrantedFilled(t: State, u: State, n: nat)
    requires Filled(t, n) && n < MAXOPEN
    requires u.pt == t.pt[OpenSlot(n) := Pte(n + 1, true, false, true)][FdPage(n) := Pte(n + 1, true, false, true)]
    ensures Filled(u, n + 1)
  {
    forall i: nat | i < n + 1 ensures OpenFile(u, i) {
      if i < n {
        assert OpenFile(t, i);
        FdPagesDiffer(i, n);
      }
    }
  }

  lemma FdPagesDiffer(i: nat, n: nat)
    requires i < n
    ensures FdPage(i) != FdPage(n)
  {
    assert i == NFD * (i / NFD) + i % NFD && n == NFD * (n / NFD) + n % NFD;
  }

  lemma GrantedFamily(s: State, t: State, u: State, n: nat)
    requires Family(s, NCLIENT) && n < MAXOPEN && Opener(n) in s.cl
    requires t.cl.Keys == s.cl.Keys && (forall d | d in s.cl && d != Opener(n) :: t.cl[d] == s.cl[d])
    requires t.cl[Opener(n)].buf == 0 && t.leaked == {} && t.phys == s.phys
    requires forall x | x != ReqSlot() :: (x in t.pt <==> x in s.pt) && (x in s.pt ==> t.pt[x] == s.pt[x])
    requires ReqSlot() in t.pt && t.pt[ReqSlot()].page in t.phys
    requires u.pc == SLoop && !u.box.recving && u.leaked == t.leaked && u.cl.Keys == t.cl.Keys
    requires u.cl[Opener(n)].pc == CIdle && !u.cl[Opener(n)].box.recving && u.cl[Opener(n)].buf == t.cl[Opener(n)].buf
    requires forall d | d in t.cl && d != Opener(n) :: u.cl[d] == t.cl[d]
    requires u.pt == t.pt[OpenSlot(n) := Pte(n + 1, true, false, true)][FdPage(n) := Pte(n + 1, true, false, true)]
    requires u.phys == t.phys[n + 1 := 0]
    ensures Family(u, NCLIENT)
  {
    GrantedIdle(s, t, u, Opener(n));
    GrantedBuffers(s, u, n);
    GrantedHoused(s, t, u, n);
  }

  lemma GrantedIdle(s: State, t: State, u: State, o: nat)
    requires Family(s, NCLIENT) && o in s.cl
    requires t.cl.Keys == s.cl.Keys && (forall d | d in s.cl && d != o :: t.cl[d] == s.cl[d])
    requires u.cl.Keys == t.cl.Keys && u.cl[o].pc == CIdle && !u.cl[o].box.recving && u.cl[o].buf == 0
    requires forall d | d in t.cl && d != o :: u.cl[d] == t.cl[d]
    ensures forall c | c in u.cl :: u.cl[c].pc.CIdle? && !u.cl[c].box.recving && u.cl[c].buf == 0
    ensures forall c :: c in u.cl <==> 2 <= c < 2 + NCLIENT
  {
    forall c ensures c in u.cl <==> c in s.cl {
    }
  }

  lemma GrantedBuffers(s: State, u: State, n: nat)
    requires Buffers(s) && SERVER !in s.cl && u.cl.Keys == s.cl.Keys
    requires forall c | c in s.cl :: s.cl[c].buf == 0 && u.cl[c].buf == 0
    requires forall x | x in s.pt && x != ReqSlot() && x != OpenSlot(n) && x != FdPage(n) ::
               x in u.pt && u.pt[x] == s.pt[x]
    ensures Buffers(u)
  {
    forall c | c in u.cl ensures BufSlot(u, c) in u.pt && !u.pt[BufSlot(u, c)].lib {
      assert BufSlot(s, c) in s.pt && BufSlot(u, c) == BufSlot(s, c) == Slot(c, 0);
    }
  }

  lemma GrantedHoused(s: State, t: State, u: State, n: nat)
    requires Housed(s) && Opener(n) in s.cl && t.phys == s.phys && u.cl.Keys == s.cl.Keys
    requires forall x | x != ReqSlot() :: (x in t.pt <==> x in s.pt) && (x in s.pt ==> t.pt[x] == s.pt[x])
    requires ReqSlot() in t.pt && t.pt[ReqSlot()].page in t.phys
    requires u.pt == t.pt[OpenSlot(n) := Pte(n + 1, true, false, true)][FdPage(n) := Pte(n + 1, true, false, true)]
    requires u.phys == t.phys[n + 1 := 0]
    ensures Housed(u)
  {
    forall x | x in u.pt ensures u.pt[x].page in u.phys && (x.env == SERVER || x.env in u.cl) {
      if x != OpenSlot(n) && x != FdPage(n) && x != ReqSlot() { assert x in s.pt; }
    }
  }

  lemma {:induction false} FillRun(s: State, n: nat) returns (ss: seq<State>, es: seq<Event>)
    requires Family(s, NCLIENT) && Filled(s, n) && n <= MAXOPEN
    ensures Trace(ss, es) && ss[0] == s && Family(ss[|es|], NCLIENT) && Filled(ss[|es|], MAXOPEN)
    decreases MAXOPEN - n
  {
    if n == MAXOPEN {
      ss, es := [s], [];
    } else {
      var ss0, es0 := OpenRun(s, n);
      var ss1, es1 := FillRun(ss0[|es0|], n + 1);
      TraceAppend(ss0, es0, ss1, es1);
      ss, es := ss0 + ss1[1..], es0 + es1;
    }
  }

  /** From one client and no open file: it forks 33 more, they open 1024 files, at most 31 each, and one more
      open hangs the server. */
  lemma FullTableRun() returns (ss: seq<State>, es: seq<Event>)
    ensures Trace(ss, es) && ss[0] == Empty() && Start(ss[0]) && Doomed(ss[|es|], 2) && Hopeless(ss[|es|], 2)
  {
    EmptyStart();
    var ss0, es0 := ForkRun(Empty(), 1);
    var ss1, es1 := FillRun(ss0[|es0|], 0);
    TraceAppend(ss0, es0, ss1, es1);
    var u := ss1[|es1|];
    forall i: nat | i < MAXOPEN ensures HeldAt(u, i) {
      assert OpenFile(u, i) && FdPage(i).env != SERVER;
    }
    var ss2, es2 := FullTableHangs(u, 2);
    TraceAppend(ss0 + ss1[1..], es0 + es1, ss2, es2);
    ss, es := ss0 + ss1[1..] + ss2[1..], es0 + es1 + es2;
  }
}
