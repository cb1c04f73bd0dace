/** The request/reply protocol between the file server and its clients: `fsipc` (user/lib/fsipc.c),
    the retry loop of `ipc_send` and `ipc_recv` (user/lib/ipc.c), the server loop and its open table
    (fs/serv.c), over `e_ipc_recv` and `e_ipc_try_send` (kern/ecall_all.c). Requests travel in a page:
    the client's buffer is mapped, writable, at REQVA in the server. Clients fork, so that buffers
    come to be shared copy-on-write, and every environment stores to whatever it has mapped writable.
    Clients also use IPC outside `fsipc`: they receive from anybody, send to each other and to the server,
    with or without a page, and they are destroyed. Any number of clients; an event is one action of one
    environment, so every interleaving is a sequence of events. */
module FsRpc {
  import opened Options

  const SERVER: nat := 1
  const REQ: nat := 0xffff             // VPN(REQVA)
  const FILES: nat := 0x60000          // VPN(FILEVA), where the pages of the open table begin
  const MAXOPEN: nat := 1024

  /** A virtual page of an environment. */
  datatype Slot = Slot(env: nat, vpn: nat)

  datatype Pte = Pte(page: nat, w: bool, cow: bool, lib: bool)

  /** The IPC fields of an environment. */
  datatype Mailbox = Mailbox(recving: bool, value: int, from: nat)

  datatype ClientPc =
    | CIdle                              // neither in fsipc nor in ipc_recv
    | CSending(kind: int, dst: nat)      // fsipc, in the loop of ipc_send
    | CSent(kind: int, dst: nat)         // fsipc, the send has succeeded, ipc_recv not yet called
    | CAwait(kind: int, dst: nat)        // fsipc, in ipc_recv: blocked, or woken and about to read its mailbox
    | CListen(dst: nat)                  // in ipc_recv outside fsipc, likewise

  /** `buf` is the page number of fsipcbuf; `call` is the number of the client's latest request. */
  datatype Client = Client(pc: ClientPc, buf: nat, call: nat, box: Mailbox)

  /** A handler that replies once, or `serve_open` on a full table: it replies, goes on, and replies
      a second time. */
  datatype Stage = Only | First | Second

  datatype ServerPc =
    | SLoop                              // about to call ipc_recv
    | SAwait                             // in ipc_recv: blocked, or woken and about to read the mailbox
    | SServe(whom: nat, kind: int)       // in a serve_* handler
    | SReply(whom: nat, result: int, give: Option<nat>, stage: Stage)    // in the loop of ipc_send
    | SOn(whom: nat)                     // serve_open after its first reply

  /** One answered request: who sent it, its number, what the handler read and what it answered. */
  datatype Served = Served(whom: nat, call: nat, kind: int, page: int, result: int)

  /** Environments are told by their index, as `envid2env` does; a destroyed one's index is used again.
      History: `req` is the number of the request that reached the server last, `stamp` the next number,
      `log` the requests answered and `answers` the replies that reached a client in its call. `leaked` are
      pages that address spaces of destroyed environments still refer to: `env_free` passes over
      PTE_LIBRARY entries. */
  datatype State = State(cl: map<nat, Client>, pc: ServerPc, box: Mailbox,
                         pt: map<Slot, Pte>, phys: map<nat, int>, leaked: set<nat>,
                         req: nat, stamp: nat, log: seq<Served>, answers: map<nat, int>)

  datatype Event =
    | Store(c: nat, vpn: nat, v: int)             // a client changes a page it has mapped writable
    | Fault(c: nat, vpn: nat, page: nat)          // the copy-on-write handler, in one step
    | Fork(c: nat, child: nat)
    | Alloc(c: nat, vpn: nat, page: nat, lib: bool)
    | Unmap(c: nat, vpn: nat)
    | Call(c: nat, kind: int, dst: nat)           // enters fsipc
    | TrySend(c: nat)                             // one turn of the loop in ipc_send
    | Receive(c: nat)                             // e_ipc_recv in fsipc
    | Return(c: nat)                              // woken: reads the mailbox and goes on
    | Listen(c: nat, dst: nat)                    // ipc_recv outside fsipc
    | PeerSend(c: nat, to: nat, v: int, give: Option<nat>, t: Pte)    // one send to another client
    | RawSend(c: nat, kind: int, give: Option<nat>)      // one send to the server outside fsipc
    | Destroy(c: nat)
    | ServerReceive
    | ServerDispatch(i: nat, page: nat)           // woken: reads the mailbox and enters a handler
    | ServerStore(vpn: nat, v: int)
    | ServerAlloc(vpn: nat, page: nat)            // a block comes into the cache
    | ServerFinish(result: int, give: Option<nat>)    // the handler has its answer, and a page to send
    | ServerReply                                 // one turn of the loop in ipc_send

  const FSREQ_OPEN := 1
  const FSREQ_SYNC := 7
  const E_MAX_OPEN := -9

  /** A known request code: for any other one the server sends no reply at all. */
  predicate Known(kind: int) { FSREQ_OPEN <= kind <= FSREQ_SYNC }

  predicate InCall(pc: ClientPc) { pc.CSending? || pc.CSent? || pc.CAwait? }

  // ----- pages -----

  function ReqSlot(): Slot { Slot(SERVER, REQ) }

  predicate Fresh(s: State, page: nat) { page !in s.leaked && forall x | x in s.pt :: s.pt[x].page != page }

  /** A client that is not blocked in ipc_recv. */
  predicate Runs(s: State, c: nat) { c in s.cl && !s.cl[c].box.recving }

  predicate Idle(s: State, c: nat) { Runs(s, c) && s.cl[c].pc.CIdle? }

  /** The code of `fsipc` and of `ipc_send` and `ipc_recv` does not touch the buffer. */
  predicate MayTouch(s: State, c: nat, vpn: nat) {
    Runs(s, c) && (!InCall(s.cl[c].pc) || vpn != s.cl[c].buf)
  }

  predicate MayWrite(s: State, x: Slot) { x in s.pt && s.pt[x].w }

  /** What `fork` makes of a mapping, on both sides. */
  function Shared(t: Pte): Pte { if t.w && !t.lib then t.(w := false, cow := true) else t }

  function ForkTable(s: State, c: nat, child: nat): map<Slot, Pte> {
    (map x | x in s.pt :: if x.env == c then Shared(s.pt[x]) else s.pt[x])
    + map x | x in s.pt && x.env == c :: Slot(child, x.vpn) := Shared(s.pt[x])
  }

  // ----- the open table -----

  function OpenSlot(i: nat): Slot { Slot(SERVER, FILES + i) }

  /** `pageref` of the slot's page is 0 or 1: nobody but the server has it mapped. */
  predicate FreeAt(s: State, i: nat) {
    OpenSlot(i) !in s.pt
    || (s.pt[OpenSlot(i)].page !in s.leaked
        && forall x | x in s.pt && s.pt[x].page == s.pt[OpenSlot(i)].page :: x == OpenSlot(i))
  }

  ghost predicate TableFull(s: State) { forall i: nat | i < MAXOPEN :: !FreeAt(s, i) }

  /** What the server is about to dispatch is an open of `c`, and `open_alloc` will find no slot. */
  ghost predicate BadOpen(s: State, c: nat) {
    s.pc.SAwait? && !s.box.recving && s.box.from == c && s.box.value == FSREQ_OPEN && TableFull(s)
  }

  ghost predicate OpenOk(s: State, i: nat, page: nat) {
    && i < MAXOPEN && FreeAt(s, i) && (forall j: nat | j < i :: !FreeAt(s, j))
    && (OpenSlot(i) !in s.pt ==> Fresh(s, page))
  }

  // ----- steps -----

  ghost predicate Enabled(s: State, e: Event) {
    match e
    case Store(c, vpn, _) => MayTouch(s, c, vpn) && MayWrite(s, Slot(c, vpn))
    case Fault(c, vpn, page) =>
      && MayTouch(s, c, vpn) && Slot(c, vpn) in s.pt && s.pt[Slot(c, vpn)].cow && !s.pt[Slot(c, vpn)].w
      && Fresh(s, page) && s.pt[Slot(c, vpn)].page in s.phys
    case Fork(c, child) =>
      Idle(s, c) && child !in s.cl && child != SERVER && (forall x | x in s.pt :: x.env != child)
    case Alloc(c, vpn, page, lib) => Idle(s, c) && vpn != s.cl[c].buf && Fresh(s, page)
    case Unmap(c, vpn) => Idle(s, c) && vpn != s.cl[c].buf
    case Call(c, kind, dst) => Idle(s, c) && Known(kind) && dst != s.cl[c].buf
    case TrySend(c) => c in s.cl && s.cl[c].pc.CSending? && Slot(c, s.cl[c].buf) in s.pt
    case Receive(c) => c in s.cl && s.cl[c].pc.CSent?
    case Return(c) => Runs(s, c) && (s.cl[c].pc.CAwait? || s.cl[c].pc.CListen?)
    case Listen(c, dst) => Idle(s, c) && dst != s.cl[c].buf
    case PeerSend(c, to, _, give, _) =>
      Idle(s, c) && to in s.cl && (give.Some? ==> give.value != s.cl[c].buf && Slot(c, give.value) in s.pt)
    case RawSend(c, _, give) => Idle(s, c) && (if give.Some? then Slot(c, give.value) in s.pt else ReqSlot() in s.pt)
    case Destroy(c) => Runs(s, c)
    case ServerReceive => s.pc.SLoop?
    case ServerDispatch(i, page) =>
      && s.pc.SAwait? && !s.box.recving && HasRequest(s)
      && (s.box.value == FSREQ_OPEN && !TableFull(s) ==> OpenOk(s, i, page))
    case ServerStore(vpn, _) => !s.box.recving && MayWrite(s, Slot(SERVER, vpn))
    case ServerAlloc(vpn, page) =>
      && !s.box.recving && vpn != REQ && !(FILES <= vpn < FILES + MAXOPEN)
      && Slot(SERVER, vpn) !in s.pt && Fresh(s, page)
    case ServerFinish(_, give) => (s.pc.SServe? || s.pc.SOn?) && HasRequest(s) && give != Some(REQ)
    case ServerReply => s.pc.SReply?
  }

  predicate HasRequest(s: State) { ReqSlot() in s.pt && s.pt[ReqSlot()].page in s.phys }

  /** What the handler reads at REQVA. */
  function Request(s: State): int
    requires HasRequest(s)
  {
    s.phys[s.pt[ReqSlot()].page]
  }

  function SetClient(s: State, c: nat, x: Client): State {
    s.(cl := s.cl[c := x])
  }

  function MapNew(s: State, x: Slot, page: nat, lib: bool): State {
    s.(pt := s.pt[x := Pte(page, true, false, lib)], phys := s.phys[page := 0])
  }

  /** The page at `y`, if there is one, comes to be mapped at `x` as well. */
  function GiveTable(s: State, x: Slot, y: Slot, t: Pte): map<Slot, Pte> {
    if y in s.pt then s.pt[x := t.(page := s.pt[y].page)] else s.pt
  }

  /** A send to the server, which is receiving, as request number `n`. */
  function ToServer(s: State, c: nat, kind: int, y: Option<Slot>, n: nat): State {
    s.(box := Mailbox(false, kind, c), req := n,
       pt := if y.Some? then GiveTable(s, ReqSlot(), y.value, Pte(0, true, false, false)) else s.pt)
  }

  /** `serve_open` with a slot: `open_alloc` maps the slot's page if need be and clears it. */
  function TakeSlot(s: State, i: nat, page: nat): State {
    if OpenSlot(i) in s.pt then s.(phys := s.phys[s.pt[OpenSlot(i)].page := 0]) else MapNew(s, OpenSlot(i), page, true)
  }

  ghost function Dispatch(s: State, i: nat, page: nat): State
    requires HasRequest(s)
  {
    var c, kind := s.box.from, s.box.value;
    if !Known(kind) then s.(pc := SLoop)
    else if kind != FSREQ_OPEN then s.(pc := SServe(c, kind))
    else if TableFull(s) then
      s.(pc := SReply(c, E_MAX_OPEN, None, First),
         log := s.log + [Served(c, s.req, kind, Request(s), E_MAX_OPEN)])
    else TakeSlot(s, i, page).(pc := SServe(c, kind))
  }

  function Finish(s: State, result: int, give: Option<nat>): State
    requires (s.pc.SServe? || s.pc.SOn?) && HasRequest(s)
  {
    var c := s.pc.whom;
    if s.pc.SOn? then s.(pc := SReply(c, result, give, Second))
    else
      s.(pc := SReply(c, result, give, Only), log := s.log + [Served(c, s.req, s.pc.kind, Request(s), result)])
  }

  /** A send to client `c`, which is receiving. */
  function ToClient(s: State, c: nat, v: int, from: nat, y: Option<Slot>, t: Pte): State
    requires c in s.cl && (s.cl[c].pc.CAwait? || s.cl[c].pc.CListen?)
  {
    var x := s.cl[c];
    SetClient(s, c, x.(box := Mailbox(false, v, from)))
      .(pt := if y.Some? then GiveTable(s, Slot(c, x.pc.dst), y.value, t) else s.pt)
  }

  predicate Receiving(s: State, c: nat) {
    c in s.cl && s.cl[c].box.recving && (s.cl[c].pc.CAwait? || s.cl[c].pc.CListen?)
  }

  function ServerSlot(give: Option<nat>): Option<Slot> {
    if give.Some? then Some(Slot(SERVER, give.value)) else None
  }

  function ClientSlot(c: nat, give: Option<nat>): Option<Slot> {
    if give.Some? then Some(Slot(c, give.value)) else None
  }

  /** One turn of the server's `ipc_send`: it succeeds if the environment at that index is receiving, in
      `fsipc` or not. */
  function Reply(s: State): State
    requires s.pc.SReply?
  {
    var c := s.pc.whom;
    if !Receiving(s, c) then s
    else
      ToClient(s, c, s.pc.result, SERVER, ServerSlot(s.pc.give), Pte(0, true, false, true))
        .(pc := if s.pc.stage == First then SOn(c) else SLoop,
          answers := if s.cl[c].pc.CAwait? then s.answers[s.req := s.pc.result] else s.answers)
  }

  /** `env_free` and `env_destroy`: the address space goes, but for what its library entries refer to. */
  function Remains(s: State, c: nat): State {
    s.(cl := s.cl - {c}, pt := map x | x in s.pt && x.env != c :: s.pt[x],
       leaked := s.leaked + set x | x in s.pt && x.env == c && s.pt[x].lib :: s.pt[x].page)
  }

  ghost function Step(s: State, e: Event): State
    requires Enabled(s, e)
  {
    match e
    case Store(c, vpn, v) => s.(phys := s.phys[s.pt[Slot(c, vpn)].page := v])
    case Fault(c, vpn, page) =>
      s.(pt := s.pt[Slot(c, vpn) := Pte(page, true, false, false)],
         phys := s.phys[page := s.phys[s.pt[Slot(c, vpn)].page]])
    case Fork(c, child) =>
      s.(pt := ForkTable(s, c, child), stamp := s.stamp + 1,
         cl := s.cl[child := Client(CIdle, s.cl[c].buf, s.stamp, Mailbox(false, 0, 0))])
    case Alloc(c, vpn, page, lib) => MapNew(s, Slot(c, vpn), page, lib)
    case Unmap(c, vpn) => s.(pt := s.pt - {Slot(c, vpn)})
    case Call(c, kind, dst) =>
      SetClient(s, c, s.cl[c].(pc := CSending(kind, dst), call := s.stamp)).(stamp := s.stamp + 1)
    case TrySend(c) =>
      if !s.box.recving then s
      else
        var x := s.cl[c];
        SetClient(ToServer(s, c, x.pc.kind, Some(Slot(c, x.buf)), x.call), c, x.(pc := CSent(x.pc.kind, x.pc.dst)))
    case Receive(c) =>
      var x := s.cl[c];
      SetClient(s, c, x.(pc := CAwait(x.pc.kind, x.pc.dst), box := x.box.(recving := true)))
    case Return(c) => SetClient(s, c, s.cl[c].(pc := CIdle))
    case Listen(c, dst) => SetClient(s, c, s.cl[c].(pc := CListen(dst), box := s.cl[c].box.(recving := true)))
    case PeerSend(c, to, v, give, t) => if Receiving(s, to) then ToClient(s, to, v, c, ClientSlot(c, give), t) else s
    case RawSend(c, kind, give) =>
      if !s.box.recving then s else ToServer(s, c, kind, ClientSlot(c, give), s.stamp).(stamp := s.stamp + 1)
    case Destroy(c) => Remains(s, c)
    case ServerReceive => s.(pc := SAwait, box := s.box.(recving := true))
    case ServerDispatch(i, page) => Dispatch(s, i, page)
    case ServerStore(vpn, v) => s.(phys := s.phys[s.pt[Slot(SERVER, vpn)].page := v])
    case ServerAlloc(vpn, page) => MapNew(s, Slot(SERVER, vpn), page, false)
    case ServerFinish(result, give) => Finish(s, result, give)
    case ServerReply => Reply(s)
  }

  // ----- who is served -----

  /** The environment whose request the server has taken and is not done with. */
  function Engaged(s: State): Option<nat> {
    match s.pc
    case SLoop => None
    case SAwait => if s.box.recving then None else Some(s.box.from)
    case SServe(whom, _) => Some(whom)
    case SReply(whom, _, _, _) => Some(whom)
    case SOn(whom) => Some(whom)
  }

  /** The reply that goes out next is the first one for the request. */
  predicate Unreplied(s: State) { !s.pc.SOn? && (s.pc.SReply? ==> s.pc.stage != Second) }

  /** A client that has sent a request in `fsipc` and has no answer yet. */
  predicate Awaiting(s: State, c: nat) {
    && c in s.cl
    && (s.cl[c].pc.CSent? || (s.cl[c].pc.CAwait? && s.cl[c].box.recving))
  }

  /** What the server knows of the request it is at. */
  predicate AtRequest(s: State, kind: int) {
    match s.pc
    case SAwait => s.box.value == kind
    case SServe(_, k) => k == kind
    case _ => true
  }

  /** A client that awaits an answer has its request with the server. */
  predicate Heard(s: State, c: nat)
    requires c in s.cl && InCall(s.cl[c].pc)
  {
    && Engaged(s) == Some(c) && Unreplied(s) && s.req == s.cl[c].call
    && AtRequest(s, s.cl[c].pc.kind) && Known(s.cl[c].pc.kind)
  }

  predicate ClientOk(s: State, c: nat)
    requires c in s.cl
  {
    var x := s.cl[c];
    && (x.box.recving ==> x.pc.CAwait? || x.pc.CListen?)
    && (!x.pc.CIdle? ==> x.pc.dst != x.buf)
    && (InCall(x.pc) ==> Known(x.pc.kind))
    && (Awaiting(s, c) ==> Heard(s, c))
  }

  /** The protocol, in every state that any run reaches. */
  ghost predicate Protocol(s: State) {
    && SERVER !in s.cl && (s.box.recving ==> s.pc.SAwait?) && (s.pc.SReply? ==> s.pc.give != Some(REQ))
    && (forall c | c in s.cl :: ClientOk(s, c))
  }

  /** What clients do to their memory, and `fork`. */
  predicate LocalEvent(e: Event) { e.Store? || e.Fault? || e.Fork? || e.Alloc? || e.Unmap? }

  predicate CallEvent(e: Event) { e.Call? || e.TrySend? || e.Receive? || e.Return? }

  predicate OtherEvent(e: Event) { e.Listen? || e.PeerSend? || e.RawSend? || e.Destroy? }

  predicate IpcEvent(e: Event) { CallEvent(e) || OtherEvent(e) }

  predicate ServerEvent(e: Event) { !LocalEvent(e) && !IpcEvent(e) }

  lemma LocalProtocol(s: State, e: Event)
    requires Protocol(s) && Enabled(s, e) && LocalEvent(e)
    ensures Protocol(Step(s, e))
  {
  }

  lemma CallProtocol(s: State, e: Event)
    requires Protocol(s) && Enabled(s, e) && CallEvent(e)
    ensures Protocol(Step(s, e))
  {
  }

  lemma OtherProtocol(s: State, e: Event)
    requires Protocol(s) && Enabled(s, e) && OtherEvent(e)
    ensures Protocol(Step(s, e))
  {
  }

  lemma ServerProtocol(s: State, e: Event)
    requires Protocol(s) && Enabled(s, e) && !LocalEvent(e) && !CallEvent(e) && !OtherEvent(e)
    ensures Protocol(Step(s, e))
  {
  }

  /** Every event keeps it. */
  lemma ProtocolKept(s: State, e: Event)
    requires Protocol(s) && Enabled(s, e)
    ensures Protocol(Step(s, e))
  {
    if LocalEvent(e) {
      LocalProtocol(s, e);
    } else if CallEvent(e) {
      CallProtocol(s, e);
    } else if OtherEvent(e) {
      OtherProtocol(s, e);
    } else {
      ServerProtocol(s, e);
    }
  }

  // ----- who can change which page -----

  function BufSlot(s: State, c: nat): Slot
    requires c in s.cl
  {
    Slot(c, s.cl[c].buf)
  }

  /** The slot is some client's buffer. */
  predicate IsBuf(s: State, x: Slot) { x.env in s.cl && x.vpn == s.cl[x.env].buf }

  /** The page of a client's buffer shows nowhere else, but at REQVA and, copy-on-write on both sides, in
      the buffers of relatives. */
  ghost predicate Alone(s: State) {
    forall x, y | x in s.pt && IsBuf(s, x) && y in s.pt && y != x && y != ReqSlot() && s.pt[y].page == s.pt[x].page ::
      IsBuf(s, y) && !s.pt[y].w && !s.pt[x].w
  }

  ghost predicate Buffers(s: State) {
    forall c | c in s.cl :: BufSlot(s, c) in s.pt && !s.pt[BufSlot(s, c)].lib
  }

  predicate AtReqva(s: State, c: nat)
    requires c in s.cl && BufSlot(s, c) in s.pt
  {
    ReqSlot() in s.pt && s.pt[ReqSlot()].w && s.pt[ReqSlot()].page == s.pt[BufSlot(s, c)].page
  }

  /** The page at REQVA is the buffer of the client that awaits an answer, and it is writable there. */
  ghost predicate Presented(s: State) {
    forall c: nat | Awaiting(s, c) && BufSlot(s, c) in s.pt :: AtReqva(s, c)
  }

  ghost predicate Housed(s: State) {
    forall x | x in s.pt :: s.pt[x].page in s.phys && (x.env == SERVER || x.env in s.cl)
  }

  ghost predicate Memory(s: State) { Alone(s) && Buffers(s) && Presented(s) && Housed(s) }

  ghost predicate SameBufs(s: State, s': State) {
    s'.cl.Keys == s.cl.Keys && forall c | c in s.cl :: s'.cl[c].buf == s.cl[c].buf
  }

  /** Mapping a page that nobody has. */
  lemma AloneFresh(s: State, s': State, x: Slot, t: Pte)
    requires Alone(s) && Fresh(s, t.page) && s'.pt == s.pt[x := t] && SameBufs(s, s')
    ensures Alone(s')
  {
  }

  lemma AloneReqva(s: State, s': State, t: Pte)
    requires Alone(s) && SERVER !in s.cl && s'.pt == s.pt[ReqSlot() := t] && SameBufs(s, s')
    ensures Alone(s')
  {
  }

  /** Giving a client a page that is nobody's buffer, at a place that is not its buffer. */
  lemma AloneGift(s: State, s': State, x: Slot, y: Slot, t: Pte)
    requires Alone(s) && y in s.pt && !IsBuf(s, y) && y != ReqSlot() && !IsBuf(s, x)
    requires s'.pt == s.pt[x := t] && t.page == s.pt[y].page && SameBufs(s, s')
    ensures Alone(s')
  {
  }

  lemma AloneLess(s: State, s': State)
    requires Alone(s) && (forall x | x in s'.pt :: x in s.pt && s'.pt[x] == s.pt[x])
    requires forall x | x in s'.pt :: IsBuf(s', x) <==> IsBuf(s, x)
    ensures Alone(s')
  {
  }

  lemma ForkSlots(s: State, c: nat, child: nat)
    requires c != child && forall x | x in s.pt :: x.env != child
    ensures forall x :: x in ForkTable(s, c, child) <==>
              if x.env == child then Slot(c, x.vpn) in s.pt else x in s.pt
    ensures forall x | x in ForkTable(s, c, child) ::
              ForkTable(s, c, child)[x] ==
                if x.env == child then Shared(s.pt[Slot(c, x.vpn)])
                else if x.env == c then Shared(s.pt[x]) else s.pt[x]
  {
    forall x: Slot | x.env == child ensures x in ForkTable(s, c, child) <==> Slot(c, x.vpn) in s.pt {
      assert x == Slot(child, Slot(c, x.vpn).vpn);
    }
  }

  /** Where the mapping at `x` was before `c` forked `child`. */
  function Origin(x: Slot, c: nat, child: nat): Slot { if x.env == child then Slot(c, x.vpn) else x }

  function Forked(s: State, c: nat, child: nat, x: Slot): Pte
    requires Origin(x, c, child) in s.pt
  {
    if x.env == child || x.env == c then Shared(s.pt[Origin(x, c, child)]) else s.pt[x]
  }

  lemma ForkPair(s: State, s': State, c: nat, child: nat, x: Slot, y: Slot)
    requires Alone(s) && Buffers(s) && c in s.cl && child !in s.cl && SERVER !in s.cl
    requires s'.cl.Keys == s.cl.Keys + {child} && s'.cl[child].buf == s.cl[c].buf
    requires forall d | d in s.cl :: s'.cl[d].buf == s.cl[d].buf
    requires x != y && y != ReqSlot() && child != SERVER
    requires Origin(x, c, child) in s.pt && Origin(y, c, child) in s.pt && IsBuf(s', x)
    requires Forked(s, c, child, x).page == Forked(s, c, child, y).page
    ensures IsBuf(s', y) && !Forked(s, c, child, y).w && !Forked(s, c, child, x).w
  {
    var x0, y0 := Origin(x, c, child), Origin(y, c, child);
    assert IsBuf(s, x0) && y0 != ReqSlot() && x0 == BufSlot(s, x0.env);
    assert x0 != y0 ==> IsBuf(s, y0) && y0 == BufSlot(s, y0.env);
  }

  lemma AloneForked(s: State, s': State, c: nat, child: nat)
    requires Alone(s) && Buffers(s) && c in s.cl && child !in s.cl && SERVER !in s.cl && child != SERVER
    requires s'.cl.Keys == s.cl.Keys + {child} && s'.cl[child].buf == s.cl[c].buf
    requires forall d | d in s.cl :: s'.cl[d].buf == s.cl[d].buf
    requires forall x | x in s'.pt :: Origin(x, c, child) in s.pt && s'.pt[x] == Forked(s, c, child, x)
    ensures Alone(s')
  {
    forall x, y | x in s'.pt && IsBuf(s', x) && y in s'.pt && y != x && y != ReqSlot() && s'.pt[y].page == s'.pt[x].page
      ensures IsBuf(s', y) && !s'.pt[y].w && !s'.pt[x].w
    {
      ForkPair(s, s', c, child, x, y);
    }
  }

  lemma ForkedFrom(s: State, c: nat, child: nat)
    requires c != child && forall x | x in s.pt :: x.env != child
    ensures forall x | x in ForkTable(s, c, child) ::
              Origin(x, c, child) in s.pt && ForkTable(s, c, child)[x] == Forked(s, c, child, x)
  {
    ForkSlots(s, c, child);
  }

  lemma AloneForkTable(s: State, s': State, c: nat, child: nat)
    requires Alone(s) && Buffers(s) && SERVER !in s.cl && c in s.cl && child !in s.cl && child != SERVER
    requires forall x | x in s.pt :: x.env != child
    requires s'.pt == ForkTable(s, c, child) && s'.cl.Keys == s.cl.Keys + {child} && s'.cl[child].buf == s.cl[c].buf
    requires forall d | d in s.cl :: s'.cl[d].buf == s.cl[d].buf
    ensures Alone(s')
  {
    ForkedFrom(s, c, child);
    AloneForked(s, s', c, child);
  }

  lemma AloneFork(s: State, c: nat, child: nat)
    requires Alone(s) && Buffers(s) && SERVER !in s.cl && Enabled(s, Fork(c, child))
    ensures Alone(Step(s, Fork(c, child)))
  {
    AloneForkTable(s, Step(s, Fork(c, child)), c, child);
  }

  // ----- what one event touches -----

  /** The slot whose entry an event may change; `fork` and destruction change more. */
  function Touched(s: State, e: Event): Option<Slot> {
    match e
    case Fault(c, vpn, _) => Some(Slot(c, vpn))
    case Alloc(c, vpn, _, _) => Some(Slot(c, vpn))
    case Unmap(c, vpn) => Some(Slot(c, vpn))
    case TrySend(_) => Some(ReqSlot())
    case RawSend(_, _, _) => Some(ReqSlot())
    case PeerSend(_, to, _, _, _) => if Receiving(s, to) then Some(Slot(to, s.cl[to].pc.dst)) else None
    case ServerDispatch(i, _) => Some(OpenSlot(i))
    case ServerAlloc(vpn, _) => Some(Slot(SERVER, vpn))
    case ServerReply =>
      if s.pc.SReply? && Receiving(s, s.pc.whom) then Some(Slot(s.pc.whom, s.cl[s.pc.whom].pc.dst)) else None
    case _ => None
  }

  predicate Single(e: Event) { !e.Fork? && !e.Destroy? }

  lemma EntriesElsewhere(s: State, e: Event, y: Slot)
    requires Enabled(s, e) && Single(e) && Touched(s, e) != Some(y)
    ensures y in Step(s, e).pt <==> y in s.pt
    ensures y in s.pt ==> Step(s, e).pt[y] == s.pt[y]
  {
    if LocalEvent(e) {
      EntriesElsewhereLocal(s, e, y);
    } else if IpcEvent(e) {
      EntriesElsewhereIpc(s, e, y);
    } else {
      EntriesElsewhereServer(s, e, y);
    }
  }

  lemma EntriesElsewhereLocal(s: State, e: Event, y: Slot)
    requires LocalEvent(e)
    requires Enabled(s, e) && Single(e) && Touched(s, e) != Some(y)
    ensures y in Step(s, e).pt <==> y in s.pt
    ensures y in s.pt ==> Step(s, e).pt[y] == s.pt[y]
  {
  }

  lemma EntriesElsewhereIpc(s: State, e: Event, y: Slot)
    requires IpcEvent(e)
    requires Enabled(s, e) && Single(e) && Touched(s, e) != Some(y)
    ensures y in Step(s, e).pt <==> y in s.pt
    ensures y in s.pt ==> Step(s, e).pt[y] == s.pt[y]
  {
  }

  lemma EntriesElsewhereServer(s: State, e: Event, y: Slot)
    requires ServerEvent(e)
    requires Enabled(s, e) && Single(e) && Touched(s, e) != Some(y)
    ensures y in Step(s, e).pt <==> y in s.pt
    ensures y in s.pt ==> Step(s, e).pt[y] == s.pt[y]
  {
  }

  /** The entry through which an event may change a page that somebody has mapped. */
  function Through(e: Event): Option<Slot> {
    match e
    case Store(c, vpn, _) => Some(Slot(c, vpn))
    case ServerStore(vpn, _) => Some(Slot(SERVER, vpn))
    case ServerDispatch(i, _) => Some(OpenSlot(i))
    case _ => None
  }

  /** The page whose contents an event may change, of those that somebody has mapped. */
  function Written(s: State, e: Event): Option<nat> {
    if Through(e).Some? && Through(e).value in s.pt then Some(s.pt[Through(e).value].page) else None
  }

  lemma ContentsElsewhere(s: State, e: Event, x: Slot)
    requires Enabled(s, e) && x in s.pt && s.pt[x].page in s.phys && Written(s, e) != Some(s.pt[x].page)
    ensures s.pt[x].page in Step(s, e).phys && Step(s, e).phys[s.pt[x].page] == s.phys[s.pt[x].page]
  {
    if LocalEvent(e) {
      ContentsElsewhereLocal(s, e, x);
    } else if IpcEvent(e) {
      ContentsElsewhereIpc(s, e, x);
    } else {
      ContentsElsewhereServer(s, e, x);
    }
  }

  lemma ContentsElsewhereLocal(s: State, e: Event, x: Slot)
    requires LocalEvent(e)
    requires Enabled(s, e) && x in s.pt && s.pt[x].page in s.phys && Written(s, e) != Some(s.pt[x].page)
    ensures s.pt[x].page in Step(s, e).phys && Step(s, e).phys[s.pt[x].page] == s.phys[s.pt[x].page]
  {
  }

  lemma ContentsElsewhereIpc(s: State, e: Event, x: Slot)
    requires IpcEvent(e)
    requires Enabled(s, e) && x in s.pt && s.pt[x].page in s.phys && Written(s, e) != Some(s.pt[x].page)
    ensures s.pt[x].page in Step(s, e).phys && Step(s, e).phys[s.pt[x].page] == s.phys[s.pt[x].page]
  {
  }

  lemma ContentsElsewhereServer(s: State, e: Event, x: Slot)
    requires ServerEvent(e)
    requires Enabled(s, e) && x in s.pt && s.pt[x].page in s.phys && Written(s, e) != Some(s.pt[x].page)
    ensures s.pt[x].page in Step(s, e).phys && Step(s, e).phys[s.pt[x].page] == s.phys[s.pt[x].page]
  {
  }

  /** What becomes of a client: it keeps its buffer's address, is in a call only by its own doing, and goes
      only by being destroyed. */
  lemma ClientsElsewhere(s: State, e: Event, c: nat)
    requires Enabled(s, e) && c in s.cl && e != Destroy(c)
    ensures c in Step(s, e).cl && Step(s, e).cl[c].buf == s.cl[c].buf
    ensures Step(s, e).cl[c].call == if e.Call? && e.c == c then s.stamp else s.cl[c].call
    ensures InCall(s.cl[c].pc) && InCall(Step(s, e).cl[c].pc) ==> Step(s, e).cl[c].pc.kind == s.cl[c].pc.kind
    ensures !InCall(s.cl[c].pc) && InCall(Step(s, e).cl[c].pc) ==> e.Call? && e.c == c
  {
    if LocalEvent(e) {
      ClientsElsewhereLocal(s, e, c);
    } else if IpcEvent(e) {
      ClientsElsewhereIpc(s, e, c);
    } else {
      ClientsElsewhereServer(s, e, c);
    }
  }

  lemma ClientsElsewhereLocal(s: State, e: Event, c: nat)
    requires Enabled(s, e) && c in s.cl && LocalEvent(e)
    ensures c in Step(s, e).cl && Step(s, e).cl[c] == s.cl[c]
  {
  }

  lemma ClientsElsewhereIpc(s: State, e: Event, c: nat)
    requires IpcEvent(e)
    requires Enabled(s, e) && c in s.cl && e != Destroy(c)
    ensures c in Step(s, e).cl && Step(s, e).cl[c].buf == s.cl[c].buf
    ensures Step(s, e).cl[c].call == if e.Call? && e.c == c then s.stamp else s.cl[c].call
    ensures InCall(s.cl[c].pc) && InCall(Step(s, e).cl[c].pc) ==> Step(s, e).cl[c].pc.kind == s.cl[c].pc.kind
    ensures !InCall(s.cl[c].pc) && InCall(Step(s, e).cl[c].pc) ==> e.Call? && e.c == c
  {
  }

  lemma ClientsElsewhereServer(s: State, e: Event, c: nat)
    requires Enabled(s, e) && c in s.cl && ServerEvent(e)
    ensures c in Step(s, e).cl && Step(s, e).cl[c] == s.cl[c].(box := Step(s, e).cl[c].box)
    ensures Step(s, e).cl[c].box == s.cl[c].box
            || (e.ServerReply? && s.pc.SReply? && s.pc.whom == c && Receiving(s, c)
                && Step(s, e).cl[c].box == Mailbox(false, s.pc.result, SERVER))
  {
  }

  lemma SameClients(s: State, e: Event)
    requires Enabled(s, e) && Single(e)
    ensures SameBufs(s, Step(s, e))
  {
    if CallEvent(e) {
      SameCallers(s, e);
    } else if OtherEvent(e) {
      SamePeers(s, e);
    } else {
      SameOthers(s, e);
    }
  }

  lemma SameCallers(s: State, e: Event)
    requires Enabled(s, e) && CallEvent(e)
    ensures SameBufs(s, Step(s, e))
  {
  }

  lemma SamePeers(s: State, e: Event)
    requires Enabled(s, e) && Single(e) && OtherEvent(e)
    ensures SameBufs(s, Step(s, e))
  {
  }

  lemma SameOthers(s: State, e: Event)
    requires Enabled(s, e) && Single(e) && !CallEvent(e) && !OtherEvent(e)
    ensures SameBufs(s, Step(s, e))
  {
  }

  // ----- every event keeps the pages in order -----

  lemma AloneLocal(s: State, e: Event)
    requires Protocol(s) && Alone(s) && Buffers(s) && Enabled(s, e) && LocalEvent(e) && Single(e)
    ensures Alone(Step(s, e))
  {
    var s' := Step(s, e);
    SameClients(s, e);
    match e
    case Fault(c, vpn, page) => AloneFresh(s, s', Slot(c, vpn), Pte(page, true, false, false));
    case Alloc(c, vpn, page, lib) => AloneFresh(s, s', Slot(c, vpn), Pte(page, true, false, lib));
    case _ => AloneLess(s, s');
  }

  lemma AloneIpc(s: State, e: Event)
    requires Protocol(s) && Alone(s) && Buffers(s) && Enabled(s, e) && IpcEvent(e) && Single(e)
    ensures Alone(Step(s, e))
  {
    var s' := Step(s, e);
    SameClients(s, e);
    if s'.pt == s.pt {
      AloneLess(s, s');
    } else if e.PeerSend? {
      AlonePeer(s, e);
    } else {
      AloneReqva(s, s', s'.pt[ReqSlot()]);
    }
  }

  lemma AlonePeer(s: State, e: Event)
    requires Protocol(s) && Alone(s) && Enabled(s, e) && e.PeerSend? && Receiving(s, e.to) && e.give.Some?
    ensures Alone(Step(s, e))
  {
    var x, y := Slot(e.to, s.cl[e.to].pc.dst), Slot(e.c, e.give.value);
    assert ClientOk(s, e.to);
    AloneGift(s, Step(s, e), x, y, e.t.(page := s.pt[y].page));
  }

  lemma AloneServed(s: State, e: Event)
    requires Protocol(s) && Alone(s) && Buffers(s) && Enabled(s, e) && !CallEvent(e) && !OtherEvent(e) && !LocalEvent(e)
    ensures Alone(Step(s, e))
  {
    var s' := Step(s, e);
    SameClients(s, e);
    if s'.pt == s.pt {
      AloneLess(s, s');
    } else if e.ServerReply? {
      var x, y := Slot(s.pc.whom, s.cl[s.pc.whom].pc.dst), Slot(SERVER, s.pc.give.value);
      AloneGift(s, s', x, y, Pte(s.pt[y].page, true, false, true));
    } else if e.ServerAlloc? {
      AloneFresh(s, s', Slot(SERVER, e.vpn), Pte(e.page, true, false, false));
    } else {
      AloneFresh(s, s', OpenSlot(e.i), Pte(e.page, true, false, true));
    }
  }

  lemma AloneDestroyed(s: State, c: nat)
    requires Alone(s) && Enabled(s, Destroy(c))
    ensures Alone(Step(s, Destroy(c)))
  {
    AloneLess(s, Step(s, Destroy(c)));
  }

  lemma AloneKept(s: State, e: Event)
    requires Protocol(s) && Alone(s) && Buffers(s) && Enabled(s, e)
    ensures Alone(Step(s, e))
  {
    if e.Fork? {
      AloneFork(s, e.c, e.child);
    } else if e.Destroy? {
      AloneDestroyed(s, e.c);
    } else if LocalEvent(e) {
      AloneLocal(s, e);
    } else if IpcEvent(e) {
      AloneIpc(s, e);
    } else {
      AloneServed(s, e);
    }
  }

  /** Apart from `fork`, only its own copy-on-write fault gives a client's buffer another entry. */
  lemma BufferEntry(s: State, e: Event, c: nat)
    requires Protocol(s) && Enabled(s, e) && Single(e) && c in s.cl && BufSlot(s, c) in s.pt
    ensures BufSlot(s, c) in Step(s, e).pt
    ensures Step(s, e).pt[BufSlot(s, c)] == s.pt[BufSlot(s, c)]
            || (!InCall(s.cl[c].pc) && e.Fault? && Step(s, e).pt[BufSlot(s, c)] == Pte(e.page, true, false, false))
  {
    var x := BufSlot(s, c);
    if Touched(s, e) != Some(x) { EntriesElsewhere(s, e, x); }
  }

  lemma ForkedEntry(s: State, c: nat, child: nat, d: nat)
    requires Enabled(s, Fork(c, child)) && d in s.cl && BufSlot(s, d) in s.pt
    ensures BufSlot(s, d) in Step(s, Fork(c, child)).pt
    ensures Step(s, Fork(c, child)).pt[BufSlot(s, d)] ==
            if d == c then Shared(s.pt[BufSlot(s, d)]) else s.pt[BufSlot(s, d)]
    ensures d == c ==> Slot(child, s.cl[c].buf) in Step(s, Fork(c, child)).pt
                       && Step(s, Fork(c, child)).pt[Slot(child, s.cl[c].buf)] == Shared(s.pt[BufSlot(s, c)])
  {
    ForkSlots(s, c, child);
  }

  lemma BuffersForked(s: State, c: nat, child: nat)
    requires Buffers(s) && Enabled(s, Fork(c, child))
    ensures Buffers(Step(s, Fork(c, child)))
  {
    var s' := Step(s, Fork(c, child));
    forall d | d in s'.cl ensures BufSlot(s', d) in s'.pt && !s'.pt[BufSlot(s', d)].lib {
      ForkedEntry(s, c, child, if d == child then c else d);
    }
  }

  lemma BuffersKept(s: State, e: Event)
    requires Protocol(s) && Buffers(s) && Enabled(s, e)
    ensures Buffers(Step(s, e))
  {
    if e.Fork? {
      BuffersForked(s, e.c, e.child);
    } else if Single(e) {
      var s' := Step(s, e);
      SameClients(s, e);
      forall c | c in s'.cl ensures BufSlot(s', c) in s'.pt && !s'.pt[BufSlot(s', c)].lib {
        BufferEntry(s, e, c);
      }
    }
  }

  /** While a client is in a call the entry of its buffer stays, whatever the others do. */
  lemma EntryInCall(s: State, e: Event, c: nat)
    requires Protocol(s) && Enabled(s, e) && e != Destroy(c) && c in s.cl && InCall(s.cl[c].pc) && BufSlot(s, c) in s.pt
    ensures BufSlot(s, c) in Step(s, e).pt && Step(s, e).pt[BufSlot(s, c)] == s.pt[BufSlot(s, c)]
  {
    if e.Fork? {
      ForkedEntry(s, e.c, e.child, c);
    } else if Single(e) {
      BufferEntry(s, e, c);
    }
  }

  /** ... and while one awaits an answer, so does the entry at REQVA. */
  lemma ReqvaEntry(s: State, e: Event, c: nat)
    requires Protocol(s) && Enabled(s, e) && Awaiting(s, c) && ReqSlot() in s.pt
    ensures ReqSlot() in Step(s, e).pt && Step(s, e).pt[ReqSlot()] == s.pt[ReqSlot()]
  {
    assert ClientOk(s, c);
    if e.Fork? {
      ForkSlots(s, e.c, e.child);
    } else if Single(e) && !e.TrySend? && !e.RawSend? {
      EntriesElsewhere(s, e, ReqSlot());
    }
  }

  /** Only a delivered request makes a client await an answer. */
  lemma AwaitingFrom(s: State, e: Event, c: nat)
    requires Protocol(s) && Enabled(s, e) && Awaiting(Step(s, e), c)
    ensures Awaiting(s, c) || (e == TrySend(c) && s.box.recving && c in s.cl && s.cl[c].pc.CSending?)
  {
    if IpcEvent(e) { AwaitingFromIpc(s, e, c); } else { AwaitingElsewhere(s, e, c); }
  }

  lemma AwaitingElsewhere(s: State, e: Event, c: nat)
    requires Protocol(s) && Enabled(s, e) && !IpcEvent(e) && Awaiting(Step(s, e), c)
    ensures Awaiting(s, c)
  {
    if c in s.cl { if LocalEvent(e) { ClientsElsewhereLocal(s, e, c); } else { ClientsElsewhereServer(s, e, c); } }
  }

  lemma AwaitingFromIpc(s: State, e: Event, c: nat)
    requires Protocol(s) && Enabled(s, e) && IpcEvent(e) && Awaiting(Step(s, e), c)
    ensures Awaiting(s, c) || (e == TrySend(c) && s.box.recving && c in s.cl && s.cl[c].pc.CSending?)
  {
  }

  lemma PresentedKept(s: State, e: Event)
    requires Protocol(s) && Buffers(s) && Presented(s) && Enabled(s, e)
    ensures Presented(Step(s, e))
  {
    var s' := Step(s, e);
    forall c: nat | Awaiting(s', c) && BufSlot(s', c) in s'.pt ensures AtReqva(s', c) {
      if Awaiting(s, c) {
        ClientsElsewhere(s, e, c);
        EntryInCall(s, e, c);
        ReqvaEntry(s, e, c);
      } else {
        AwaitingFrom(s, e, c);
        Delivered(s, c);
      }
    }
  }

  /** What a successful send does to the page tables. */
  lemma Delivered(s: State, c: nat)
    requires Protocol(s) && Enabled(s, TrySend(c)) && s.box.recving
    ensures var s' := Step(s, TrySend(c));
            && c in s'.cl && s'.cl[c].buf == s.cl[c].buf && BufSlot(s, c) in s'.pt
            && s'.pt[BufSlot(s, c)] == s.pt[BufSlot(s, c)]
            && ReqSlot() in s'.pt && s'.pt[ReqSlot()].page == s.pt[BufSlot(s, c)].page && s'.pt[ReqSlot()].w
  {
  }

  lemma HousedKept(s: State, e: Event)
    requires Housed(s) && Enabled(s, e)
    ensures Housed(Step(s, e))
  {
    if LocalEvent(e) {
      HousedKeptLocal(s, e);
    } else if CallEvent(e) {
      HousedKeptCall(s, e);
    } else if OtherEvent(e) {
      HousedKeptOther(s, e);
    } else {
      HousedKeptServer(s, e);
    }
  }

  lemma HousedKeptLocal(s: State, e: Event)
    requires LocalEvent(e)
    requires Housed(s) && Enabled(s, e)
    ensures Housed(Step(s, e))
  {
    if e.Fork? { HousedForked(s, e.c, e.child); }
  }

  lemma HousedKeptCall(s: State, e: Event)
    requires CallEvent(e)
    requires Housed(s) && Enabled(s, e)
    ensures Housed(Step(s, e))
  {
  }

  lemma HousedKeptOther(s: State, e: Event)
    requires OtherEvent(e)
    requires Housed(s) && Enabled(s, e)
    ensures Housed(Step(s, e))
  {
  }

  lemma HousedKeptServer(s: State, e: Event)
    requires ServerEvent(e)
    requires Housed(s) && Enabled(s, e)
    ensures Housed(Step(s, e))
  {
  }

  lemma HousedForked(s: State, c: nat, child: nat)
    requires Housed(s) && Enabled(s, Fork(c, child))
    ensures Housed(Step(s, Fork(c, child)))
  {
    ForkSlots(s, c, child);
  }

  lemma MemoryKept(s: State, e: Event)
    requires Protocol(s) && Memory(s) && Enabled(s, e)
    ensures Memory(Step(s, e))
  {
    AloneKept(s, e);
    BuffersKept(s, e);
    PresentedKept(s, e);
    HousedKept(s, e);
  }

  // ----- the request does not change under the handler -----

  /** A handler that changes what it is given: no handler of fs/serv.c does, they only read. */
  predicate Scribbles(e: Event) { e.ServerStore? && e.vpn == REQ }

  /** What the client's buffer holds. */
  function Contents(s: State, c: nat): int
    requires c in s.cl && BufSlot(s, c) in s.pt && s.pt[BufSlot(s, c)].page in s.phys
  {
    s.phys[s.pt[BufSlot(s, c)].page]
  }

  /** A page that somebody else can write, or that the server has besides REQVA, is not a buffer's. */
  lemma OtherPage(s: State, c: nat, y: Slot)
    requires Alone(s) && SERVER !in s.cl && c in s.cl && BufSlot(s, c) in s.pt
    requires y in s.pt && y != BufSlot(s, c) && y != ReqSlot() && (s.pt[y].w || y.env == SERVER)
    ensures s.pt[y].page != s.pt[BufSlot(s, c)].page
  {
    assert IsBuf(s, BufSlot(s, c));
  }

  lemma ThroughOther(s: State, e: Event, c: nat)
    requires SERVER !in s.cl && Enabled(s, e) && !Scribbles(e) && c in s.cl && InCall(s.cl[c].pc)
    requires Through(e).Some? && Through(e).value in s.pt
    ensures var y := Through(e).value; y != BufSlot(s, c) && y != ReqSlot() && (s.pt[y].w || y.env == SERVER)
  {
  }

  /** No store reaches the buffer of a client in a call: not a relative's, which would have to share
      the page writable, not the server's through its own pages, not the client's own. */
  lemma NotWritten(s: State, e: Event, c: nat)
    requires Protocol(s) && Memory(s) && Enabled(s, e) && !Scribbles(e) && c in s.cl && InCall(s.cl[c].pc)
    ensures Written(s, e) != Some(s.pt[BufSlot(s, c)].page)
  {
    assert BufSlot(s, c) in s.pt;
    if Through(e).Some? && Through(e).value in s.pt {
      ThroughOther(s, e, c);
      OtherPage(s, c, Through(e).value);
    }
  }

  lemma ContentsInCall(s: State, e: Event, c: nat)
    requires Protocol(s) && Memory(s) && Enabled(s, e) && !Scribbles(e) && e != Destroy(c)
    requires c in s.cl && InCall(s.cl[c].pc)
    ensures var s' := Step(s, e);
            && c in s'.cl && BufSlot(s', c) == BufSlot(s, c) && BufSlot(s, c) in s'.pt
            && s'.pt[BufSlot(s, c)] == s.pt[BufSlot(s, c)] && s'.pt[BufSlot(s, c)].page in s'.phys
            && Contents(s', c) == Contents(s, c)
  {
    ClientsElsewhere(s, e, c);
    EntryInCall(s, e, c);
    NotWritten(s, e, c);
    ContentsElsewhere(s, e, BufSlot(s, c));
  }

  // ----- numbers and the log -----

  /** Requests have numbers of their own, and none is answered twice. */
  ghost predicate LogOk(s: State) {
    && s.req < s.stamp && (forall c | c in s.cl :: s.cl[c].call < s.stamp)
    && (forall c, d | c in s.cl && d in s.cl && s.cl[c].call == s.cl[d].call :: c == d)
    && (forall c | c in s.cl && s.cl[c].pc.CSending? :: s.cl[c].call != s.req && !Logged(s, s.cl[c].call))
    && (forall i | 0 <= i < |s.log| :: s.log[i].call < s.stamp)
    && (forall i, j | 0 <= i < j < |s.log| :: s.log[i].call != s.log[j].call)
    && (Engaged(s).Some? && !s.pc.SReply? && !s.pc.SOn? ==> !Logged(s, s.req))
  }

  ghost predicate Logged(s: State, n: nat) { exists i :: 0 <= i < |s.log| && s.log[i].call == n }

  lemma SameLog(s: State, s': State)
    requires s'.log == s.log
    ensures forall n :: Logged(s', n) <==> Logged(s, n)
  {
  }

  /** The server has a request that it has not answered. */
  predicate Pending(s: State) { Engaged(s).Some? && !s.pc.SReply? && !s.pc.SOn? }

  /** Nothing happens that concerns numbers. */
  ghost predicate NoNumbers(s: State, s': State) {
    && s'.log == s.log && s'.req == s.req && s'.stamp == s.stamp && (Pending(s') ==> Pending(s))
    && (forall c | c in s'.cl :: c in s.cl && s'.cl[c].call == s.cl[c].call)
    && (forall c | c in s'.cl && s'.cl[c].pc.CSending? :: s.cl[c].pc.CSending?)
  }

  lemma LogFrame(s: State, s': State)
    requires LogOk(s) && NoNumbers(s, s')
    ensures LogOk(s')
  {
    SameLog(s, s');
  }

  predicate Numbering(s: State, e: Event) {
    e.Fork? || e.Call? || (s.box.recving && (e.TrySend? || e.RawSend?))
  }

  lemma NewNumber(s: State, s': State, c: nat)
    requires LogOk(s) && s'.log == s.log && s'.req == s.req && s'.stamp == s.stamp + 1
    requires s'.pc == s.pc && s'.box == s.box
    requires c in s'.cl && s'.cl[c].call == s.stamp && s'.cl.Keys == s.cl.Keys + {c}
    requires forall d | d in s'.cl && d != c :: s'.cl[d] == s.cl[d]
    ensures LogOk(s')
  {
    SameLog(s, s');
    assert !Logged(s, s.stamp);
  }

  lemma NewRequest(s: State, s': State, n: nat)
    requires LogOk(s) && s'.log == s.log && s'.req == n < s'.stamp && s'.stamp >= s.stamp && !Logged(s, n)
    requires s'.cl.Keys == s.cl.Keys && (forall d | d in s.cl :: s'.cl[d].call == s.cl[d].call)
    requires forall d | d in s.cl && s'.cl[d].pc.CSending? :: s.cl[d].pc.CSending? && s.cl[d].call != n
    ensures LogOk(s')
  {
    SameLog(s, s');
  }

  lemma LogNumbering(s: State, e: Event)
    requires Protocol(s) && LogOk(s) && Enabled(s, e) && Numbering(s, e)
    ensures LogOk(Step(s, e))
  {
    match e
    case Fork(c, child) => LogFork(s, c, child);
    case Call(c, kind, dst) => LogCall(s, c, kind, dst);
    case TrySend(c) => LogSend(s, c);
    case RawSend(c, kind, give) => LogRaw(s, c, kind, give);
  }

  lemma LogFork(s: State, c: nat, child: nat)
    requires LogOk(s) && Enabled(s, Fork(c, child))
    ensures LogOk(Step(s, Fork(c, child)))
  {
    NewNumber(s, Step(s, Fork(c, child)), child);
  }

  lemma LogCall(s: State, c: nat, kind: int, dst: nat)
    requires LogOk(s) && Enabled(s, Call(c, kind, dst))
    ensures LogOk(Step(s, Call(c, kind, dst)))
  {
    NewNumber(s, Step(s, Call(c, kind, dst)), c);
  }

  lemma LogSend(s: State, c: nat)
    requires Protocol(s) && LogOk(s) && Enabled(s, TrySend(c)) && s.box.recving
    ensures LogOk(Step(s, TrySend(c)))
  {
    NewRequest(s, Step(s, TrySend(c)), s.cl[c].call);
  }

  lemma LogRaw(s: State, c: nat, kind: int, give: Option<nat>)
    requires LogOk(s) && Enabled(s, RawSend(c, kind, give)) && s.box.recving
    ensures LogOk(Step(s, RawSend(c, kind, give)))
  {
    assert !Logged(s, s.stamp);
    NewRequest(s, Step(s, RawSend(c, kind, give)), s.stamp);
  }

  lemma QuietIpc(s: State, e: Event)
    requires Enabled(s, e) && !Numbering(s, e) && (LocalEvent(e) || CallEvent(e) || OtherEvent(e))
    ensures NoNumbers(s, Step(s, e))
  {
  }

  lemma QuietServer(s: State, e: Event)
    requires Protocol(s) && Enabled(s, e) && ServerEvent(e) && Step(s, e).log == s.log
    ensures NoNumbers(s, Step(s, e))
  {
    var s' := Step(s, e);
    QuietPending(s, e);
    forall c | c in s'.cl ensures c in s.cl && s'.cl[c].call == s.cl[c].call && s'.cl[c].pc == s.cl[c].pc {
      if c in s.cl { ClientsElsewhereServer(s, e, c); }
    }
  }

  lemma QuietPending(s: State, e: Event)
    requires Protocol(s) && Enabled(s, e) && ServerEvent(e) && Step(s, e).log == s.log
    ensures Step(s, e).req == s.req && Step(s, e).stamp == s.stamp && (Pending(Step(s, e)) ==> Pending(s))
  {
  }

  lemma LogAnswer(s: State, s': State, x: Served)
    requires LogOk(s) && Pending(s) && x.call == s.req
    requires s'.cl == s.cl && s'.log == s.log + [x] && s'.pc.SReply? && s'.req == s.req && s'.stamp == s.stamp
    ensures LogOk(s')
  {
    forall n | Logged(s', n) && n != x.call ensures Logged(s, n) {
    }
  }

  lemma LogKept(s: State, e: Event)
    requires Protocol(s) && LogOk(s) && Enabled(s, e)
    ensures LogOk(Step(s, e))
  {
    var s' := Step(s, e);
    if Numbering(s, e) {
      LogNumbering(s, e);
    } else if LocalEvent(e) || CallEvent(e) || OtherEvent(e) {
      QuietIpc(s, e);
      LogFrame(s, s');
    } else if s'.log == s.log {
      QuietServer(s, e);
      LogFrame(s, s');
    } else {
      LogAnswer(s, s', s'.log[|s.log|]);
    }
  }

  lemma LogGrows(s: State, e: Event)
    requires Enabled(s, e)
    ensures |s.log| <= |Step(s, e).log| && forall i | 0 <= i < |s.log| :: Step(s, e).log[i] == s.log[i]
  {
  }

  // ----- the answers -----

  /** The server has answered the call `c` is in with `result`, having read what `c` has in its buffer. */
  ghost predicate Answered(s: State, c: nat, result: int)
    requires c in s.cl && InCall(s.cl[c].pc) && Memory(s)
  {
    Served(c, s.cl[c].call, s.cl[c].pc.kind, Contents(s, c), result) in s.log
  }

  /** What a client in a call has in its mailbox: the answer of the server if the server is the sender, and
      no reply of the server has come if not. */
  ghost predicate MailOk(s: State, c: nat)
    requires c in s.cl && InCall(s.cl[c].pc) && Memory(s)
  {
    var x := s.cl[c];
    if x.pc.CAwait? && !x.box.recving && x.box.from == SERVER
    then x.call in s.answers && s.answers[x.call] == x.box.value && Answered(s, c, x.box.value)
    else x.call !in s.answers
  }

  ghost predicate AnswersOk(s: State)
    requires Memory(s)
  {
    && (forall c | c in s.cl && InCall(s.cl[c].pc) :: MailOk(s, c))
    && (forall n | n in s.answers :: n < s.stamp)
    && (s.pc.SReply? && Awaiting(s, s.pc.whom) ==> Answered(s, s.pc.whom, s.pc.result))
  }

  /** An entry of the log stays the right answer for a client that stays in its call. */
  lemma AnsweredStays(s: State, e: Event, c: nat, result: int)
    requires Protocol(s) && Memory(s) && Enabled(s, e) && !Scribbles(e) && e != Destroy(c) && Memory(Step(s, e))
    requires c in s.cl && InCall(s.cl[c].pc) && Answered(s, c, result)
    requires c in Step(s, e).cl && InCall(Step(s, e).cl[c].pc)
    ensures Answered(Step(s, e), c, result)
  {
    ContentsInCall(s, e, c);
    ClientsElsewhere(s, e, c);
    LogGrows(s, e);
    CallStays(s, e, c);
  }

  lemma CallStays(s: State, e: Event, c: nat)
    requires Enabled(s, e) && c in s.cl && InCall(s.cl[c].pc) && e != Destroy(c)
    ensures !(e.Call? && e.c == c)
  {
  }

  /** How a client's mailbox changes while it stays in its call. */
  lemma MailFrom(s: State, e: Event, c: nat)
    requires Protocol(s) && Enabled(s, e) && e != Destroy(c)
    requires c in s.cl && InCall(s.cl[c].pc) && c in Step(s, e).cl && InCall(Step(s, e).cl[c].pc)
    ensures var x, x' := s.cl[c], Step(s, e).cl[c];
            || (x'.pc.CAwait? == x.pc.CAwait? && x'.box == x.box)
            || (x'.pc.CAwait? && x'.box.recving && !x.pc.CAwait?)
            || (Receiving(s, c) && x'.pc == x.pc && !x'.box.recving
                && ((e.ServerReply? && s.pc.SReply? && s.pc.whom == c && x'.box == Mailbox(false, s.pc.result, SERVER))
                    || (e.PeerSend? && e.to == c && x'.box.from == e.c && e.c != SERVER)))
  {
    if LocalEvent(e) {
      ClientsElsewhereLocal(s, e, c);
    } else if CallEvent(e) {
      MailFromCall(s, e, c);
    } else if OtherEvent(e) {
      MailFromOther(s, e, c);
    } else {
      ClientsElsewhereServer(s, e, c);
    }
  }

  lemma MailFromCall(s: State, e: Event, c: nat)
    requires Enabled(s, e) && CallEvent(e)
    requires c in s.cl && InCall(s.cl[c].pc) && c in Step(s, e).cl && InCall(Step(s, e).cl[c].pc)
    ensures var x, x' := s.cl[c], Step(s, e).cl[c];
            || (x'.pc.CAwait? == x.pc.CAwait? && x'.box == x.box)
            || (x'.pc.CAwait? && x'.box.recving && !x.pc.CAwait?)
  {
  }

  lemma MailFromOther(s: State, e: Event, c: nat)
    requires Protocol(s) && Enabled(s, e) && OtherEvent(e) && e != Destroy(c) && c in s.cl && InCall(s.cl[c].pc)
    ensures c in Step(s, e).cl && Step(s, e).cl[c].pc == s.cl[c].pc
    ensures var x, x' := s.cl[c], Step(s, e).cl[c];
            || x'.box == x.box
            || (Receiving(s, c) && !x'.box.recving && e.PeerSend? && e.to == c && x'.box.from == e.c && e.c != SERVER)
  {
  }

  /** Which replies are recorded. */
  lemma RecordFrom(s: State, e: Event)
    requires Protocol(s) && Enabled(s, e)
    ensures Step(s, e).answers == s.answers
            || (e.ServerReply? && s.pc.SReply? && Receiving(s, s.pc.whom) && s.cl[s.pc.whom].pc.CAwait?
                && s.req == s.cl[s.pc.whom].call && Step(s, e).answers == s.answers[s.req := s.pc.result])
  {
    if e.ServerReply? {
      if s.pc.whom in s.cl { assert ClientOk(s, s.pc.whom); }
    } else {
      NoRecord(s, e);
    }
  }

  lemma NoRecord(s: State, e: Event)
    requires Enabled(s, e) && !e.ServerReply?
    ensures Step(s, e).answers == s.answers
  {
    if IpcEvent(e) { NoRecordIpc(s, e); } else { NoRecordElsewhere(s, e); }
  }

  lemma NoRecordIpc(s: State, e: Event)
    requires Enabled(s, e) && IpcEvent(e)
    ensures Step(s, e).answers == s.answers
  {
  }

  lemma NoRecordElsewhere(s: State, e: Event)
    requires Enabled(s, e) && !IpcEvent(e) && !e.ServerReply?
    ensures Step(s, e).answers == s.answers
  {
  }

  /** What becomes of the record for a client's call. */
  lemma RecordMine(s: State, e: Event, c: nat)
    requires Protocol(s) && LogOk(s) && Enabled(s, e) && c in s.cl
    ensures var n, t := s.cl[c].call, Step(s, e).answers;
            if e.ServerReply? && s.pc.whom == c && Receiving(s, c) && s.cl[c].pc.CAwait?
            then n in t && t[n] == s.pc.result
            else (n in t <==> n in s.answers) && (n in t ==> t[n] == s.answers[n])
  {
    RecordFrom(s, e);
    if e.ServerReply? && Receiving(s, s.pc.whom) && s.cl[s.pc.whom].pc.CAwait? {
      assert ClientOk(s, s.pc.whom);
    }
  }

  lemma MailKept(s: State, e: Event, c: nat)
    requires Protocol(s) && Memory(s) && LogOk(s) && AnswersOk(s)
    requires Enabled(s, e) && !Scribbles(e) && Memory(Step(s, e))
    requires e != Destroy(c) && c in s.cl && InCall(s.cl[c].pc) && c in Step(s, e).cl && InCall(Step(s, e).cl[c].pc)
    ensures MailOk(Step(s, e), c)
  {
    RecordMine(s, e, c);
    MailStays(s, e, c);
  }

  lemma MailStays(s: State, e: Event, c: nat)
    requires Protocol(s) && Memory(s) && Enabled(s, e) && !Scribbles(e) && Memory(Step(s, e))
    requires e != Destroy(c) && c in s.cl && InCall(s.cl[c].pc) && c in Step(s, e).cl && InCall(Step(s, e).cl[c].pc)
    requires MailOk(s, c) && (s.pc.SReply? && Awaiting(s, s.pc.whom) ==> Answered(s, s.pc.whom, s.pc.result))
    requires var n, t := s.cl[c].call, Step(s, e).answers;
             if e.ServerReply? && s.pc.whom == c && Receiving(s, c) && s.cl[c].pc.CAwait?
             then n in t && t[n] == s.pc.result
             else (n in t <==> n in s.answers) && (n in t ==> t[n] == s.answers[n])
    ensures MailOk(Step(s, e), c)
  {
    var s' := Step(s, e);
    MailFrom(s, e, c);
    ClientsElsewhere(s, e, c);
    CallStays(s, e, c);
    if s'.cl[c].pc.CAwait? && !s'.cl[c].box.recving && s'.cl[c].box.from == SERVER {
      assert Answered(s, c, s'.cl[c].box.value);
      AnsweredStays(s, e, c, s'.cl[c].box.value);
    }
  }

  /** A client that enters a call has a new number. */
  lemma MailNew(s: State, e: Event, c: nat)
    requires Protocol(s) && Memory(s) && AnswersOk(s) && Enabled(s, e) && Memory(Step(s, e))
    requires c in Step(s, e).cl && InCall(Step(s, e).cl[c].pc) && !(c in s.cl && InCall(s.cl[c].pc) && e != Destroy(c))
    ensures MailOk(Step(s, e), c)
  {
    EntersCall(s, e, c);
    RecordFrom(s, e);
  }

  lemma EntersCall(s: State, e: Event, c: nat)
    requires Enabled(s, e) && c in Step(s, e).cl && InCall(Step(s, e).cl[c].pc)
    requires !(c in s.cl && InCall(s.cl[c].pc) && e != Destroy(c))
    ensures e.Call? && e.c == c && Step(s, e).cl[c].call == s.stamp && Step(s, e).cl[c].pc.CSending?
  {
    if IpcEvent(e) { EntersCallIpc(s, e, c); } else { EntersElsewhere(s, e, c); }
  }

  lemma EntersElsewhere(s: State, e: Event, c: nat)
    requires Enabled(s, e) && !IpcEvent(e) && c in Step(s, e).cl && InCall(Step(s, e).cl[c].pc)
    ensures c in s.cl && InCall(s.cl[c].pc)
  {
    if c in s.cl { if LocalEvent(e) { ClientsElsewhereLocal(s, e, c); } else { ClientsElsewhereServer(s, e, c); } }
  }

  lemma EntersCallIpc(s: State, e: Event, c: nat)
    requires IpcEvent(e)
    requires Enabled(s, e) && c in Step(s, e).cl && InCall(Step(s, e).cl[c].pc)
    requires !(c in s.cl && InCall(s.cl[c].pc) && e != Destroy(c))
    ensures e.Call? && e.c == c && Step(s, e).cl[c].call == s.stamp && Step(s, e).cl[c].pc.CSending?
  {
  }

  /** A first or only reply under way was so before, or this event has computed and logged it. */
  lemma ReplyFrom(s: State, e: Event)
    requires Enabled(s, e) && Step(s, e).pc.SReply?
    ensures var s' := Step(s, e);
            || s'.pc == s.pc
            || s'.pc.stage == Second
            || (&& s'.cl == s.cl && s'.pt == s.pt && s'.phys == s.phys && HasRequest(s)
                && Engaged(s) == Some(s'.pc.whom) && (s.pc.SServe? || (s.pc.SAwait? && s.box.value == FSREQ_OPEN))
                && s'.log == s.log + [Served(s'.pc.whom, s.req, if s.pc.SServe? then s.pc.kind else FSREQ_OPEN,
                                             Request(s), s'.pc.result)])
  {
  }

  lemma LoggedNow(s: State, s': State, c: nat, kind: int, result: int)
    requires Memory(s) && Memory(s') && Awaiting(s, c) && Heard(s, c) && HasRequest(s) && kind == s.cl[c].pc.kind
    requires s'.cl == s.cl && s'.pt == s.pt && s'.phys == s.phys
    requires s'.log == s.log + [Served(c, s.req, kind, Request(s), result)]
    ensures Answered(s', c, result)
  {
    assert BufSlot(s, c) in s.pt && AtReqva(s, c);
    assert s'.log[|s.log|] == Served(c, s.req, kind, Request(s), result);
  }

  lemma ReplyKept(s: State, e: Event)
    requires Protocol(s) && Memory(s) && Enabled(s, e) && !Scribbles(e) && Memory(Step(s, e)) && Protocol(Step(s, e))
    requires s.pc.SReply? && Awaiting(s, s.pc.whom) ==> Answered(s, s.pc.whom, s.pc.result)
    requires Step(s, e).pc.SReply? && Awaiting(Step(s, e), Step(s, e).pc.whom)
    ensures Answered(Step(s, e), Step(s, e).pc.whom, Step(s, e).pc.result)
  {
    var s' := Step(s, e);
    var c := s'.pc.whom;
    assert ClientOk(s', c);
    ReplyFrom(s, e);
    if s'.pc == s.pc {
      StillAwaiting(s, e, c);
      AnsweredStays(s, e, c, s.pc.result);
    } else {
      assert ClientOk(s, c);
      LoggedNow(s, s', c, if s.pc.SServe? then s.pc.kind else FSREQ_OPEN, s'.pc.result);
    }
  }

  /** While the server is at its reply nobody comes to await an answer. */
  lemma StillAwaiting(s: State, e: Event, c: nat)
    requires Protocol(s) && Enabled(s, e) && s.pc.SReply? && Awaiting(Step(s, e), c)
    ensures Awaiting(s, c) && e != Destroy(c)
  {
    AwaitingFrom(s, e, c);
  }

  lemma AnswersKept(s: State, e: Event)
    requires Protocol(s) && Memory(s) && LogOk(s) && AnswersOk(s) && Enabled(s, e) && !Scribbles(e)
    requires Memory(Step(s, e)) && Protocol(Step(s, e))
    ensures AnswersOk(Step(s, e))
  {
    var s' := Step(s, e);
    forall c | c in s'.cl && InCall(s'.cl[c].pc) ensures MailOk(s', c) {
      MailAny(s, e, c);
    }
    AnswersBelow(s, e);
    if s'.pc.SReply? && Awaiting(s', s'.pc.whom) { ReplyKept(s, e); }
  }

  lemma MailAny(s: State, e: Event, c: nat)
    requires Protocol(s) && Memory(s) && LogOk(s) && AnswersOk(s)
    requires Enabled(s, e) && !Scribbles(e) && Memory(Step(s, e))
    requires c in Step(s, e).cl && InCall(Step(s, e).cl[c].pc)
    ensures MailOk(Step(s, e), c)
  {
    if c in s.cl && InCall(s.cl[c].pc) && e != Destroy(c) { MailKept(s, e, c); } else { MailNew(s, e, c); }
  }

  lemma AnswersBelow(s: State, e: Event)
    requires Protocol(s) && Enabled(s, e) && s.req < s.stamp && forall n | n in s.answers :: n < s.stamp
    ensures forall n | n in Step(s, e).answers :: n < Step(s, e).stamp
  {
    RecordFrom(s, e);
    StampGrows(s, e);
  }

  lemma StampGrows(s: State, e: Event)
    requires Enabled(s, e)
    ensures Step(s, e).stamp >= s.stamp
  {
  }

  /** Everything, in states that handlers which only read can reach. */
  ghost predicate Inv(s: State) { Protocol(s) && Memory(s) && LogOk(s) && AnswersOk(s) }

  lemma StepKeeps(s: State, e: Event)
    requires Inv(s) && Enabled(s, e) && !Scribbles(e)
    ensures Inv(Step(s, e))
  {
    ProtocolKept(s, e);
    MemoryKept(s, e);
    LogKept(s, e);
    AnswersKept(s, e);
  }

  // ----- runs -----

  ghost predicate Follows(s: State, e: Event, s': State) { Enabled(s, e) && s' == Step(s, e) }

  /** The states and events of a run. */
  ghost predicate Trace(ss: seq<State>, es: seq<Event>) {
    |ss| == |es| + 1 && forall k {:trigger es[k]} | 0 <= k < |es| :: Follows(ss[k], es[k], ss[k + 1])
  }

  /** Idle clients, a server about to receive, and any open files. */
  ghost predicate Start(s: State) {
    && (forall c | c in s.cl :: s.cl[c].pc.CIdle? && !s.cl[c].box.recving)
    && s.pc.SLoop? && !s.box.recving && s.log == [] && s.answers == map[] && SERVER !in s.cl && Memory(s)
    && s.req < s.stamp && (forall c | c in s.cl :: s.cl[c].call < s.stamp)
    && (forall c, d | c in s.cl && d in s.cl && s.cl[c].call == s.cl[d].call :: c == d)
  }

  ghost predicate ReadOnly(es: seq<Event>, i: nat, j: nat) {
    forall k: nat | i <= k < j && k < |es| :: !Scribbles(es[k])
  }

  lemma SafeFollows(s: State, e: Event, s': State)
    requires Protocol(s) && Memory(s) && Follows(s, e, s')
    ensures Protocol(s') && Memory(s')
  {
    ProtocolKept(s, e);
    MemoryKept(s, e);
  }

  /** Protocol and page tables are in order in every state of every run. */
  lemma {:induction false} TraceSafe(ss: seq<State>, es: seq<Event>, k: nat)
    requires Trace(ss, es) && Start(ss[0]) && k < |ss|
    ensures Protocol(ss[k]) && Memory(ss[k])
  {
    if k > 0 {
      TraceSafe(ss, es, k - 1);
      SafeFollows(ss[k - 1], es[k - 1], ss[k]);
    }
  }

  lemma InvFollows(s: State, e: Event, s': State)
    requires Inv(s) && Follows(s, e, s') && !Scribbles(e)
    ensures Inv(s')
  {
    StepKeeps(s, e);
  }

  lemma StartInv(s: State)
    requires Start(s)
    ensures Inv(s)
  {
  }

  lemma {:induction false} TraceKeeps(ss: seq<State>, es: seq<Event>, k: nat)
    requires Trace(ss, es) && Start(ss[0]) && k < |ss| && ReadOnly(es, 0, k)
    ensures Inv(ss[k])
  {
    if k == 0 {
      StartInv(ss[0]);
    } else {
      TraceKeeps(ss, es, k - 1);
      InvFollows(ss[k - 1], es[k - 1], ss[k]);
    }
  }

  /** What a client comes back with from `fsipc` is the server's answer to that very call, computed from its
      own buffer by the only service the call has had, if and only if the mailbox names the server as
      sender, which `fsipc` does not look at. */
  lemma OwnAnswerIff(ss: seq<State>, es: seq<Event>, k: nat, c: nat)
    requires Trace(ss, es) && Start(ss[0]) && k < |ss| && ReadOnly(es, 0, k)
    requires Enabled(ss[k], Return(c)) && ss[k].cl[c].pc.CAwait?
    ensures Memory(ss[k])
    ensures var s, x := ss[k], ss[k].cl[c];
            && (x.box.from == SERVER <==> x.call in s.answers)
            && (x.box.from == SERVER ==>
                  && s.answers[x.call] == x.box.value && Answered(s, c, x.box.value)
                  && forall y | y in s.log && y.call == x.call ::
                       y == Served(c, x.call, x.pc.kind, Contents(s, c), x.box.value))
  {
    TraceKeeps(ss, es, k);
    assert MailOk(ss[k], c);
  }

  // ----- pages over runs -----

  /** If `c` is still in the call it was in, its buffer is where it was, with what it held. */
  ghost predicate Held(s0: State, s: State, c: nat)
    requires c in s0.cl && Memory(s0) && Memory(s)
  {
    c in s.cl && s.cl[c].call == s0.cl[c].call && InCall(s.cl[c].pc) ==>
      && BufSlot(s, c) == BufSlot(s0, c) && s.pt[BufSlot(s, c)] == s0.pt[BufSlot(s0, c)]
      && Contents(s, c) == Contents(s0, c)
  }

  lemma HeldFollows(s0: State, s: State, e: Event, s': State, c: nat)
    requires c in s0.cl && s0.cl[c].call < s.stamp && Memory(s0) && Protocol(s) && Memory(s) && Held(s0, s, c)
    requires Follows(s, e, s') && !Scribbles(e) && Memory(s')
    ensures Held(s0, s', c)
  {
    if c in s'.cl && s'.cl[c].call == s0.cl[c].call && InCall(s'.cl[c].pc) {
      if c in s.cl && InCall(s.cl[c].pc) && e != Destroy(c) {
        ClientsElsewhere(s, e, c);
        CallStays(s, e, c);
        ContentsInCall(s, e, c);
      } else {
        EntersCall(s, e, c);
      }
    }
  }

  /** From the moment a client enters `fsipc` until it leaves, its buffer stays where it is and does not
      change, although relatives may share the page and the server has it mapped writable. */
  lemma {:induction false} PageUnchanged(ss: seq<State>, es: seq<Event>, i: nat, j: nat, c: nat)
    requires Trace(ss, es) && Start(ss[0]) && i <= j < |ss| && ReadOnly(es, i, j)
    requires c in ss[i].cl && InCall(ss[i].cl[c].pc)
    ensures Memory(ss[i]) && Memory(ss[j]) && Held(ss[i], ss[j], c)
    decreases j
  {
    TraceSafe(ss, es, i);
    TraceSafe(ss, es, j);
    if i < j {
      TraceSafe(ss, es, j - 1);
      TraceStamps(ss, es, i, j - 1, c);
      PageUnchanged(ss, es, i, j - 1, c);
      HeldFollows(ss[i], ss[j - 1], es[j - 1], ss[j], c);
    }
  }

  lemma {:induction false} TraceNumbers(ss: seq<State>, es: seq<Event>, k: nat)
    requires Trace(ss, es) && Start(ss[0]) && k < |ss|
    ensures Protocol(ss[k]) && LogOk(ss[k])
  {
    if k == 0 {
      StartInv(ss[0]);
    } else {
      TraceNumbers(ss, es, k - 1);
      NumbersFollow(ss[k - 1], es[k - 1], ss[k]);
    }
  }

  lemma NumbersFollow(s: State, e: Event, s': State)
    requires Protocol(s) && LogOk(s) && Follows(s, e, s')
    ensures Protocol(s') && LogOk(s')
  {
    ProtocolKept(s, e);
    LogKept(s, e);
  }

  lemma {:induction false} TraceStamps(ss: seq<State>, es: seq<Event>, i: nat, j: nat, c: nat)
    requires Trace(ss, es) && Start(ss[0]) && i <= j < |ss| && c in ss[i].cl
    ensures ss[i].cl[c].call < ss[j].stamp
    decreases j
  {
    if i == j {
      TraceNumbers(ss, es, i);
    } else {
      TraceStamps(ss, es, i, j - 1, c);
      assert Follows(ss[j - 1], es[j - 1], ss[j]);
      StampGrows(ss[j - 1], es[j - 1]);
    }
  }

  /** So what the handler reads at REQVA is the same whenever it reads, from the delivery of the request
      to the reply. */
  lemma RequestStays(ss: seq<State>, es: seq<Event>, i: nat, j: nat, c: nat)
    requires Trace(ss, es) && Start(ss[0]) && i <= j < |ss| && ReadOnly(es, i, j)
    requires Awaiting(ss[i], c) && Awaiting(ss[j], c) && ss[j].cl[c].call == ss[i].cl[c].call
    ensures HasRequest(ss[i]) && HasRequest(ss[j]) && Request(ss[j]) == Request(ss[i])
  {
    PageUnchanged(ss, es, i, j, c);
    RequestIsBuffer(ss[i], c);
    RequestIsBuffer(ss[j], c);
  }

  lemma RequestIsBuffer(s: State, c: nat)
    requires Memory(s) && Awaiting(s, c)
    ensures HasRequest(s) && Request(s) == Contents(s, c)
  {
    assert BufSlot(s, c) in s.pt && AtReqva(s, c);
  }

  /** Nothing but the handlers' restraint sees to that: a store through REQVA is possible while a client
      awaits an answer, and the client's buffer then holds what was stored. */
  lemma ScribbleShows(ss: seq<State>, es: seq<Event>, k: nat, c: nat, v: int)
    requires Trace(ss, es) && Start(ss[0]) && k < |ss| && Awaiting(ss[k], c)
    ensures Memory(ss[k])
    ensures var s, e := ss[k], ServerStore(REQ, v);
            && Enabled(s, e) && c in Step(s, e).cl && Memory(Step(s, e))
            && Contents(Step(s, e), c) == v
            && (Contents(Step(s, e), c) == Contents(s, c) <==> v == Contents(s, c))
  {
    TraceSafe(ss, es, k);
    assert ClientOk(ss[k], c) && AtReqva(ss[k], c);
    MemoryKept(ss[k], ServerStore(REQ, v));
  }
}
