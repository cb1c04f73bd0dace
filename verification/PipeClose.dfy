/** End-of-file detection of pipes: `_pipe_is_closed`, `pipe_close` and `pipe` (user/lib/pipe.c), `dup`
    and `close` (user/lib/fd.c), `pageref` (user/lib/pageref.c) and the loop of `fork`
    (user/lib/fork.c), for any number of processes and pipes, preempted between any two system calls.

    A descriptor number of a process is a `Slot` with two pages: the descriptor page, which is one
    end of a pipe, and the data page of the pipe behind it. */
module PipeClose {
  import opened Options

  const MAXFD: nat := 32

  datatype Slot = Slot(proc: nat, num: nat)

  /** A descriptor page: one of the two ends of a pipe. */
  datatype End = End(pipe: nat, writer: bool)

  /** Where a process is between two of its actions. */
  datatype Pc =
    | Idle
    | CloseFd(num: nat, dup: Option<nat>)        // pipe_close is about to unmap the descriptor
    | CloseData(num: nat, dup: Option<nat>)      // ... the data page
    | CloseAgain(num: nat, dup: Option<nat>)     // fd_close unmaps the descriptor once more
    | DupData(src: nat, num: nat)                // dup is about to map the data page
    | DupFd(src: nat, num: nat)                  // ... the descriptor
    | DupErrFd(num: nat)                         // dup failed and unmaps the descriptor
    | DupErrData(num: nat)                       // ... the data page
    | AskRuns(num: nat)                          // _pipe_is_closed is about to read env_runs
    | AskFd(num: nat, runs: nat)                 // ... pageref(fd)
    | AskPipe(num: nat, runs: nat, fdRef: nat)   // ... pageref(p)
    | AskTest(num: nat, runs: nat, fdRef: nat, pipeRef: nat)
    | Making(n0: nat, n1: nat, pipe: nat, stage: Stage)
    | ForkFd(child: nat, next: nat)              // fork's loop is at descriptor page `next`
    | ForkData(child: nat, next: nat)            // ... at the data page of number `next`

  /** Where `pipe` is: what it is about to map, or to unmap after a failure. */
  datatype Stage = MapFd1 | MapData0 | MapData1 | UndoData0 | UndoFd1 | UndoFd0

  datatype Proc = Proc(pc: Pc, runs: nat)

  /** `fd` and `data` are the page tables at the descriptor and the data addresses; `cur` is the
      environment on the processor. */
  datatype State = State(fd: map<Slot, End>, data: map<Slot, nat>, procs: map<nat, Proc>, cur: nat)

  datatype Event =
    | Switch(p: nat)                             // env_run
    | Pipe(p: nat, n0: nat, n1: nat, pipe: nat)  // enters pipe(), which maps its first descriptor
    | Fork(p: nat, child: nat)                   // e_exofork
    | Kill(p: nat)
    | Close(p: nat, num: nat)
    | Dup(p: nat, src: nat, num: nat)
    | Ask(p: nat, num: nat)
    | Go(p: nat, ok: bool)                       // the next action; `ok` is false if a map call fails

  // ----- reference counts -----

  ghost function FdSlots(s: State, e: End): set<Slot> {
    set x | x in s.fd && s.fd[x] == e
  }

  ghost function DataSlots(s: State, pipe: nat): set<Slot> {
    set x | x in s.data && s.data[x] == pipe
  }

  /** `pageref` of a descriptor page and of a data page, by the conservation law of module Pmap. */
  ghost function FdRef(s: State, e: End): nat { |FdSlots(s, e)| }

  ghost function DataRef(s: State, pipe: nat): nat { |DataSlots(s, pipe)| }

  ghost function PagerefFd(s: State, x: Slot): nat { if x in s.fd then FdRef(s, s.fd[x]) else 0 }

  ghost function PagerefData(s: State, x: Slot): nat { if x in s.data then DataRef(s, s.data[x]) else 0 }

  // ----- steps -----

  predicate Busy(s: State, p: nat) { p in s.procs && !s.procs[p].pc.Idle? }

  predicate Calls(s: State, p: nat) { s.cur == p && p in s.procs && s.procs[p].pc.Idle? }

  ghost predicate Enabled(s: State, e: Event) {
    match e
    case Switch(p) => p in s.procs
    case Pipe(p, n0, n1, pipe) =>
      && Calls(s, p) && n0 < n1 < MAXFD
      && Slot(p, n0) !in s.fd && Slot(p, n1) !in s.fd && NewPipe(s, pipe)
    case Fork(p, child) => Calls(s, p) && child !in s.procs && NewProc(s, child)
    case Kill(p) => p in s.procs && p != s.cur
    case Close(p, num) => Calls(s, p) && Slot(p, num) in s.fd
    case Dup(p, src, num) => Calls(s, p) && Slot(p, src) in s.fd && num < MAXFD
    case Ask(p, num) => Calls(s, p) && Slot(p, num) in s.fd
    case Go(p, ok) => s.cur == p && Busy(s, p)
  }

  predicate NewPipe(s: State, pipe: nat) {
    (forall x | x in s.fd :: s.fd[x].pipe != pipe) && (forall x | x in s.data :: s.data[x] != pipe)
  }

  predicate NewProc(s: State, p: nat) {
    && (forall x | x in s.fd :: x.proc != p) && (forall x | x in s.data :: x.proc != p)
    && (forall q | q in s.procs :: ChildOf(s.procs[q].pc) != Some(p))
  }

  /** The child that a fork in progress is filling. */
  function ChildOf(pc: Pc): Option<nat> {
    match pc
    case ForkFd(child, _) => Some(child)
    case ForkData(child, _) => Some(child)
    case _ => None
  }

  function SetPc(s: State, p: nat, pc: Pc): State
    requires p in s.procs
  {
    s.(procs := s.procs[p := s.procs[p].(pc := pc)])
  }

  /** After `close`: back to the caller, or on to the mapping half of `dup`. */
  function AfterClose(num: nat, dup: Option<nat>): Pc {
    if dup.Some? then DupData(dup.value, num) else Idle
  }

  function UnmapFd(s: State, x: Slot): State { s.(fd := s.fd - {x}) }

  function UnmapData(s: State, x: Slot): State { s.(data := s.data - {x}) }

  function MapFd(s: State, x: Slot, e: End): State { s.(fd := s.fd[x := e]) }

  function MapData(s: State, x: Slot, pipe: nat): State { s.(data := s.data[x := pipe]) }

  /** The next call of `pipe`. */
  function MakeStep(s: State, p: nat, ok: bool): State
    requires p in s.procs && s.procs[p].pc.Making?
  {
    var pc := s.procs[p].pc;
    var x0, x1 := Slot(p, pc.n0), Slot(p, pc.n1);
    match pc.stage
    case MapFd1 =>
      if ok then SetPc(MapFd(s, x1, End(pc.pipe, true)), p, pc.(stage := MapData0))
      else SetPc(s, p, pc.(stage := UndoFd0))
    case MapData0 =>
      if ok then SetPc(MapData(s, x0, pc.pipe), p, pc.(stage := MapData1)) else SetPc(s, p, pc.(stage := UndoFd1))
    case MapData1 =>
      if ok then SetPc(MapData(s, x1, pc.pipe), p, Idle) else SetPc(s, p, pc.(stage := UndoData0))
    case UndoData0 => SetPc(UnmapData(s, x0), p, pc.(stage := UndoFd1))
    case UndoFd1 => SetPc(UnmapFd(s, x1), p, pc.(stage := UndoFd0))
    case UndoFd0 => SetPc(UnmapFd(s, x0), p, Idle)
  }

  /** The next turn of fork's loop: it hands every PTE_LIBRARY mapping of the parent to the child, in the
      order of addresses, all descriptor pages first. After the last one the child starts. */
  function ForkStep(s: State, p: nat): State
    requires p in s.procs && ChildOf(s.procs[p].pc).Some?
  {
    match s.procs[p].pc
    case ForkFd(child, n) =>
      if n >= MAXFD then SetPc(s, p, ForkData(child, 0))
      else SetPc(if Slot(p, n) in s.fd then MapFd(s, Slot(child, n), s.fd[Slot(p, n)]) else s, p, ForkFd(child, n + 1))
    case ForkData(child, n) =>
      if n >= MAXFD then var s1 := SetPc(s, p, Idle); s1.(procs := s1.procs[child := Proc(Idle, 0)])
      else SetPc(if Slot(p, n) in s.data then MapData(s, Slot(child, n), s.data[Slot(p, n)]) else s,
                 p, ForkData(child, n + 1))
  }

  /** The next call of `close` or `dup`. */
  function CloseStep(s: State, p: nat, ok: bool): State
    requires p in s.procs
  {
    match s.procs[p].pc
    case CloseFd(n, d) => SetPc(UnmapFd(s, Slot(p, n)), p, CloseData(n, d))
    case CloseData(n, d) => SetPc(UnmapData(s, Slot(p, n)), p, CloseAgain(n, d))
    case CloseAgain(n, d) => SetPc(UnmapFd(s, Slot(p, n)), p, AfterClose(n, d))
    case DupData(o, n) =>
      if Slot(p, o) !in s.data then SetPc(s, p, DupFd(o, n))
      else if !ok then SetPc(s, p, DupErrFd(n))
      else SetPc(MapData(s, Slot(p, n), s.data[Slot(p, o)]), p, DupFd(o, n))
    case DupFd(o, n) =>
      if Slot(p, o) !in s.fd || !ok then SetPc(s, p, DupErrFd(n))
      else SetPc(MapFd(s, Slot(p, n), s.fd[Slot(p, o)]), p, Idle)
    case DupErrFd(n) => SetPc(UnmapFd(s, Slot(p, n)), p, DupErrData(n))
    case DupErrData(n) => SetPc(UnmapData(s, Slot(p, n)), p, Idle)
    case _ => s
  }

  ghost function GoStep(s: State, p: nat, ok: bool): State
    requires Busy(s, p)
  {
    match s.procs[p].pc
    case AskRuns(n) => SetPc(s, p, AskFd(n, s.procs[p].runs))
    case AskFd(n, r) => SetPc(s, p, AskPipe(n, r, PagerefFd(s, Slot(p, n))))
    case AskPipe(n, r, f) => SetPc(s, p, AskTest(n, r, f, PagerefData(s, Slot(p, n))))
    case AskTest(n, r, f, d) => SetPc(s, p, if r != s.procs[p].runs then AskRuns(n) else Idle)
    case Making(_, _, _, _) => MakeStep(s, p, ok)
    case ForkFd(_, _) => ForkStep(s, p)
    case ForkData(_, _) => ForkStep(s, p)
    case _ => CloseStep(s, p, ok)
  }

  ghost function Step(s: State, e: Event): State
    requires Enabled(s, e)
  {
    match e
    case Switch(p) => s.(cur := p, procs := s.procs[p := s.procs[p].(runs := s.procs[p].runs + 1)])
    case Pipe(p, n0, n1, pipe) => SetPc(MapFd(s, Slot(p, n0), End(pipe, false)), p, Making(n0, n1, pipe, MapFd1))
    case Fork(p, child) => SetPc(s, p, ForkFd(child, 0))
    case Kill(p) => s.(procs := s.procs - {p})
    case Close(p, num) => SetPc(s, p, CloseFd(num, None))
    case Dup(p, src, num) =>
      SetPc(s, p, if Slot(p, num) in s.fd then CloseFd(num, Some(src)) else DupData(src, num))
    case Ask(p, num) => SetPc(s, p, AskRuns(num))
    case Go(p, ok) => GoStep(s, p, ok)
  }

  /** `_pipe_is_closed` returns in this event, with this answer. */
  predicate Answers(s: State, e: Event, p: nat, num: nat, closed: bool) {
    && e.Go? && e.p == p && p in s.procs && s.procs[p].pc.AskTest? && s.procs[p].pc.num == num
    && s.procs[p].pc.runs == s.procs[p].runs && closed == (s.procs[p].pc.fdRef == s.procs[p].pc.pipeRef)
  }

  // ----- invariants -----

  /** A descriptor that is without its data page for now: of a pipe being made, or of an environment that
      is not running, because its parent is still filling it or it was destroyed. */
  predicate Excused(s: State, x: Slot) {
    && x !in s.data
    && (x.proc in s.procs ==>
          var pc := s.procs[x.proc].pc;
          pc.Making? && (x.num == pc.n0 || x.num == pc.n1))
  }

  /** Every other mapped descriptor has its data page mapped. */
  ghost predicate Backed(s: State) {
    forall x | x in s.fd :: (x in s.data && s.data[x] == s.fd[x].pipe) || Excused(s, x)
  }

  predicate HasFd(s: State, x: Slot, e: End) { x in s.fd && s.fd[x] == e }

  predicate HasData(s: State, x: Slot, pipe: nat) { x in s.data && s.data[x] == pipe }

  ghost predicate MakeOk(s: State, x0: Slot, x1: Slot, pipe: nat, stage: Stage) {
    && x0 != x1 && x1 !in s.data && HasFd(s, x0, End(pipe, false))
    && (if stage == MapFd1 || stage == UndoFd0 then x1 !in s.fd else HasFd(s, x1, End(pipe, true)))
    && (if stage == MapData1 || stage == UndoData0 then HasData(s, x0, pipe) else x0 !in s.data)
  }

  /** The first `n` numbers of the child are those of the parent, and it has no other. */
  ghost predicate CopiedFd(s: State, p: nat, child: nat, n: nat) {
    && (forall k: nat :: Slot(child, k) in s.fd <==> k < n && Slot(p, k) in s.fd)
    && (forall k: nat | k < n && Slot(p, k) in s.fd :: s.fd[Slot(child, k)] == s.fd[Slot(p, k)])
  }

  ghost predicate CopiedData(s: State, p: nat, child: nat, n: nat) {
    && (forall k: nat :: Slot(child, k) in s.data <==> k < n && Slot(p, k) in s.data)
    && (forall k: nat | k < n && Slot(p, k) in s.data :: s.data[Slot(child, k)] == s.data[Slot(p, k)])
  }

  ghost predicate PcOk(s: State, p: nat)
    requires p in s.procs
  {
    match s.procs[p].pc
    case Idle => true
    case CloseFd(_, _) => true
    case CloseData(n, _) => Slot(p, n) !in s.fd
    case CloseAgain(n, _) => Slot(p, n) !in s.fd && Slot(p, n) !in s.data
    case DupData(_, n) => Slot(p, n) !in s.fd
    case DupFd(o, n) =>
      Slot(p, n) !in s.fd && (Slot(p, o) in s.fd ==> HasData(s, Slot(p, n), s.fd[Slot(p, o)].pipe))
    case DupErrFd(n) => Slot(p, n) !in s.fd
    case DupErrData(n) => Slot(p, n) !in s.fd
    case AskRuns(n) => Slot(p, n) in s.fd
    case AskFd(n, r) => Slot(p, n) in s.fd && r <= s.procs[p].runs
    case AskPipe(n, r, f) =>
      && Slot(p, n) in s.fd && r <= s.procs[p].runs
      && (s.cur == p && r == s.procs[p].runs ==> f == PagerefFd(s, Slot(p, n)))
    case AskTest(n, r, f, d) =>
      && Slot(p, n) in s.fd && r <= s.procs[p].runs
      && (s.cur == p && r == s.procs[p].runs ==> f == PagerefFd(s, Slot(p, n)) && d == PagerefData(s, Slot(p, n)))
    case Making(n0, n1, pipe, stage) => MakeOk(s, Slot(p, n0), Slot(p, n1), pipe, stage)
    case ForkFd(child, n) => n <= MAXFD && CopiedFd(s, p, child, n) && CopiedData(s, p, child, 0)
    case ForkData(child, n) => n <= MAXFD && CopiedFd(s, p, child, MAXFD) && CopiedData(s, p, child, n)
  }

  /** The descriptor number whose mappings the process is in the middle of changing. */
  function InFlight(pc: Pc): Option<nat> {
    match pc
    case CloseData(n, _) => Some(n)
    case DupFd(_, n) => Some(n)
    case DupErrFd(n) => Some(n)
    case DupErrData(n) => Some(n)
    case DupData(_, n) => Some(n)
    case _ => None
  }

  /** A data page without descriptor belongs to a close or dup in flight, or to an environment that is
      not running: `env_free` leaves PTE_LIBRARY mappings behind. */
  ghost predicate Accounted(s: State) {
    forall x | x in s.data && x !in s.fd ::
      x.proc !in s.procs || InFlight(s.procs[x.proc].pc) == Some(x.num)
  }

  /** Nobody else has seen a pipe that is being made. */
  ghost predicate Unseen(s: State) {
    forall p | p in s.procs && s.procs[p].pc.Making? ::
      OnlyAt(s, s.procs[p].pc.pipe, p, s.procs[p].pc.n0, s.procs[p].pc.n1)
  }

  ghost predicate OnlyAt(s: State, pipe: nat, p: nat, n0: nat, n1: nat) {
    && (forall x | x in s.fd && s.fd[x].pipe == pipe :: x == Slot(p, n0) || x == Slot(p, n1))
    && (forall x | x in s.data && s.data[x] == pipe :: x == Slot(p, n0) || x == Slot(p, n1))
  }

  /** Children are not running yet, and no two forks fill the same one. */
  ghost predicate Nursery(s: State) {
    && (forall p | p in s.procs && ChildOf(s.procs[p].pc).Some? :: ChildOf(s.procs[p].pc).value !in s.procs)
    && (forall p, q | p in s.procs && q in s.procs && ChildOf(s.procs[p].pc).Some?
          && ChildOf(s.procs[p].pc) == ChildOf(s.procs[q].pc) :: p == q)
  }

  ghost predicate Bounded(s: State) {
    && (forall x | x in s.fd :: x.num < MAXFD) && (forall x | x in s.data :: x.num < MAXFD)
    && (forall p | p in s.procs :: NumsOk(s.procs[p].pc))
  }

  predicate NumsOk(pc: Pc) {
    match pc
    case CloseFd(n, _) => n < MAXFD
    case CloseData(n, _) => n < MAXFD
    case CloseAgain(n, _) => n < MAXFD
    case DupData(_, n) => n < MAXFD
    case DupFd(_, n) => n < MAXFD
    case Making(n0, n1, _, _) => n0 < MAXFD && n1 < MAXFD
    case _ => true
  }

  ghost predicate Inv(s: State) {
    && Backed(s) && (forall p | p in s.procs :: PcOk(s, p)) && Accounted(s)
    && Unseen(s) && Nursery(s) && Bounded(s)
  }

  // ----- frames -----

  /** The mappings of environment `r` are the same. */
  ghost predicate SameAt(s: State, s': State, r: nat) {
    && (forall x: Slot | x.proc == r :: (x in s.fd <==> x in s'.fd) && (x in s.data <==> x in s'.data))
    && (forall x: Slot | x.proc == r && x in s.fd :: s'.fd[x] == s.fd[x])
    && (forall x: Slot | x.proc == r && x in s.data :: s'.data[x] == s.data[x])
  }

  /** A process whose own mappings and counts are untouched, and its child's, keeps its assertion. */
  lemma PcFrame(s: State, s': State, p: nat)
    requires p in s.procs && PcOk(s, p) && p in s'.procs && s'.procs[p] == s.procs[p]
    requires s'.cur == p ==> s'.fd == s.fd && s'.data == s.data && s.cur == p
    requires SameAt(s, s', p)
    requires ChildOf(s.procs[p].pc).Some? ==> SameAt(s, s', ChildOf(s.procs[p].pc).value)
    ensures PcOk(s', p)
  {
  }

  /** A process changes its own mappings, its child's, and its own program counter only. */
  lemma GoLocal(s: State, p: nat, ok: bool, r: nat)
    requires Busy(s, p) && r != p && ChildOf(s.procs[p].pc) != Some(r)
    ensures SameAt(s, GoStep(s, p, ok), r)
  {
    var pc := s.procs[p].pc;
    if Changing(pc) {
      CloseLocal(s, p, ok, r);
    } else if pc.Making? {
      MakeLocal(s, p, ok, r);
    } else if ChildOf(pc).Some? {
      ForkLocal(s, p, r);
    }
  }

  lemma CloseLocal(s: State, p: nat, ok: bool, r: nat)
    requires Busy(s, p) && r != p && Changing(s.procs[p].pc)
    ensures SameAt(s, CloseStep(s, p, ok), r)
  {
  }

  lemma MakeLocal(s: State, p: nat, ok: bool, r: nat)
    requires Busy(s, p) && r != p && s.procs[p].pc.Making?
    ensures SameAt(s, MakeStep(s, p, ok), r)
  {
  }

  lemma ForkLocal(s: State, p: nat, r: nat)
    requires Busy(s, p) && r != p && ChildOf(s.procs[p].pc).Some? && ChildOf(s.procs[p].pc) != Some(r)
    ensures SameAt(s, ForkStep(s, p), r)
  {
  }

  /** Apart from fork's last turn, only the process's own program counter changes. */
  lemma GoSelf(s: State, p: nat, ok: bool)
    requires Busy(s, p) && ChildOf(s.procs[p].pc).None?
    ensures var s' := GoStep(s, p, ok);
            && s'.cur == s.cur && p in s'.procs && s'.procs == s.procs[p := s'.procs[p]]
            && s'.procs[p].runs == s.procs[p].runs
  {
    if Changing(s.procs[p].pc) { CloseSelf(s, p, ok); }
  }

  lemma CloseSelf(s: State, p: nat, ok: bool)
    requires Busy(s, p) && Changing(s.procs[p].pc)
    ensures var s' := CloseStep(s, p, ok);
            && s'.cur == s.cur && p in s'.procs && s'.procs == s.procs[p := s'.procs[p]]
            && s'.procs[p].runs == s.procs[p].runs
  {
  }

  lemma GoProcs(s: State, p: nat, ok: bool)
    requires Busy(s, p)
    ensures var s' := GoStep(s, p, ok);
            && s'.cur == s.cur && p in s'.procs
            && (forall q | q in s.procs && q != p && ChildOf(s.procs[p].pc) != Some(q) ::
                  q in s'.procs && s'.procs[q] == s.procs[q])
            && (forall q | q in s'.procs && q !in s.procs ::
                  ChildOf(s.procs[p].pc) == Some(q) && s'.procs[q].pc == Idle && s'.procs[p].pc == Idle)
  {
    if ChildOf(s.procs[p].pc).None? { GoSelf(s, p, ok); }
  }

  lemma GoFrame(s: State, p: nat, ok: bool, q: nat)
    requires s.cur == p && Busy(s, p) && Nursery(s) && q != p && q in s.procs && PcOk(s, q)
    ensures q in GoStep(s, p, ok).procs && PcOk(GoStep(s, p, ok), q)
  {
    GoProcs(s, p, ok);
    GoLocal(s, p, ok, q);
    if ChildOf(s.procs[q].pc).Some? { GoLocal(s, p, ok, ChildOf(s.procs[q].pc).value); }
    PcFrame(s, GoStep(s, p, ok), q);
  }

  // ----- one action of `close` or `dup` -----

  predicate Changing(pc: Pc) {
    pc.CloseFd? || pc.CloseData? || pc.CloseAgain? || pc.DupData? || pc.DupFd? || pc.DupErrFd? || pc.DupErrData?
  }

  lemma ChangePc(s: State, p: nat, ok: bool)
    requires Backed(s) && s.cur == p && Busy(s, p) && PcOk(s, p) && Changing(s.procs[p].pc)
    ensures p in GoStep(s, p, ok).procs && PcOk(GoStep(s, p, ok), p)
  {
  }

  lemma ChangeMaps(s: State, p: nat, ok: bool)
    requires Backed(s) && Accounted(s) && Busy(s, p) && PcOk(s, p) && Changing(s.procs[p].pc)
    ensures Backed(GoStep(s, p, ok)) && Accounted(GoStep(s, p, ok))
  {
  }

  // ----- one action of `pipe` -----

  lemma MakePc(s: State, p: nat, ok: bool)
    requires s.cur == p && Busy(s, p) && PcOk(s, p) && s.procs[p].pc.Making?
    ensures p in GoStep(s, p, ok).procs && PcOk(GoStep(s, p, ok), p)
  {
  }

  lemma MakeMaps(s: State, p: nat, ok: bool)
    requires Backed(s) && Accounted(s) && Busy(s, p) && PcOk(s, p) && s.procs[p].pc.Making?
    ensures Backed(GoStep(s, p, ok)) && Accounted(GoStep(s, p, ok))
  {
  }

  // ----- one turn of `fork` -----

  lemma ForkPc(s: State, p: nat, ok: bool)
    requires s.cur == p && Busy(s, p) && PcOk(s, p) && ChildOf(s.procs[p].pc).Some? && Nursery(s)
    ensures p in GoStep(s, p, ok).procs && PcOk(GoStep(s, p, ok), p)
  {
  }

  lemma ForkMaps(s: State, p: nat, ok: bool)
    requires Backed(s) && Accounted(s) && Busy(s, p) && PcOk(s, p) && ChildOf(s.procs[p].pc).Some? && Nursery(s)
             && Bounded(s)
    ensures Backed(GoStep(s, p, ok)) && Accounted(GoStep(s, p, ok))
  {
  }

  // ----- every step keeps the invariant -----

  lemma GoOwnPc(s: State, p: nat, ok: bool)
    requires Inv(s) && s.cur == p && Busy(s, p)
    ensures p in GoStep(s, p, ok).procs && PcOk(GoStep(s, p, ok), p)
  {
    var pc := s.procs[p].pc;
    if Changing(pc) {
      ChangePc(s, p, ok);
    } else if pc.Making? {
      MakePc(s, p, ok);
    } else if ChildOf(pc).Some? {
      ForkPc(s, p, ok);
    }
  }

  lemma GoMaps(s: State, p: nat, ok: bool)
    requires Inv(s) && s.cur == p && Busy(s, p)
    ensures Backed(GoStep(s, p, ok)) && Accounted(GoStep(s, p, ok))
  {
    var pc := s.procs[p].pc;
    if Changing(pc) {
      ChangeMaps(s, p, ok);
    } else if pc.Making? {
      MakeMaps(s, p, ok);
    } else if ChildOf(pc).Some? {
      ForkMaps(s, p, ok);
    }
  }

  /** What an action of `p` maps was mapped in `p` already, or is of the pipe `p` is making. */
  lemma GoFdSources(s: State, p: nat, ok: bool)
    requires Busy(s, p)
    ensures var s' := GoStep(s, p, ok);
            forall x | x in s'.fd && !HasFd(s, x, s'.fd[x]) ::
              (s.procs[p].pc.Making? && x.proc == p && s'.fd[x].pipe == s.procs[p].pc.pipe)
              || exists k: nat :: HasFd(s, Slot(p, k), s'.fd[x])
  {
  }

  lemma GoDataSources(s: State, p: nat, ok: bool)
    requires Busy(s, p)
    ensures var s' := GoStep(s, p, ok);
            forall x | x in s'.data && !HasData(s, x, s'.data[x]) ::
              (s.procs[p].pc.Making? && x.proc == p && s'.data[x] == s.procs[p].pc.pipe)
              || exists k: nat :: HasData(s, Slot(p, k), s'.data[x])
  {
  }

  lemma MakeUnseen(s: State, p: nat, ok: bool)
    requires Unseen(s) && Busy(s, p) && s.procs[p].pc.Making? && PcOk(s, p)
    ensures Unseen(GoStep(s, p, ok))
  {
    var s', pc := GoStep(s, p, ok), s.procs[p].pc;
    assert HasFd(s, Slot(p, pc.n0), End(pc.pipe, false));
    forall q | q in s'.procs && s'.procs[q].pc.Making?
      ensures OnlyAt(s', s'.procs[q].pc.pipe, q, s'.procs[q].pc.n0, s'.procs[q].pc.n1)
    {
      assert OnlyAt(s, s.procs[q].pc.pipe, q, s.procs[q].pc.n0, s.procs[q].pc.n1);
    }
  }

  lemma GoUnseen(s: State, p: nat, ok: bool)
    requires Unseen(s) && Nursery(s) && Busy(s, p) && !s.procs[p].pc.Making?
    ensures Unseen(GoStep(s, p, ok))
  {
    var s' := GoStep(s, p, ok);
    GoFdSources(s, p, ok);
    GoDataSources(s, p, ok);
    GoProcs(s, p, ok);
    forall q | q in s'.procs && s'.procs[q].pc.Making?
      ensures OnlyAt(s', s'.procs[q].pc.pipe, q, s'.procs[q].pc.n0, s'.procs[q].pc.n1)
    {
      NotMaking(s, p, ok);
      assert q in s.procs && s.procs[q] == s'.procs[q] && q != p;
    }
  }

  lemma NotMaking(s: State, p: nat, ok: bool)
    requires Busy(s, p) && !s.procs[p].pc.Making?
    ensures p in GoStep(s, p, ok).procs && !GoStep(s, p, ok).procs[p].pc.Making?
  {
  }

  lemma GoNursery(s: State, p: nat, ok: bool)
    requires Nursery(s) && Busy(s, p)
    ensures Nursery(GoStep(s, p, ok))
  {
    GoProcs(s, p, ok);
    SameChild(s, p, ok);
  }

  lemma SameChild(s: State, p: nat, ok: bool)
    requires Busy(s, p)
    ensures var s' := GoStep(s, p, ok);
            && p in s'.procs && (ChildOf(s'.procs[p].pc).Some? ==> ChildOf(s'.procs[p].pc) == ChildOf(s.procs[p].pc))
            && (ChildOf(s'.procs[p].pc).Some? ==> s'.procs.Keys == s.procs.Keys)
  {
    if ChildOf(s.procs[p].pc).None? { NoChild(s, p, ok); }
  }

  lemma NoChild(s: State, p: nat, ok: bool)
    requires Busy(s, p) && ChildOf(s.procs[p].pc).None?
    ensures p in GoStep(s, p, ok).procs && ChildOf(GoStep(s, p, ok).procs[p].pc).None?
  {
  }

  lemma GoBounded(s: State, p: nat, ok: bool)
    requires Bounded(s) && Busy(s, p)
    ensures Bounded(GoStep(s, p, ok))
  {
    BoundedSlots(s, p, ok);
    BoundedPcs(s, p, ok);
  }

  lemma BoundedSlots(s: State, p: nat, ok: bool)
    requires Bounded(s) && Busy(s, p)
    ensures forall x | x in GoStep(s, p, ok).fd :: x.num < MAXFD
    ensures forall x | x in GoStep(s, p, ok).data :: x.num < MAXFD
  {
  }

  lemma BoundedPcs(s: State, p: nat, ok: bool)
    requires Bounded(s) && Busy(s, p)
    ensures forall q | q in GoStep(s, p, ok).procs :: NumsOk(GoStep(s, p, ok).procs[q].pc)
  {
    GoProcs(s, p, ok);
    OwnNums(s, p, ok);
  }

  lemma OwnNums(s: State, p: nat, ok: bool)
    requires Busy(s, p) && NumsOk(s.procs[p].pc)
    ensures p in GoStep(s, p, ok).procs && NumsOk(GoStep(s, p, ok).procs[p].pc)
  {
    if Changing(s.procs[p].pc) { CloseNums(s, p, ok); }
  }

  lemma CloseNums(s: State, p: nat, ok: bool)
    requires Busy(s, p) && NumsOk(s.procs[p].pc) && Changing(s.procs[p].pc)
    ensures p in CloseStep(s, p, ok).procs && NumsOk(CloseStep(s, p, ok).procs[p].pc)
  {
  }

  lemma GoKeeps(s: State, p: nat, ok: bool)
    requires Inv(s) && s.cur == p && Busy(s, p)
    ensures Inv(GoStep(s, p, ok))
  {
    var s' := GoStep(s, p, ok);
    GoMaps(s, p, ok);
    GoOwnPc(s, p, ok);
    GoProcs(s, p, ok);
    forall q | q in s'.procs ensures PcOk(s', q) {
      if q != p && q in s.procs { GoFrame(s, p, ok, q); }
    }
    if s.procs[p].pc.Making? { MakeUnseen(s, p, ok); } else { GoUnseen(s, p, ok); }
    GoNursery(s, p, ok);
    GoBounded(s, p, ok);
  }

  /** An event that leaves the mappings alone keeps everything but the assertions. */
  lemma SameMaps(s: State, s': State)
    requires Backed(s) && Accounted(s) && Unseen(s) && Nursery(s) && Bounded(s) && s'.fd == s.fd && s'.data == s.data
    requires s'.procs.Keys == s.procs.Keys && (forall q | q in s.procs :: SameDuty(s.procs[q].pc, s'.procs[q].pc))
    ensures Backed(s') && Accounted(s') && Unseen(s') && Nursery(s') && Bounded(s')
  {
  }

  predicate SameDuty(pc: Pc, pc': Pc) {
    pc' == pc || (pc.Idle? && !pc'.Making? && ChildOf(pc').None? && NumsOk(pc'))
  }

  lemma SwitchKeeps(s: State, p: nat)
    requires Inv(s) && p in s.procs
    ensures Inv(Step(s, Switch(p)))
  {
    var s' := Step(s, Switch(p));
    SameMaps(s, s');
    forall q | q in s'.procs ensures PcOk(s', q) {
      assert PcOk(s, q);
      if q != p { PcFrame(s, s', q); } else { Reloaded(s, p); }
    }
  }

  lemma Reloaded(s: State, p: nat)
    requires p in s.procs && PcOk(s, p)
    ensures PcOk(Step(s, Switch(p)), p)
  {
  }

  lemma KillKeeps(s: State, p: nat)
    requires Inv(s) && Enabled(s, Kill(p))
    ensures Inv(Step(s, Kill(p)))
  {
    var s' := Step(s, Kill(p));
    forall q | q in s'.procs ensures PcOk(s', q) {
      PcFrame(s, s', q);
    }
  }

  lemma PipeMaps(s: State, p: nat, n0: nat, n1: nat, pipe: nat)
    requires Backed(s) && Accounted(s) && Unseen(s) && Nursery(s) && Bounded(s) && Enabled(s, Pipe(p, n0, n1, pipe))
    ensures Slot(p, n0) !in s.data && Slot(p, n1) !in s.data
    ensures var s' := Step(s, Pipe(p, n0, n1, pipe)); Backed(s') && Accounted(s') && Nursery(s') && Bounded(s')
  {
  }

  lemma PipeUnseen(s: State, p: nat, n0: nat, n1: nat, pipe: nat)
    requires Unseen(s) && (forall q | q in s.procs :: PcOk(s, q)) && Enabled(s, Pipe(p, n0, n1, pipe))
    ensures Unseen(Step(s, Pipe(p, n0, n1, pipe)))
  {
    var s' := Step(s, Pipe(p, n0, n1, pipe));
    forall q | q in s'.procs && s'.procs[q].pc.Making?
      ensures OnlyAt(s', s'.procs[q].pc.pipe, q, s'.procs[q].pc.n0, s'.procs[q].pc.n1)
    {
      if q != p {
        assert PcOk(s, q);
        assert HasFd(s, Slot(q, s.procs[q].pc.n0), End(s.procs[q].pc.pipe, false));
      }
    }
  }

  lemma PipeKeeps(s: State, p: nat, n0: nat, n1: nat, pipe: nat)
    requires Inv(s) && Enabled(s, Pipe(p, n0, n1, pipe))
    ensures Inv(Step(s, Pipe(p, n0, n1, pipe)))
  {
    var s' := Step(s, Pipe(p, n0, n1, pipe));
    PipeMaps(s, p, n0, n1, pipe);
    PipeUnseen(s, p, n0, n1, pipe);
    forall q | q in s'.procs ensures PcOk(s', q) {
      if q != p { PcFrame(s, s', q); }
    }
  }

  lemma ForkTables(s: State, p: nat, child: nat)
    requires Backed(s) && Accounted(s) && Unseen(s) && Nursery(s) && Bounded(s) && Enabled(s, Fork(p, child))
    ensures var s' := Step(s, Fork(p, child)); Backed(s') && Accounted(s') && Unseen(s') && Nursery(s') && Bounded(s')
  {
  }

  lemma ForkKeeps(s: State, p: nat, child: nat)
    requires Inv(s) && Enabled(s, Fork(p, child))
    ensures Inv(Step(s, Fork(p, child)))
  {
    var s' := Step(s, Fork(p, child));
    ForkTables(s, p, child);
    forall q | q in s'.procs ensures PcOk(s', q) {
      if q != p { PcFrame(s, s', q); }
    }
  }

  lemma CallKeeps(s: State, e: Event)
    requires Inv(s) && Enabled(s, e) && (e.Close? || e.Dup? || e.Ask?)
    ensures Inv(Step(s, e))
  {
    var s' := Step(s, e);
    SameMaps(s, s');
    forall q | q in s'.procs ensures PcOk(s', q) {
      if q != e.p { PcFrame(s, s', q); }
    }
  }

  lemma StepKeeps(s: State, e: Event)
    requires Inv(s) && Enabled(s, e)
    ensures Inv(Step(s, e))
  {
    match e
    case Switch(p) => SwitchKeeps(s, p);
    case Pipe(p, n0, n1, pipe) => PipeKeeps(s, p, n0, n1, pipe);
    case Fork(p, child) => ForkKeeps(s, p, child);
    case Go(p, ok) => GoKeeps(s, p, ok);
    case Kill(p) => KillKeeps(s, p);
    case _ => CallKeeps(s, e);
  }

  // ----- what the counts say, in any state -----

  /** Slots with the data page of `pipe` and no descriptor, and the other way round. */
  ghost function Bare(s: State, pipe: nat): set<Slot> {
    set x | x in s.data && s.data[x] == pipe && x !in s.fd
  }

  ghost function Unbacked(s: State, pipe: nat): set<Slot> {
    set x | x in s.fd && s.fd[x].pipe == pipe && !(x in s.data && s.data[x] == pipe)
  }

  /** No descriptor sits over the data page of another pipe. */
  ghost predicate NoMix(s: State) {
    forall x | x in s.fd && x in s.data :: s.data[x] == s.fd[x].pipe
  }

  /** Counting the slots that show `pipe`, once by data page and once by descriptor. */
  lemma CountLaw(s: State, e: End)
    requires NoMix(s)
    ensures DataRef(s, e.pipe) + |Unbacked(s, e.pipe)| ==
            FdRef(s, e) + FdRef(s, End(e.pipe, !e.writer)) + |Bare(s, e.pipe)|
  {
    SlotsApart(s, e);
    SlotsTogether(s, e);
    CountSplit(DataSlots(s, e.pipe), Unbacked(s, e.pipe), FdSlots(s, e), FdSlots(s, End(e.pipe, !e.writer)),
               Bare(s, e.pipe));
  }

  /** The comparison `_pipe_is_closed` makes, characterised for every state, reachable or not:
      the counts are equal exactly when the descriptors that lack their data page make up for the
      open ends on the other side and the data pages that lack a descriptor. */
  lemma EqualCountsIff(s: State, e: End)
    requires NoMix(s)
    ensures FdRef(s, e) == DataRef(s, e.pipe) <==>
            |Unbacked(s, e.pipe)| == FdRef(s, End(e.pipe, !e.writer)) + |Bare(s, e.pipe)|
  {
    CountLaw(s, e);
  }

  lemma SlotsTogether(s: State, e: End)
    requires NoMix(s)
    ensures DataSlots(s, e.pipe) + Unbacked(s, e.pipe) ==
            FdSlots(s, e) + FdSlots(s, End(e.pipe, !e.writer)) + Bare(s, e.pipe)
  {
    forall x ensures x in DataSlots(s, e.pipe) + Unbacked(s, e.pipe) <==>
                     x in FdSlots(s, e) + FdSlots(s, End(e.pipe, !e.writer)) + Bare(s, e.pipe)
    {
      SlotCases(s, e, x);
    }
  }

  lemma SlotsApart(s: State, e: End)
    ensures DataSlots(s, e.pipe) !! Unbacked(s, e.pipe)
    ensures FdSlots(s, e) !! FdSlots(s, End(e.pipe, !e.writer))
    ensures FdSlots(s, e) + FdSlots(s, End(e.pipe, !e.writer)) !! Bare(s, e.pipe)
  {
    assert e != End(e.pipe, !e.writer);
  }

  lemma SlotCases(s: State, e: End, x: Slot)
    requires NoMix(s)
    ensures x in DataSlots(s, e.pipe) || x in Unbacked(s, e.pipe) <==>
            x in FdSlots(s, e) || x in FdSlots(s, End(e.pipe, !e.writer)) || x in Bare(s, e.pipe)
  {
    if x in s.fd && s.fd[x].pipe == e.pipe {
      assert s.fd[x] == e || s.fd[x] == End(e.pipe, !e.writer);
    }
  }

  lemma CountSplit(d: set<Slot>, u: set<Slot>, a: set<Slot>, b: set<Slot>, c: set<Slot>)
    requires d + u == a + b + c && d !! u && a !! b && (a + b) !! c
    ensures |d| + |u| == |a| + |b| + |c|
  {
    assert |d + u| == |d| + |u|;
    assert |a + b| == |a| + |b|;
    assert |a + b + c| == |a + b| + |c|;
  }

  /** With no descriptor of the pipe lacking its data page, data references cover descriptor references. */
  lemma DataCoversEnds(s: State, pipe: nat)
    requires Inv(s) && Unbacked(s, pipe) == {}
    ensures DataRef(s, pipe) == FdRef(s, End(pipe, false)) + FdRef(s, End(pipe, true)) + |Bare(s, pipe)|
  {
    CountLaw(s, End(pipe, false));
  }

  /** An end of `pipe` is mapped somewhere. */
  ghost predicate Open(s: State, e: End) { exists x :: x in s.fd && s.fd[x] == e }

  lemma OpenCounts(s: State, e: End)
    ensures Open(s, e) <==> FdRef(s, e) > 0
  {
    if Open(s, e) {
      var x :| x in s.fd && s.fd[x] == e;
      assert x in FdSlots(s, e);
    } else {
      assert FdSlots(s, e) == {};
    }
  }

  function Other(e: End): End { End(e.pipe, !e.writer) }

  /** A pipe that another process has is not being made. */
  lemma SeenPipe(s: State, x: Slot, y: Slot)
    requires Backed(s) && Unseen(s) && x in s.fd && !HasData(s, x, s.fd[x].pipe)
    requires y in s.fd && s.fd[y].pipe == s.fd[x].pipe && y.proc in s.procs && !s.procs[y.proc].pc.Making?
    requires x.proc in s.procs ==> PcOk(s, x.proc)
    ensures x.proc !in s.procs
  {
    assert Excused(s, x);
  }

  /** The answer, in every state of every run, whatever is going on: it is "closed" if and only if the
      descriptors without data page make up for the other end's descriptors and the bare data pages; and
      such descriptors are in environments that are not running. */
  lemma AnswerExact(s: State, e: Event, p: nat, num: nat, closed: bool)
    requires Inv(s) && Enabled(s, e) && Answers(s, e, p, num, closed)
    ensures Slot(p, num) in s.fd
    ensures var mine := s.fd[Slot(p, num)];
            && (closed <==> |Unbacked(s, mine.pipe)| == FdRef(s, Other(mine)) + |Bare(s, mine.pipe)|)
            && (forall x | x in Unbacked(s, mine.pipe) :: x.proc !in s.procs)
  {
    assert PcOk(s, p);
    var mine := s.fd[Slot(p, num)];
    assert HasData(s, Slot(p, num), mine.pipe);
    EqualCountsIff(s, mine);
    forall x | x in Unbacked(s, mine.pipe) ensures x.proc !in s.procs {
      SeenPipe(s, x, Slot(p, num));
    }
  }

  /** So it is sound unless an environment that is not running has a descriptor of the pipe without the
      data page, and exact unless, besides, a data page of the pipe is without a descriptor. */
  lemma AnswerSound(s: State, e: Event, p: nat, num: nat, closed: bool)
    requires Inv(s) && Enabled(s, e) && Answers(s, e, p, num, closed)
    ensures Slot(p, num) in s.fd
    ensures var mine := s.fd[Slot(p, num)];
            Unbacked(s, mine.pipe) == {} ==> (closed <==> !Open(s, Other(mine)) && Bare(s, mine.pipe) == {})
  {
    AnswerExact(s, e, p, num, closed);
    OpenCounts(s, Other(s.fd[Slot(p, num)]));
  }

  /** No process is in the middle of `close` or `dup`, and none was destroyed in the middle. */
  ghost predicate Quiet(s: State) {
    && (forall p | p in s.procs :: InFlight(s.procs[p].pc) == None)
    && (forall x | x in s.data :: x.proc in s.procs)
  }

  lemma QuietIsExact(s: State, pipe: nat)
    requires Inv(s) && Quiet(s)
    ensures Bare(s, pipe) == {}
  {
  }

  // ----- runs -----

  ghost predicate ValidRun(s: State, es: seq<Event>)
    decreases |es|
  {
    es == [] || (Enabled(s, es[0]) && ValidRun(Step(s, es[0]), es[1..]))
  }

  ghost function Run(s: State, es: seq<Event>): State
    requires ValidRun(s, es)
    decreases |es|
  {
    if es == [] then s else Run(Step(s, es[0]), es[1..])
  }

  lemma {:induction false} RunKeeps(s: State, es: seq<Event>)
    requires Inv(s) && ValidRun(s, es)
    ensures Inv(Run(s, es))
    decreases |es|
  {
    if es != [] {
      StepKeeps(s, es[0]);
      RunKeeps(Step(s, es[0]), es[1..]);
    }
  }

  /** One process, no descriptors. */
  function Start(p: nat): State { State(map[], map[], map[p := Proc(Idle, 0)], p) }

  /** Close detection over every run: any preemption of `pipe`, `dup`, `close`, `fork` and the test itself,
      at single calls, and any number of pipes and processes. */
  lemma CloseDetection(p0: nat, es: seq<Event>, e: Event, p: nat, num: nat, closed: bool)
    requires ValidRun(Start(p0), es) && Enabled(Run(Start(p0), es), e)
    requires Answers(Run(Start(p0), es), e, p, num, closed)
    ensures var s := Run(Start(p0), es);
            && Slot(p, num) in s.fd
            && var mine := s.fd[Slot(p, num)];
               && (closed <==> |Unbacked(s, mine.pipe)| == FdRef(s, Other(mine)) + |Bare(s, mine.pipe)|)
               && (forall x | x in Unbacked(s, mine.pipe) :: x.proc !in s.procs)
               && (Unbacked(s, mine.pipe) == {} && closed ==> !Open(s, Other(mine)))
               && (Unbacked(s, mine.pipe) == {} && Quiet(s) ==> (closed <==> !Open(s, Other(mine))))
  {
    RunKeeps(Start(p0), es);
    var s := Run(Start(p0), es);
    AnswerExact(s, e, p, num, closed);
    AnswerSound(s, e, p, num, closed);
    if Quiet(s) { QuietIsExact(s, s.fd[Slot(p, num)].pipe); }
  }

  // ----- forks that are not cut off -----

  predicate Forking(s: State, q: nat) { q in s.procs && ChildOf(s.procs[q].pc).Some? }

  /** The processor stays with a process that forks. */
  predicate Uncut(s: State, e: Event) { e.Switch? || e.Kill? ==> forall q | q in s.procs :: !Forking(s, q) }

  /** All descriptors of the pipe are in environments that are gone. */
  ghost predicate Lost(s: State, pipe: nat) {
    forall y | y in s.fd && s.fd[y].pipe == pipe :: y.proc !in s.procs
  }

  /** Only the running process forks, and a descriptor without data page in an environment that is not
      running is its child's, or of a pipe that is lost. */
  ghost predicate Whole(s: State) {
    && (forall q | q in s.procs && Forking(s, q) :: q == s.cur)
    && (forall x | x in s.fd && x !in s.data && x.proc !in s.procs ::
          (s.cur in s.procs && ChildOf(s.procs[s.cur].pc) == Some(x.proc)) || Lost(s, s.fd[x].pipe))
  }

  /** A pipe that is lost stays lost: what a process maps it has from its own mappings. */
  lemma LostStays(s: State, p: nat, ok: bool, pipe: nat)
    requires Inv(s) && s.cur == p && Busy(s, p) && Lost(s, pipe)
    ensures Lost(GoStep(s, p, ok), pipe)
  {
    var s' := GoStep(s, p, ok);
    GoFdSources(s, p, ok);
    GoProcs(s, p, ok);
    assert PcOk(s, p);
    assert s.procs[p].pc.Making? ==> HasFd(s, Slot(p, s.procs[p].pc.n0), End(s.procs[p].pc.pipe, false));
    forall y | y in s'.fd && s'.fd[y].pipe == pipe ensures y.proc !in s'.procs {
      if HasFd(s, y, s'.fd[y]) && y.proc in s'.procs { ChildHas(s, p, y); }
    }
  }

  /** What a child has its parent has too. */
  lemma ChildHas(s: State, p: nat, y: Slot)
    requires p in s.procs && PcOk(s, p) && y in s.fd && ChildOf(s.procs[p].pc) == Some(y.proc)
    ensures HasFd(s, Slot(p, y.num), s.fd[y])
  {
    assert y == Slot(y.proc, y.num);
  }

  lemma WholeGo(s: State, p: nat, ok: bool)
    requires Inv(s) && Whole(s) && s.cur == p && Busy(s, p)
    ensures Whole(GoStep(s, p, ok))
  {
    var s' := GoStep(s, p, ok);
    GoProcs(s, p, ok);
    SameChild(s, p, ok);
    forall q | q in s'.procs && Forking(s', q) ensures q == s'.cur {
      if q != p && q in s.procs { assert Forking(s, q); }
    }
    forall x | x in s'.fd && x !in s'.data && x.proc !in s'.procs
      ensures ChildOf(s'.procs[p].pc) == Some(x.proc) || Lost(s', s'.fd[x].pipe)
    {
      GapFrom(s, p, ok, x);
    }
  }

  lemma GapFrom(s: State, p: nat, ok: bool, x: Slot)
    requires Inv(s) && Whole(s) && s.cur == p && Busy(s, p)
    requires x in GoStep(s, p, ok).fd && x !in GoStep(s, p, ok).data && x.proc !in GoStep(s, p, ok).procs
    ensures p in GoStep(s, p, ok).procs
    ensures ChildOf(GoStep(s, p, ok).procs[p].pc) == Some(x.proc) || Lost(GoStep(s, p, ok), GoStep(s, p, ok).fd[x].pipe)
  {
    GoProcs(s, p, ok);
    if ChildOf(s.procs[p].pc) == Some(x.proc) {
      StillChild(s, p, ok, x.proc);
    } else {
      GoLocal(s, p, ok, x.proc);
      LostStays(s, p, ok, s.fd[x].pipe);
    }
  }

  lemma StillChild(s: State, p: nat, ok: bool, child: nat)
    requires Busy(s, p) && ChildOf(s.procs[p].pc) == Some(child) && child !in GoStep(s, p, ok).procs
    ensures p in GoStep(s, p, ok).procs && ChildOf(GoStep(s, p, ok).procs[p].pc) == Some(child)
  {
  }

  lemma WholeKill(s: State, p: nat)
    requires Inv(s) && Whole(s) && Enabled(s, Kill(p)) && Uncut(s, Kill(p))
    ensures Whole(Step(s, Kill(p)))
  {
    var s' := Step(s, Kill(p));
    forall x | x in s'.fd && x !in s'.data && x.proc !in s'.procs ensures Lost(s', s'.fd[x].pipe) {
      KilledGap(s, p, x);
    }
  }

  lemma KilledGap(s: State, p: nat, x: Slot)
    requires Backed(s) && Unseen(s) && Whole(s) && Enabled(s, Kill(p)) && Uncut(s, Kill(p)) && PcOk(s, p)
    requires x in s.fd && x !in s.data && (x.proc !in s.procs || x.proc == p)
    ensures Lost(Step(s, Kill(p)), s.fd[x].pipe)
  {
    assert s.cur in s.procs ==> !Forking(s, s.cur);
    assert Excused(s, x);
  }

  lemma WholeStep(s: State, e: Event)
    requires Inv(s) && Whole(s) && Enabled(s, e) && Uncut(s, e)
    ensures Whole(Step(s, e))
  {
    match e
    case Go(p, ok) => WholeGo(s, p, ok);
    case Kill(p) => WholeKill(s, p);
    case _ =>
  }

  ghost predicate WholeRun(s: State, es: seq<Event>)
    decreases |es|
  {
    es == [] || (Enabled(s, es[0]) && Uncut(s, es[0]) && WholeRun(Step(s, es[0]), es[1..]))
  }

  lemma {:induction false} WholeRunKeeps(s: State, es: seq<Event>)
    requires Inv(s) && Whole(s) && WholeRun(s, es)
    ensures ValidRun(s, es) && Inv(Run(s, es)) && Whole(Run(s, es))
    decreases |es|
  {
    if es != [] {
      StepKeeps(s, es[0]);
      WholeStep(s, es[0]);
      WholeRunKeeps(Step(s, es[0]), es[1..]);
    }
  }

  /** If forks are not cut off, close detection never lies: "closed" means that the other end has no
      mapping anywhere, under any preemption of `pipe`, `dup`, `close` and the test; and with no `dup` or
      `close` in flight the answer is exact. */
  lemma WholeForkDetection(p0: nat, es: seq<Event>, e: Event, p: nat, num: nat, closed: bool)
    requires WholeRun(Start(p0), es)
    ensures ValidRun(Start(p0), es)
    ensures Enabled(Run(Start(p0), es), e) && Answers(Run(Start(p0), es), e, p, num, closed) ==>
              var s := Run(Start(p0), es);
              && Slot(p, num) in s.fd
              && var mine := s.fd[Slot(p, num)];
                 && (closed ==> !Open(s, Other(mine)))
                 && (Quiet(s) ==> (closed <==> !Open(s, Other(mine))))
                 && DataRef(s, mine.pipe) >= FdRef(s, mine) + FdRef(s, Other(mine))
  {
    WholeRunKeeps(Start(p0), es);
    var s := Run(Start(p0), es);
    if Enabled(s, e) && Answers(s, e, p, num, closed) {
      WholeAnswer(s, e, p, num, closed);
      if Quiet(s) { QuietIsExact(s, s.fd[Slot(p, num)].pipe); }
    }
  }

  lemma WholeAnswer(s: State, e: Event, p: nat, num: nat, closed: bool)
    requires Inv(s) && Whole(s) && Enabled(s, e) && Answers(s, e, p, num, closed)
    ensures Slot(p, num) in s.fd
    ensures var mine := s.fd[Slot(p, num)];
            && (closed <==> !Open(s, Other(mine)) && Bare(s, mine.pipe) == {})
            && DataRef(s, mine.pipe) >= FdRef(s, mine) + FdRef(s, Other(mine))
  {
    AnswerExact(s, e, p, num, closed);
    AnswerSound(s, e, p, num, closed);
    var mine := s.fd[Slot(p, num)];
    assert !Lost(s, mine.pipe) by { assert Slot(p, num) in s.fd; }
    assert Unbacked(s, mine.pipe) == {};
    CountLaw(s, mine);
  }

  // ----- a fork that is cut off -----

  lemma Prepend(s: State, e: Event, rest: seq<Event>)
    requires Enabled(s, e) && ValidRun(Step(s, e), rest)
    ensures ValidRun(s, [e] + rest) && Run(s, [e] + rest) == Run(Step(s, e), rest)
  {
    assert ([e] + rest)[1..] == rest;
  }

  lemma {:induction false} Concat(s: State, es: seq<Event>, fs: seq<Event>)
    requires ValidRun(s, es) && ValidRun(Run(s, es), fs)
    ensures ValidRun(s, es + fs) && Run(s, es + fs) == Run(Run(s, es), fs)
    decreases |es|
  {
    if es == [] {
      assert es + fs == fs;
    } else {
      Concat(Step(s, es[0]), es[1..], fs);
      assert (es + fs)[1..] == es[1..] + fs;
    }
  }

  /** `t` is `s` but for the child's mappings and the program counter of `p`. */
  ghost predicate Filling(s: State, t: State, p: nat, child: nat, pc: Pc) {
    && p in s.procs && t.cur == s.cur && t.procs == s.procs[p := s.procs[p].(pc := pc)]
    && (forall r: nat | r != child :: SameAt(s, t, r))
  }

  lemma FillingTwice(s: State, t: State, u: State, p: nat, child: nat, pc: Pc, pc': Pc)
    requires Filling(s, t, p, child, pc) && Filling(t, u, p, child, pc')
    ensures Filling(s, u, p, child, pc')
  {
    forall r: nat | r != child ensures SameAt(s, u, r) {
      assert SameAt(s, t, r) && SameAt(t, u, r);
    }
  }

  lemma FdTurn(s: State, p: nat, child: nat, n: nat)
    requires Inv(s) && s.cur == p && p in s.procs && s.procs[p].pc == ForkFd(child, n)
    ensures Enabled(s, Go(p, true)) && n <= MAXFD
    ensures var t := Step(s, Go(p, true));
            t.data == s.data && Filling(s, t, p, child, if n < MAXFD then ForkFd(child, n + 1) else ForkData(child, 0))
  {
    assert PcOk(s, p);
  }

  /** The descriptor half of a fork. */
  lemma {:induction false} FdHalf(s: State, p: nat, child: nat, n: nat) returns (es: seq<Event>)
    requires Inv(s) && s.cur == p && p in s.procs && s.procs[p].pc == ForkFd(child, n)
    ensures ValidRun(s, es) && Inv(Run(s, es)) && Run(s, es).data == s.data
    ensures Filling(s, Run(s, es), p, child, ForkData(child, 0))
    decreases MAXFD - n
  {
    FdTurn(s, p, child, n);
    var t := Step(s, Go(p, true));
    StepKeeps(s, Go(p, true));
    if n >= MAXFD {
      es := [Go(p, true)];
      Prepend(s, Go(p, true), []);
      assert [Go(p, true)] + [] == [Go(p, true)];
    } else {
      var rest := FdHalf(t, p, child, n + 1);
      Prepend(s, Go(p, true), rest);
      es := [Go(p, true)] + rest;
      FillingTwice(s, t, Run(t, rest), p, child, ForkFd(child, n + 1), ForkData(child, 0));
    }
  }

  /** The slots of `p` that show the end `e`. */
  ghost function OwnFds(s: State, p: nat, e: End): set<Slot> { set x | x in s.fd && s.fd[x] == e && x.proc == p }

  /** After that half the child's descriptors count, and its data pages do not. */
  lemma HalfCounts(s: State, t: State, p: nat, child: nat, e: End)
    requires p != child && (forall x | x in s.fd :: x.proc != child) && t.data == s.data
    requires forall r: nat | r != child :: SameAt(s, t, r)
    requires Bounded(s) && CopiedFd(t, p, child, MAXFD)
    ensures FdRef(t, e) == FdRef(s, e) + |OwnFds(s, p, e)| && DataRef(t, e.pipe) == DataRef(s, e.pipe)
  {
    var copies := set y | y in OwnFds(s, p, e) :: Twin(y, child);
    forall x ensures x in FdSlots(t, e) <==> x in FdSlots(s, e) || x in copies {
      HalfSlot(s, t, p, child, e, x);
      assert x in copies <==> x.proc == child && Slot(p, x.num) in OwnFds(s, p, e) by {
        if x.proc == child && Slot(p, x.num) in OwnFds(s, p, e) { assert x == Twin(Slot(p, x.num), child); }
      }
    }
    Disjoint(FdSlots(s, e), copies, child);
    SameSize(OwnFds(s, p, e), p, child);
    assert FdSlots(t, e) == FdSlots(s, e) + copies;
  }

  lemma HalfSlot(s: State, t: State, p: nat, child: nat, e: End, x: Slot)
    requires p != child && (forall y | y in s.fd :: y.proc != child) && SameAt(s, t, p)
    requires x.proc != child ==> SameAt(s, t, x.proc)
    requires Bounded(s) && CopiedFd(t, p, child, MAXFD)
    ensures x in FdSlots(t, e) <==> x in FdSlots(s, e) || (x.proc == child && Slot(p, x.num) in OwnFds(s, p, e))
  {
    assert x == Slot(x.proc, x.num);
  }

  lemma Disjoint(a: set<Slot>, b: set<Slot>, child: nat)
    requires (forall x | x in a :: x.proc != child) && (forall x | x in b :: x.proc == child)
    ensures |a + b| == |a| + |b|
  {
    assert a !! b;
  }

  function Twin(x: Slot, child: nat): Slot { Slot(child, x.num) }

  lemma {:induction false} SameSize(a: set<Slot>, p: nat, child: nat)
    requires forall x | x in a :: x.proc == p
    ensures |set x | x in a :: Twin(x, child)| == |a|
    decreases |a|
  {
    if a != {} {
      var y :| y in a;
      SameSize(a - {y}, p, child);
      var b, b' := set x | x in a :: Twin(x, child), set x | x in a - {y} :: Twin(x, child);
      assert b == b' + {Twin(y, child)};
      assert Twin(y, child) !in b';
    }
  }

  /** Process `q` has the processor and stands at `pc`. */
  function Standing(t: State, q: nat, pc: Pc): State
    requires q in t.procs
  {
    t.(cur := q, procs := t.procs[q := Proc(pc, t.procs[q].runs + 1)])
  }

  lemma StandNext(t: State, q: nat, pc: Pc, pc': Pc)
    requires q in t.procs
    ensures SetPc(Standing(t, q, pc), q, pc') == Standing(t, q, pc')
  {
    assert SetPc(Standing(t, q, pc), q, pc').procs == Standing(t, q, pc').procs;
  }

  /** The three reads of the test, with nobody else on the processor. */
  lemma AskReads(t: State, q: nat, num: nat)
    requires q in t.procs && Slot(q, num) in t.fd
    ensures var r, x, e := t.procs[q].runs + 1, Slot(q, num), Go(q, true);
            var f, d := PagerefFd(t, x), PagerefData(t, x);
            && Enabled(Standing(t, q, AskRuns(num)), e)
            && Step(Standing(t, q, AskRuns(num)), e) == Standing(t, q, AskFd(num, r))
            && Enabled(Standing(t, q, AskFd(num, r)), e)
            && Step(Standing(t, q, AskFd(num, r)), e) == Standing(t, q, AskPipe(num, r, f))
            && Enabled(Standing(t, q, AskPipe(num, r, f)), e)
            && Step(Standing(t, q, AskPipe(num, r, f)), e) == Standing(t, q, AskTest(num, r, f, d))
  {
    var r, x := t.procs[q].runs + 1, Slot(q, num);
    var f, d := PagerefFd(t, x), PagerefData(t, x);
    SamePageref(t, Standing(t, q, AskPipe(num, r, f)), x);
    SamePageref(t, Standing(t, q, AskFd(num, r)), x);
    StandNext(t, q, AskRuns(num), AskFd(num, r));
    StandNext(t, q, AskFd(num, r), AskPipe(num, r, f));
    StandNext(t, q, AskPipe(num, r, f), AskTest(num, r, f, d));
  }

  lemma SamePageref(s: State, s1: State, x: Slot)
    requires s1.fd == s.fd && s1.data == s.data
    ensures PagerefFd(s1, x) == PagerefFd(s, x) && PagerefData(s1, x) == PagerefData(s, x)
  {
    if x in s.fd { assert FdSlots(s1, s.fd[x]) == FdSlots(s, s.fd[x]); }
    if x in s.data { assert DataSlots(s1, s.data[x]) == DataSlots(s, s.data[x]); }
  }

  /** A whole test by `q`. */
  lemma AskRun(t: State, q: nat, num: nat) returns (es: seq<Event>)
    requires q in t.procs && t.procs[q].pc.Idle? && Slot(q, num) in t.fd
    ensures ValidRun(t, es)
    ensures var u, x := Run(t, es), Slot(q, num);
            && u.fd == t.fd && u.data == t.data && u.procs.Keys == t.procs.Keys && Enabled(u, Go(q, true))
            && Answers(u, Go(q, true), q, num, PagerefFd(t, x) == PagerefData(t, x))
  {
    AskReads(t, q, num);
    StandNext(t, q, Idle, AskRuns(num));
    assert Step(t, Switch(q)) == Standing(t, q, Idle);
    var e, r := Go(q, true), t.procs[q].runs + 1;
    var f := PagerefFd(t, Slot(q, num));
    Prepend(Standing(t, q, AskPipe(num, r, f)), e, []);
    Prepend(Standing(t, q, AskFd(num, r)), e, [e] + []);
    Prepend(Standing(t, q, AskRuns(num)), e, [e] + ([e] + []));
    Prepend(Standing(t, q, Idle), Ask(q, num), [e] + ([e] + ([e] + [])));
    Prepend(t, Switch(q), [Ask(q, num)] + ([e] + ([e] + ([e] + []))));
    es := [Switch(q)] + ([Ask(q, num)] + ([e] + ([e] + ([e] + []))));
  }

  lemma OpenInHalf(s: State, t: State, p: nat, child: nat, e: End)
    requires FdRef(t, e) == FdRef(s, e) + |OwnFds(s, p, e)|
    ensures Open(t, e) <==> Open(s, e)
  {
    OpenCounts(s, e);
    OpenCounts(t, e);
    if OwnFds(s, p, e) != {} {
      var x :| x in OwnFds(s, p, e);
      assert Open(s, e);
    }
  }

  lemma ForkBegins(s: State, p: nat, child: nat)
    requires Inv(s) && Enabled(s, Fork(p, child))
    ensures var s1 := Step(s, Fork(p, child));
            && Inv(s1) && s1.cur == p && p in s1.procs && s1.procs[p].pc == ForkFd(child, 0)
            && s1.fd == s.fd && s1.data == s.data && Filling(s, s1, p, child, ForkFd(child, 0)) && p != child
  {
    StepKeeps(s, Fork(p, child));
  }

  /** A fork by `p` up to its data pages. */
  lemma FdRun(s: State, p: nat, child: nat) returns (es: seq<Event>)
    requires Inv(s) && Enabled(s, Fork(p, child))
    ensures ValidRun(s, es) && Inv(Run(s, es)) && Run(s, es).data == s.data && p != child
    ensures Filling(s, Run(s, es), p, child, ForkData(child, 0)) && CopiedFd(Run(s, es), p, child, MAXFD)
  {
    ForkBegins(s, p, child);
    var s1 := Step(s, Fork(p, child));
    var es1 := FdHalf(s1, p, child, 0);
    Prepend(s, Fork(p, child), es1);
    es := [Fork(p, child)] + es1;
    FillingTwice(s, s1, Run(s1, es1), p, child, ForkFd(child, 0), ForkData(child, 0));
    HalfCopied(Run(s1, es1), p, child);
  }

  lemma HalfCopied(t: State, p: nat, child: nat)
    requires p in t.procs && PcOk(t, p) && t.procs[p].pc == ForkData(child, 0)
    ensures CopiedFd(t, p, child, MAXFD)
  {
  }

  /** ... as another process `q` sees it. */
  lemma HalfFork(s: State, p: nat, child: nat, q: nat, e: End) returns (es: seq<Event>)
    requires Inv(s) && Enabled(s, Fork(p, child)) && q in s.procs && q != p
    ensures ValidRun(s, es)
    ensures var t := Run(s, es);
            && q in t.procs && t.procs[q] == s.procs[q] && SameAt(s, t, q)
            && FdRef(t, e) == FdRef(s, e) + |OwnFds(s, p, e)| && DataRef(t, e.pipe) == DataRef(s, e.pipe)
            && (Open(t, Other(e)) <==> Open(s, Other(e)))
  {
    es := FdRun(s, p, child);
    var t := Run(s, es);
    HalfCounts(s, t, p, child, e);
    HalfCounts(s, t, p, child, Other(e));
    OpenInHalf(s, t, p, child, Other(e));
    assert SameAt(s, t, q);
  }

  /** What a third process is told when a fork by `p` is cut off between its two halves, in any state where
      the pipe is in order before: "closed" if and only if `p` holds as many descriptors of the asker's
      end as there are of the other end altogether. The other end is as open as before. */
  lemma HalfForkIff(s: State, p: nat, child: nat, q: nat, num: nat) returns (es: seq<Event>)
    requires Inv(s) && Enabled(s, Fork(p, child)) && q in s.procs && q != p && s.procs[q].pc.Idle?
    requires Slot(q, num) in s.fd
    requires Unbacked(s, s.fd[Slot(q, num)].pipe) == {} && Bare(s, s.fd[Slot(q, num)].pipe) == {}
    ensures ValidRun(s, es) && Enabled(Run(s, es), Go(q, true))
    ensures var mine := s.fd[Slot(q, num)];
            && Answers(Run(s, es), Go(q, true), q, num, |OwnFds(s, p, mine)| == FdRef(s, Other(mine)))
            && (Open(Run(s, es), Other(mine)) <==> Open(s, Other(mine)))
  {
    var x, mine := Slot(q, num), s.fd[Slot(q, num)];
    var es1 := HalfFork(s, p, child, q, mine);
    var t := Run(s, es1);
    assert HasFd(t, x, mine) && HasData(s, x, mine.pipe) && HasData(t, x, mine.pipe);
    var es2 := AskRun(t, q, num);
    Concat(s, es1, es2);
    es := es1 + es2;
    SameCounts(t, Run(t, es2), q, Other(mine));
    CountLaw(s, mine);
  }

  lemma SameCounts(s: State, s1: State, p: nat, e: End)
    requires s1.fd == s.fd && s1.data == s.data
    ensures FdRef(s1, e) == FdRef(s, e) && DataRef(s1, e.pipe) == DataRef(s, e.pipe)
    ensures OwnFds(s1, p, e) == OwnFds(s, p, e) && (Open(s1, e) <==> Open(s, e))
  {
    assert FdSlots(s1, e) == FdSlots(s, e) && DataSlots(s1, e.pipe) == DataSlots(s, e.pipe);
    OpenCounts(s, e);
    OpenCounts(s1, e);
  }

  lemma DataTurn(s: State, p: nat, child: nat, n: nat)
    requires Inv(s) && s.cur == p && p in s.procs && s.procs[p].pc == ForkData(child, n) && n < MAXFD
    ensures Enabled(s, Go(p, true))
    ensures var t := Step(s, Go(p, true)); t.fd == s.fd && Filling(s, t, p, child, ForkData(child, n + 1))
  {
    assert PcOk(s, p);
  }

  /** What a fork has done once its data pages are handed over. */
  ghost predicate Forked(s: State, t: State, p: nat, child: nat) {
    && p in s.procs && t.cur == p && t.procs == s.procs[p := s.procs[p].(pc := Idle)][child := Proc(Idle, 0)]
    && (forall r: nat | r != child :: SameAt(s, t, r))
    && CopiedFd(t, p, child, MAXFD) && CopiedData(t, p, child, MAXFD)
  }

  lemma ForkedLater(s: State, t: State, u: State, p: nat, child: nat, pc: Pc)
    requires Filling(s, t, p, child, pc) && Forked(t, u, p, child)
    ensures Forked(s, u, p, child)
  {
    forall r: nat | r != child ensures SameAt(s, u, r) {
      assert SameAt(s, t, r) && SameAt(t, u, r);
    }
  }

  lemma LastTurn(s: State, p: nat, child: nat)
    requires Inv(s) && s.cur == p && p in s.procs && s.procs[p].pc == ForkData(child, MAXFD)
    ensures Enabled(s, Go(p, true)) && Forked(s, Step(s, Go(p, true)), p, child)
  {
    assert PcOk(s, p);
  }

  /** The data half of a fork, and the start of the child. */
  lemma {:induction false} DataHalf(s: State, p: nat, child: nat, n: nat) returns (es: seq<Event>)
    requires Inv(s) && s.cur == p && p in s.procs && s.procs[p].pc == ForkData(child, n) && n <= MAXFD
    ensures ValidRun(s, es) && Inv(Run(s, es)) && Forked(s, Run(s, es), p, child)
    decreases MAXFD - n
  {
    StepKeeps(s, Go(p, true));
    var t := Step(s, Go(p, true));
    if n == MAXFD {
      LastTurn(s, p, child);
      es := [Go(p, true)];
      Prepend(s, Go(p, true), []);
      assert [Go(p, true)] + [] == [Go(p, true)];
    } else {
      DataTurn(s, p, child, n);
      var rest := DataHalf(t, p, child, n + 1);
      Prepend(s, Go(p, true), rest);
      es := [Go(p, true)] + rest;
      ForkedLater(s, t, Run(t, rest), p, child, ForkData(child, n + 1));
    }
  }

  /** A fork that nobody interrupts. */
  lemma ForkRun(s: State, p: nat, child: nat) returns (es: seq<Event>)
    requires Inv(s) && Enabled(s, Fork(p, child))
    ensures ValidRun(s, es) && Inv(Run(s, es)) && Forked(s, Run(s, es), p, child)
  {
    var es1 := FdRun(s, p, child);
    var t := Run(s, es1);
    var es2 := DataHalf(t, p, child, 0);
    Concat(s, es1, es2);
    es := es1 + es2;
    ForkedLater(s, t, Run(t, es2), p, child, ForkData(child, 0));
  }

  // ----- such a run, from the start -----

  /** Process 1 with both ends of pipe 0. */
  function OnePipe(): State {
    State(map[Slot(1, 0) := End(0, false), Slot(1, 1) := End(0, true)], map[Slot(1, 0) := 0, Slot(1, 1) := 0],
          map[1 := Proc(Idle, 0)], 1)
  }

  lemma PipeRun() returns (es: seq<Event>)
    ensures ValidRun(Start(1), es) && Run(Start(1), es) == OnePipe()
  {
    var s1 := Step(Start(1), Pipe(1, 0, 1, 0));
    assert s1.fd == map[Slot(1, 0) := End(0, false)] && s1.data == map[];
    assert s1.procs == map[1 := Proc(Making(0, 1, 0, MapFd1), 0)];
    var rest := PipeRest(s1);
    Prepend(Start(1), Pipe(1, 0, 1, 0), rest);
    es := [Pipe(1, 0, 1, 0)] + rest;
  }

  lemma PipeRest(s1: State) returns (es: seq<Event>)
    requires s1.fd == map[Slot(1, 0) := End(0, false)] && s1.data == map[] && s1.cur == 1
    requires s1.procs == map[1 := Proc(Making(0, 1, 0, MapFd1), 0)]
    ensures ValidRun(s1, es) && Run(s1, es) == OnePipe()
  {
    var e := Go(1, true);
    var s2 := Step(s1, e);
    var s3 := Step(s2, e);
    var s4 := Step(s3, e);
    Prepend(s3, e, []);
    Prepend(s2, e, [e] + []);
    Prepend(s1, e, [e] + ([e] + []));
    es := [e] + ([e] + ([e] + []));
    assert s4.fd == OnePipe().fd && s4.data == OnePipe().data && s4.procs == OnePipe().procs;
  }

  /** Process 3 closes its writing end, and process 1 has the processor again. */
  lemma CloseRun(t: State) returns (es: seq<Event>)
    requires t.procs == map[1 := Proc(Idle, 0), 3 := Proc(Idle, 0)] && Slot(3, 1) in t.fd
    ensures ValidRun(t, es)
    ensures var u := Run(t, es);
            && u.fd == t.fd - {Slot(3, 1)} && u.data == t.data - {Slot(3, 1)} && u.cur == 1
            && u.procs.Keys == {1, 3} && u.procs[1].pc == Idle && u.procs[3].pc == Idle
  {
    var e := Go(3, true);
    var t1 := Step(t, Switch(3));
    var t2 := Step(t1, Close(3, 1));
    var t3 := Step(t2, e);
    var t4 := Step(t3, e);
    var t5 := Step(t4, e);
    Prepend(t5, Switch(1), []);
    Prepend(t4, e, [Switch(1)] + []);
    Prepend(t3, e, [e] + ([Switch(1)] + []));
    Prepend(t2, e, [e] + ([e] + ([Switch(1)] + [])));
    Prepend(t1, Close(3, 1), [e] + ([e] + ([e] + ([Switch(1)] + []))));
    Prepend(t, Switch(3), [Close(3, 1)] + ([e] + ([e] + ([e] + ([Switch(1)] + [])))));
    es := [Switch(3)] + ([Close(3, 1)] + ([e] + ([e] + ([e] + ([Switch(1)] + [])))));
  }

  /** Process 1 has both ends, process 3 the reading end. */
  ghost predicate ReaderApart(s: State) {
    && s.cur == 1 && s.procs.Keys == {1, 3} && s.procs[1].pc == Idle && s.procs[3].pc == Idle
    && (forall x :: x in s.fd <==> x == Slot(1, 0) || x == Slot(1, 1) || x == Slot(3, 0))
    && (forall x :: x in s.data <==> x == Slot(1, 0) || x == Slot(1, 1) || x == Slot(3, 0))
    && (forall x | x in s.fd :: s.fd[x] == End(0, x.num == 1))
    && (forall x | x in s.data :: s.data[x] == 0)
  }

  ghost predicate BothTwice(t: State) {
    && t.procs == map[1 := Proc(Idle, 0), 3 := Proc(Idle, 0)]
    && (forall x :: x in t.fd <==> Corner(x)) && (forall x :: x in t.data <==> Corner(x))
    && (forall x | x in t.fd :: t.fd[x] == End(0, x.num == 1)) && (forall x | x in t.data :: t.data[x] == 0)
  }

  lemma BothTwiceRun() returns (es: seq<Event>)
    ensures ValidRun(Start(1), es) && BothTwice(Run(Start(1), es))
  {
    var es1 := PipeRun();
    ReachedInv(es1);
    var es2 := ForkRun(OnePipe(), 1, 3);
    TwoPipes(Run(OnePipe(), es2));
    Concat(Start(1), es1, es2);
    es := es1 + es2;
  }

  lemma ReaderApartRun() returns (es: seq<Event>)
    ensures ValidRun(Start(1), es) && Inv(Run(Start(1), es)) && ReaderApart(Run(Start(1), es))
  {
    var es1 := BothTwiceRun();
    var t := Run(Start(1), es1);
    var es2 := CloseRun(t);
    Concat(Start(1), es1, es2);
    es := es1 + es2;
    ReachedInv(es);
    ReaderLeft(t, Run(t, es2));
  }

  lemma ReachedInv(es: seq<Event>)
    requires ValidRun(Start(1), es)
    ensures Inv(Run(Start(1), es))
  {
    RunKeeps(Start(1), es);
  }

  lemma ReaderLeft(t: State, u: State)
    requires BothTwice(t) && u.fd == t.fd - {Slot(3, 1)} && u.data == t.data - {Slot(3, 1)} && u.cur == 1
    requires u.procs.Keys == {1, 3} && u.procs[1].pc == Idle && u.procs[3].pc == Idle
    ensures ReaderApart(u)
  {
    forall x: Slot ensures Corner(x) && x != Slot(3, 1) <==> x == Slot(1, 0) || x == Slot(1, 1) || x == Slot(3, 0) {
      assert x == Slot(x.proc, x.num);
    }
  }

  predicate Corner(x: Slot) { (x.proc == 1 || x.proc == 3) && x.num < 2 }

  lemma TwoPipes(t: State)
    requires Forked(OnePipe(), t, 1, 3) && Bounded(t)
    ensures BothTwice(t)
  {
    forall x: Slot
      ensures (x in t.fd <==> Corner(x)) && (x in t.data <==> Corner(x))
      ensures (x in t.fd ==> t.fd[x] == End(0, x.num == 1)) && (x in t.data ==> t.data[x] == 0)
    {
      if x.proc == 3 { ThirdAt(t, x); } else { OnePipeAt(x); assert SameAt(OnePipe(), t, x.proc); }
    }
  }

  lemma OnePipeAt(x: Slot)
    requires x.proc != 3
    ensures (x in OnePipe().fd <==> Corner(x)) && (x in OnePipe().data <==> Corner(x))
    ensures Corner(x) ==> OnePipe().fd[x] == End(0, x.num == 1) && OnePipe().data[x] == 0
  {
    assert x == Slot(x.proc, x.num);
  }

  lemma ThirdAt(t: State, x: Slot)
    requires x.proc == 3 && Forked(OnePipe(), t, 1, 3)
    ensures (x in t.fd <==> Corner(x)) && (x in t.data <==> Corner(x))
    ensures Corner(x) ==> t.fd[x] == End(0, x.num == 1) && t.data[x] == 0
  {
    assert x == Slot(3, x.num) && SameAt(OnePipe(), t, 1);
    OnePipeAt(Slot(1, x.num));
  }

  /** Over a run from the start: while process 1 is in the middle of a fork, process 3 is told that the pipe
      is closed, although its writing end is open. */
  lemma HalfForkMisleads() returns (es: seq<Event>)
    ensures ValidRun(Start(1), es)
    ensures var s := Run(Start(1), es);
            && Enabled(s, Go(3, true)) && Answers(s, Go(3, true), 3, 0, true) && Open(s, End(0, true))
  {
    var es1 := ReaderApartRun();
    var s := Run(Start(1), es1);
    assert Unbacked(s, 0) == {} && Bare(s, 0) == {};
    assert OwnFds(s, 1, End(0, false)) == {Slot(1, 0)};
    assert FdSlots(s, End(0, true)) == {Slot(1, 1)};
    assert Open(s, End(0, true)) by { assert Slot(1, 1) in s.fd; }
    var es2 := HalfForkIff(s, 1, 2, 3, 0);
    Concat(Start(1), es1, es2);
    es := es1 + es2;
  }
}
