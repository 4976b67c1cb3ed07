/** The slots of a VGI channel as a transition system: every Atomics operation and
    every byte copy of `slotOpen`, `slotRelease`, the stub and the worker
    operations is a step of its own, interleaved in any way over any number of
    threads and slots. Waits and notifications are no-ops. */
module VgiChannel {
  import opened Wrappers
  import opened VgiLayout
  import opened VgiRing

  type Tid = nat

  datatype Terminal = Terminal(code: int, detail: int)

  /** `state` to `termDetail` are the shared lanes and data of one slot. The other
      fields are history: the claim published last, whether its rings are in use
      (no opener has started to reset them), who took the reservation, which
      client owns the slot, what each claim stored as its terminal error and who
      stored it, and whether every error close so far was the only one of its
      claim and ran while that claim was current. */
  datatype Slot = Slot(
    state: int, reservation: int, c2w: Ring, w2c: Ring, termClaim: int, termCode: int, termDetail: int,
    cur: int, live: bool, holder: Option<Tid>, client: Option<Tid>,
    errLog: map<int, Terminal>, errBy: map<int, Tid>, clean: bool)

  // `opens` and `published` are history: how often the sequence lane was bumped,
  // and which claim ids have ever been stored in a STATE lane.
  datatype Env = Env(cap: int, features: int, opens: nat, published: set<int>)

  // -------------------------------------------------------------------------
  // Threads

  datatype OpenPc =
    | OCas              // compareExchange on RESERVATION
    | OCheck            // load of STATE
    | OBack             // the slot is in use: give the reservation back
    | OReset(j: nat)    // about to clear lane j; 9 is the publication of STATE
    | OUnlock           // published: store RESERVATION free

  datatype ObsPc =
    | OFeatures
    | OState
    | OClaim(claim: int)
    | OCode(claim: int)
    | ODetail(claim: int, code: int)
    | OState2(claim: int, code: int, detail: int)
    | OClaim2(claim: int, code: int, detail: int)
    | ONull
    | OGot(claim: int, code: int, detail: int)

  datatype StubPc = SFeatures | SState | SClaim | SState2(token: int)

  datatype ClientRead =
    | CRead(rd: Read)
    | CTerm(obs: ObsPc, eos: ReadResult)      // stubReadWithTerminal after a 0
    | CStub(stub: StubPc, eos: ReadResult)    // the same question in js-stubs.js
    | CDone(answer: Answer)

  datatype Answer = Nothing | Got(result: ReadResult) | TerminalError(eos: ReadResult)

  datatype Job = JWrite(wr: Write) | JRead(rd: Read) | JClose

  // A write that has lost its claim returns how many bytes it had written by then.
  datatype Outcome = NoOutcome | LostClaim(written: int) | Wrote(n: nat) | ReadDone(result: ReadResult) | Closed

  datatype WorkerOp =
    | Ready(last: Outcome)
    | AcqLoad(job: Job)      // acquireWorkerOperation: load of STATE
    | AcqCas(job: Job)       // compareExchange on RESERVATION
    | AcqCheck(job: Job)     // second load of STATE
    | AcqUndo(job: Job)      // the claim is gone: give the reservation back
    | Crit(job: Job)         // between acquire and release
    | Releasing(job: Job)    // releaseWorkerOperation
    | ErrClose(j: nat, code: int, detail: int)  // store j of workerCloseError

  datatype Thread =
    | Idle
    | Opening(id: int, slot: nat, opc: OpenPc)
    | Client(id: int, slot: nat, wr: Option<Write>, rd: ClientRead)
    | Worker(claim: int, slot: nat, op: WorkerOp)
    | Observer(slot: nat, obs: ObsPc)

  datatype Chan = Chan(env: Env, claimSeq: int, slots: seq<Slot>, threads: map<Tid, Thread>)

  function SlotOf(th: Thread): Option<nat> {
    if th.Idle? then None else Some(th.slot)
  }

  // -------------------------------------------------------------------------
  // slotOpen

  function ResetLane(a: Slot, j: nat): Slot {
    match j
    case 0 => a.(c2w := a.c2w.(w := 0))
    case 1 => a.(c2w := a.c2w.(r := 0))
    case 2 => a.(c2w := a.c2w.(closed := 0))
    case 3 => a.(w2c := a.w2c.(w := 0))
    case 4 => a.(w2c := a.w2c.(r := 0))
    case 5 => a.(w2c := a.w2c.(closed := 0))
    case 6 => a.(termClaim := 0)
    case 7 => a.(termCode := 0)
    case 8 => a.(termDetail := 0)
    case _ => a
  }

  const RESET_LANES := 9

  function NewHistory(ring: Ring): Ring {
    ring.(sent := [], recv := [], closedAt := None)
  }

  function Publish(a: Slot, t: Tid, id: int): Slot {
    a.(state := id, cur := id, live := true, client := Some(t), c2w := NewHistory(a.c2w), w2c := NewHistory(a.w2c))
  }

  function Unreserve(a: Slot): Slot {
    a.(reservation := 0, holder := None)
  }

  function OpenerStep(t: Tid, id: int, k: nat, pc: OpenPc, a: Slot): (Slot, Thread) {
    match pc
    case OCas =>
      if a.reservation == 0 then (a.(reservation := id, holder := Some(t)), Opening(id, k, OCheck))
      else (a, Opening(id, k + 1, OCas))
    case OCheck =>
      if a.state != 0 then (a, Opening(id, k, OBack)) else (a.(live := false), Opening(id, k, OReset(0)))
    case OBack => (Unreserve(a), Opening(id, k + 1, OCas))
    case OReset(j) =>
      if j < RESET_LANES then (ResetLane(a, j), Opening(id, k, OReset(j + 1)))
      else (Publish(a, t, id), Opening(id, k, OUnlock))
    case OUnlock => (Unreserve(a), Client(id, k, None, CDone(Nothing)))
  }

  function PublishedBy(th: Thread): set<int> {
    if th.Opening? && th.opc.OReset? && th.opc.j >= RESET_LANES then {th.id} else {}
  }

  // -------------------------------------------------------------------------
  // stubTerminalError

  function ObsStep(features: int, a: Slot, pc: ObsPc): ObsPc {
    match pc
    case OFeatures => if features % 2 == 0 then ONull else OState
    case OState => if a.state == 0 then ONull else OClaim(a.state)
    case OClaim(c) => if a.termClaim != c then ONull else OCode(c)
    case OCode(c) => ODetail(c, a.termCode)
    case ODetail(c, code) => OState2(c, code, a.termDetail)
    case OState2(c, code, detail) => if a.state != c then ONull else OClaim2(c, code, detail)
    case OClaim2(c, code, detail) => if a.termClaim != c then ONull else OGot(c, code, detail)
    case ONull => ONull
    case OGot(_, _, _) => pc
  }

  // -------------------------------------------------------------------------
  // The client of a slot: c2w writes, w2c reads, release

  function CloseC2w(ring: Ring): Ring {
    ring.(closed := 1, closedAt := if ring.closedAt.None? then Some(|ring.sent|) else ring.closedAt)
  }

  predicate ClientWrites(env: Env, th: Thread, a: Slot, th': Thread, b: Slot)
    requires th.Client? && env.cap > 0
  {
    match th.wr
    case None =>
      || (th'.Client? && th'.wr.Some? && |th'.wr.value.src| > 0
          && th' == th.(wr := Some(Write(th'.wr.value.src, 0, WHead))) && b == a)
      || (th' == th && b == a.(c2w := CloseC2w(a.c2w)))
    case Some(op) =>
      if op.pc.WEnd? then
        b == a && th' == th.(wr := if op.off < |op.src| then Some(op.(pc := WHead)) else None)
      else
        var (ring, op') := WriteStep(a.c2w, env.cap, op);
        WriteFits(a.c2w, op) && b == a.(c2w := ring) && th' == th.(wr := Some(op'))
  }

  function AfterRead(rd: Read, result: ReadResult): ClientRead {
    match result
    case Retry => CRead(rd.(pc := RHead))
    case Eos(_, _, _) => if rd.kind == LibClient then CTerm(OFeatures, result) else CStub(SFeatures, result)
    case _ => CDone(Got(result))
  }

  function StubStep(features: int, a: Slot, pc: StubPc, eos: ReadResult): ClientRead {
    match pc
    case SFeatures => if features % 2 == 0 then CDone(Got(eos)) else CStub(SState, eos)
    case SState => if a.state == 0 then CDone(Got(eos)) else CStub(SClaim, eos)
    case SClaim => CStub(SState2(a.termClaim), eos)
    case SState2(token) => CDone(if token == a.state then TerminalError(eos) else Got(eos))
  }

  predicate ClientReads(env: Env, th: Thread, a: Slot, th': Thread, b: Slot)
    requires th.Client? && env.cap > 0
  {
    match th.rd
    case CDone(_) =>
      && th'.Client? && th'.rd.CRead? && b == a
      && var rd := th'.rd.rd;
      && rd.n > 0 && (rd.kind == LibClient || rd.kind == StubFirst) && rd.pc == RHead
      && th' == th.(rd := CRead(rd))
    case CRead(op) =>
      if op.pc.REnd? then b == a && th' == th.(rd := AfterRead(op, op.pc.result))
      else
        var (ring, op') := ReadStep(a.w2c, a.state, env.cap, op);
        b == a.(w2c := ring) && th' == th.(rd := CRead(op'))
    case CTerm(obs, eos) =>
      && b == a
      && th' == th.(rd := match obs
                          case ONull => CDone(Got(eos))
                          case OGot(_, _, _) => CDone(TerminalError(eos))
                          case _ => CTerm(ObsStep(env.features, a, obs), eos))
    case CStub(pc, eos) => b == a && th' == th.(rd := StubStep(env.features, a, pc, eos))
  }

  predicate ClientReleases(th: Thread, a: Slot, th': Thread, b: Slot)
    requires th.Client?
  {
    th.wr.None? && th.rd.CDone? && th' == Idle && b == a.(state := 0, client := None)
  }

  // -------------------------------------------------------------------------
  // A worker that serves a claim: c2w reads, w2c writes, closes

  function CloseW2c(a: Slot, claim: int): Slot {
    a.(w2c := a.w2c.(closed := claim,
                     closedAt := if claim == a.cur && a.w2c.closedAt.None? then Some(|a.w2c.sent|) else a.w2c.closedAt))
  }

  predicate Starts(job: Job) {
    match job
    case JWrite(wr) => |wr.src| > 0 && wr.off == 0 && wr.pc == WHead
    case JRead(rd) => rd.n > 0 && rd.kind == WorkerSide && rd.pc == RHead
    case JClose => true
  }

  function CritStep(env: Env, claim: int, a: Slot, job: Job): (Slot, WorkerOp)
    requires env.cap > 0
  {
    match job
    case JWrite(wr) =>
      var (ring, wr') := WriteStep(a.w2c, env.cap, wr);
      (a.(w2c := ring), if wr'.pc.WEnd? then Releasing(JWrite(wr')) else Crit(JWrite(wr')))
    case JRead(rd) =>
      var (ring, rd') := ReadStep(a.c2w, a.state, env.cap, rd);
      (a.(c2w := ring), if rd'.pc.REnd? then Releasing(JRead(rd')) else Crit(JRead(rd')))
    case JClose => (CloseW2c(a, claim), Releasing(JClose))
  }

  function AfterRelease(job: Job): WorkerOp {
    match job
    case JWrite(wr) =>
      if wr.off < |wr.src| then AcqLoad(JWrite(wr.(pc := WHead))) else Ready(Wrote(|wr.src|))
    case JRead(rd) =>
      if !rd.pc.REnd? then Ready(NoOutcome)
      else if rd.pc.result.Retry? then AcqLoad(JRead(rd.(pc := RHead)))
      else Ready(ReadDone(rd.pc.result))
    case JClose => Ready(Closed)
  }

  function Lost(job: Job): Outcome {
    LostClaim(if job.JWrite? then job.wr.off else 0)
  }

  function CasUnreserve(a: Slot, claim: int): Slot {
    if a.reservation == claim then Unreserve(a) else a
  }

  // The stores of workerCloseError, which takes no reservation. A close is clean
  // when it is the first of its claim and finds the claim still current.
  function ErrStep(t: Tid, claim: int, a: Slot, j: nat, code: int, detail: int): (Slot, WorkerOp) {
    var still := a.clean && a.state == claim;
    match j
    case 0 =>
      (a.(termCode := code, clean := still && claim !in a.errBy,
          errBy := if claim in a.errBy then a.errBy else a.errBy[claim := t]), ErrClose(1, code, detail))
    case 1 => (a.(termDetail := detail, clean := still), ErrClose(2, code, detail))
    case 2 =>
      (a.(termClaim := claim, clean := still, errLog := a.errLog[claim := Terminal(code, detail)]),
       ErrClose(3, code, detail))
    case _ => (CloseW2c(a, claim), Ready(Closed))
  }

  predicate WorkerStep(env: Env, t: Tid, th: Thread, a: Slot, th': Thread, b: Slot)
    requires th.Worker? && env.cap > 0
  {
    var c := th.claim;
    match th.op
    case Ready(_) =>
      && b == a
      && (|| th' == Idle
          || (th'.Worker? && th'.op.AcqLoad? && Starts(th'.op.job) && th' == th.(op := AcqLoad(th'.op.job)))
          || (th'.Worker? && th'.op.ErrClose? && th' == th.(op := ErrClose(0, th'.op.code, th'.op.detail))))
    case AcqLoad(job) => b == a && th' == th.(op := if a.state == c then AcqCas(job) else Ready(Lost(job)))
    case AcqCas(job) =>
      if a.reservation == 0 then
        b == a.(reservation := c, holder := Some(t)) && th' == th.(op := AcqCheck(job))
      else
        b == a && th' == th.(op := AcqLoad(job))
    case AcqCheck(job) => b == a && th' == th.(op := if a.state == c then Crit(job) else AcqUndo(job))
    case AcqUndo(job) => b == CasUnreserve(a, c) && th' == th.(op := Ready(Lost(job)))
    case Crit(job) =>
      var (b', op') := CritStep(env, c, a, job);
      (job.JWrite? ==> WriteFits(a.w2c, job.wr)) && b == b' && th' == th.(op := op')
    case Releasing(job) => b == CasUnreserve(a, c) && th' == th.(op := AfterRelease(job))
    case ErrClose(j, code, detail) =>
      var (b', op') := ErrStep(t, c, a, j, code, detail);
      b == b' && th' == th.(op := op')
  }

  // -------------------------------------------------------------------------
  // The whole system

  // A step of thread t on the slot it is at.
  predicate SlotStep(env: Env, t: Tid, th: Thread, a: Slot, th': Thread, b: Slot)
    requires env.cap > 0
  {
    match th
    case Idle => false
    case Opening(id, k, pc) => (b, th') == OpenerStep(t, id, k, pc, a)
    case Client(_, _, _, _) =>
      ClientWrites(env, th, a, th', b) || ClientReads(env, th, a, th', b) || ClientReleases(th, a, th', b)
    case Worker(_, _, _) => WorkerStep(env, t, th, a, th', b)
    case Observer(_, pc) =>
      b == a && th' == (if pc.ONull? || pc.OGot? then Idle else th.(obs := ObsStep(env.features, a, pc)))
  }

  predicate OnSlot(s: Chan, t: Tid, k: nat, s': Chan)
    requires t in s.threads
  {
    var th := s.threads[t];
    && s.env.cap > 0 && t in s'.threads && k < |s.slots| == |s'.slots| && SlotOf(th) == Some(k)
    && s' == s.(threads := s.threads[t := s'.threads[t]], slots := s.slots[k := s'.slots[k]],
                env := s.env.(published := s.env.published + PublishedBy(th)))
    && SlotStep(s.env, t, th, s.slots[k], s'.threads[t], s'.slots[k])
  }

  // slotOpen bumps the sequence lane and goes to slot 0.
  predicate StartsOpen(s: Chan, t: Tid, s': Chan)
    requires t in s.threads
  {
    var lane := ToInt32(s.claimSeq + 1);
    && s.threads[t].Idle?
    && s.env.opens + 1 < TWO32
    && s' == s.(claimSeq := lane, env := s.env.(opens := s.env.opens + 1),
                threads := s.threads[t := Opening(if lane == 0 then 1 else lane, 0, OCas)])
  }

  // slotOpen has tried every slot and returns -1.
  predicate FailsOpen(s: Chan, t: Tid, s': Chan)
    requires t in s.threads
  {
    var th := s.threads[t];
    th.Opening? && th.slot >= |s.slots| && s' == s.(threads := s.threads[t := Idle])
  }

  // A dispatcher captures the claim it finds in a STATE lane, or any thread asks
  // for the terminal error of a slot.
  predicate Attaches(s: Chan, t: Tid, k: nat, s': Chan)
    requires t in s.threads
  {
    && s.threads[t].Idle? && k < |s.slots|
    && (|| (s.slots[k].state != 0
            && s' == s.(threads := s.threads[t := Worker(s.slots[k].state, k, Ready(NoOutcome))]))
        || s' == s.(threads := s.threads[t := Observer(k, OFeatures)]))
  }

  ghost predicate ThreadStep(s: Chan, t: Tid, s': Chan) {
    && t in s.threads
    && (|| StartsOpen(s, t, s')
        || FailsOpen(s, t, s')
        || (exists k: nat :: Attaches(s, t, k, s'))
        || (exists k: nat :: OnSlot(s, t, k, s')))
  }

  ghost predicate Next(s: Chan, s': Chan) {
    exists t :: ThreadStep(s, t, s')
  }

  // A fresh channel: every STATE is free. Reservations and the sequence lane are
  // zero as well; the other lanes may hold anything.
  ghost predicate Init(s: Chan) {
    && s.env.cap > 0 && s.env.opens == 0 && s.env.published == {} && s.claimSeq == 0
    && (forall t | t in s.threads :: s.threads[t].Idle?)
    && (forall k: nat | k < |s.slots| ::
          var a := s.slots[k];
          && a.state == 0 && a.reservation == 0 && a.cur == 0 && !a.live
          && a.holder.None? && a.client.None? && a.errLog == map[] && a.errBy == map[] && a.clean
          && |a.c2w.data| == |a.w2c.data| == s.env.cap)
  }
}
