/** The mailbox through which calling threads hand HTTP requests to a helper. The
    caller's side is the state machine of FetchViaHelper, one step per atomic access;
    the helper may do whatever the protocol text allows it to do. Clocks, the
    cancellation flag and the allocator's success are left open. */
module Mailbox {
  import opened Wrappers

  type CallId = nat
  type Buf = nat

  datatype State =
    FREE | CLAIMED | REQUEST | IN_FLIGHT | NEEDS_BUFFER | BUFFER_PROVIDED | DONE | FAILED | CANCELLED

  predicate Finished(s: State) {
    s == DONE || s == FAILED || s == CANCELLED
  }

  /** What the helper is doing with a slot: `inputs` are the pointers it took from the
      lanes, `reading` tells whether it may still follow them, and `writes` is the
      buffer it may still write to. */
  datatype Helper = Away | Serving(inputs: seq<CallId>, reading: bool, writes: Option<Buf>)

  /** The lanes of one slot. The eight pointer and length lanes of a request hold the
      id of the call whose memory they point to. `owner` is history: the call that
      claimed the slot and has neither given it back nor handed it over. */
  datatype Slot = Slot(
    state: State, abort: int, inputs: seq<CallId>, size: nat, buffer: Option<Buf>, progress: int,
    copied: int, abandoned: int, helper: Helper, owner: Option<CallId>)

  const INPUT_LANES := 8
  const LANES := 14

  datatype Outcome = UNAVAILABLE | OK | FETCH_FAILED | FETCH_CANCELLED | TIMED_OUT

  datatype FetchResult = FetchResult(outcome: Outcome, buffer: Option<Buf>)

  // How a call came to its end.
  datatype Ending = NotServed | TookBack | SawFinished | HandedOver

  datatype Local = Local(slot: nat, progress: int, buffer: Option<Buf>, aborted: Option<Outcome>)

  datatype Pc =
    | LoadReady
    | Scan(i: nat)                          // compareExchange of slot i
    | Store(slot: nat, j: nat)              // about to store lane j; LANES is STATE
    | Ring(slot: nat)                       // the doorbell
    | Load(l: Local)                        // top of the loop: load STATE
    | Switch(l: Local, current: State)
    | StoreBuffer(l: Local)
    | StoreProvided(l: Local)
    | StoreFree(l: Local, result: FetchResult)
    | LoadProgress(l: Local)
    | Pickup(l: Local)                      // second load of STATE, for the pickup timeout
    | TakeBack(l: Local)
    | ClearReady
    | Deadline(l: Local)                    // cancellation flag, timeout, abort grace
    | RaiseAbort(l: Local, reason: Outcome)
    | Reclaim(l: Local)
    | LoadCopied(l: Local)
    | HandOver(l: Local)
    | Ended(result: FetchResult, how: Ending)

  // A response buffer: the call that allocated it, how often it was returned and freed,
  // and its size.
  datatype BufInfo = BufInfo(call: CallId, returned: nat, freed: nat, size: nat)

  // `raised` is history: the reason with which each call raised its abort lane.
  datatype Mail = Mail(
    ready: bool, slots: seq<Slot>, calls: map<CallId, Pc>, bufs: map<Buf, BufInfo>, raised: map<CallId, Outcome>)

  function SlotAt(pc: Pc): Option<nat> {
    match pc
    case LoadReady => None
    case Scan(_) => None
    case ClearReady => None
    case Ended(_, _) => None
    case Store(k, _) => Some(k)
    case Ring(k) => Some(k)
    case _ => Some(pc.l.slot)
  }

  // -------------------------------------------------------------------------
  // The caller

  function StoreLane(a: Slot, c: CallId, j: nat): Slot {
    if j < |a.inputs| then a.(inputs := a.inputs[j := c])
    else match j
      case 8 => a.(size := 0)
      case 9 => a.(buffer := None)
      case 10 => a.(progress := 0)
      case 11 => a.(copied := 0)
      case 12 => a.(abandoned := 0)
      case 13 => a.(abort := 0)
      case _ => a
  }

  function GiveBack(a: Slot): Slot {
    a.(state := FREE, owner := None)
  }

  // What a caller that sees its request finished returns, and what becomes of its buffer.
  function FinishedResult(l: Local, current: State): FetchResult {
    if current == DONE then FetchResult(OK, l.buffer)
    else if l.buffer.Some? then FetchResult(FETCH_FAILED, None)
    else if l.aborted.Some? then FetchResult(l.aborted.value, None)
    else FetchResult(FETCH_FAILED, None)
  }

  function Settled(bufs: map<Buf, BufInfo>, l: Local, current: State): map<Buf, BufInfo> {
    match l.buffer
    case None => bufs
    case Some(b) =>
      if b !in bufs then bufs
      else bufs[b := if current == DONE then bufs[b].(returned := bufs[b].returned + 1) else bufs[b].(freed := bufs[b].freed + 1)]
  }

  // A step of call c on its slot. Lanes that other threads read are loaded and stored
  // one at a time; the hand-over is one step.
  predicate OwnSlot(c: CallId, pc: Pc, a: Slot, bufs: map<Buf, BufInfo>, raised: map<CallId, Outcome>,
                    pc': Pc, a': Slot, bufs': map<Buf, BufInfo>, raised': map<CallId, Outcome>)
  {
    match pc
    case Store(k, j) =>
      && bufs' == bufs && raised' == raised
      && if j < LANES then a' == StoreLane(a, c, j) && pc' == Store(k, j + 1)
         else a' == a.(state := REQUEST) && pc' == Ring(k)
    case Ring(k) => Same(a, bufs, raised, a', bufs', raised') && pc' == Load(Local(k, 0, None, None))
    case Load(l) => Same(a, bufs, raised, a', bufs', raised') && pc' == Switch(l, a.state)
    case Switch(l, current) =>
      && a' == a && raised' == raised
      && if current == NEEDS_BUFFER then Allocates(c, l, a.size, bufs, pc', bufs')
         else if Finished(current) then bufs' == Settled(bufs, l, current) && pc' == StoreFree(l, FinishedResult(l, current))
         else bufs' == bufs && pc' == LoadProgress(l)
    case StoreBuffer(l) =>
      a' == a.(buffer := l.buffer) && bufs' == bufs && raised' == raised && pc' == StoreProvided(l)
    case StoreProvided(l) =>
      a' == a.(state := BUFFER_PROVIDED) && bufs' == bufs && raised' == raised && pc' == Load(l)
    case StoreFree(_, result) =>
      a' == GiveBack(a) && bufs' == bufs && raised' == raised && pc' == Ended(result, SawFinished)
    case LoadProgress(l) => Same(a, bufs, raised, a', bufs', raised') && pc' == Pickup(l.(progress := a.progress))
    case Pickup(l) =>
      Same(a, bufs, raised, a', bufs', raised') && (pc' == Deadline(l) || (a.state == REQUEST && pc' == TakeBack(l)))
    case TakeBack(l) =>
      && bufs' == bufs && raised' == raised
      && if a.state == REQUEST then a' == GiveBack(a) && pc' == ClearReady else a' == a && pc' == Deadline(l)
    case Deadline(l) =>
      && Same(a, bufs, raised, a', bufs', raised')
      && (|| pc' == Load(l)
          || (l.aborted.None? && (pc' == RaiseAbort(l, FETCH_CANCELLED) || pc' == RaiseAbort(l, TIMED_OUT)))
          || (l.aborted.Some? && pc' == Reclaim(l)))
    case RaiseAbort(l, reason) =>
      a' == a.(abort := 1) && bufs' == bufs && raised' == raised[c := reason] && pc' == Load(l.(aborted := Some(reason)))
    case Reclaim(l) =>
      && bufs' == bufs && raised' == raised
      && if a.state == REQUEST then a' == GiveBack(a) && pc' == Ended(FetchResult(Reason(l), None), TookBack)
         else a' == a && pc' == LoadCopied(l)
    case LoadCopied(l) =>
      Same(a, bufs, raised, a', bufs', raised') && pc' == if a.copied != 0 then HandOver(l) else Load(l)
    case HandOver(l) =>
      && bufs' == bufs && raised' == raised && pc' == Ended(FetchResult(Reason(l), None), HandedOver)
      && a' == a.(abandoned := 1, owner := None, state := if Finished(a.state) then FREE else a.state)
    case _ => false
  }

  predicate Same(a: Slot, bufs: map<Buf, BufInfo>, raised: map<CallId, Outcome>,
                 a': Slot, bufs': map<Buf, BufInfo>, raised': map<CallId, Outcome>) {
    a' == a && bufs' == bufs && raised' == raised
  }

  function Reason(l: Local): Outcome {
    if l.aborted.Some? then l.aborted.value else FETCH_CANCELLED
  }

  // malloc of the size that the helper asked for, unless the call was aborted; it may fail.
  predicate Allocates(c: CallId, l: Local, size: nat, bufs: map<Buf, BufInfo>, pc': Pc, bufs': map<Buf, BufInfo>) {
    || (pc' == StoreBuffer(l.(buffer := None)) && bufs' == bufs)
    || (l.aborted.None? && pc'.StoreBuffer? && pc'.l.buffer.Some?
        && var b := pc'.l.buffer.value;
           b !in bufs && pc' == StoreBuffer(l.(buffer := Some(b))) && bufs' == bufs[b := BufInfo(c, 0, 0, size)])
  }

  // The steps of call c that are not on a slot of its own.
  predicate Elsewhere(m: Mail, c: CallId, m': Mail)
    requires c in m.calls
  {
    match m.calls[c]
    case LoadReady =>
      m' == m.(calls := m.calls[c := if m.ready then Scan(0) else Ended(FetchResult(UNAVAILABLE, None), NotServed)])
    case Scan(i) =>
      if i >= |m.slots| then m' == m.(calls := m.calls[c := Ended(FetchResult(UNAVAILABLE, None), NotServed)])
      else if m.slots[i].state == FREE then
        m' == m.(slots := m.slots[i := m.slots[i].(state := CLAIMED, owner := Some(c))], calls := m.calls[c := Store(i, 0)])
      else m' == m.(calls := m.calls[c := Scan(i + 1)])
    case ClearReady =>
      m' == m.(ready := false, calls := m.calls[c := Ended(FetchResult(UNAVAILABLE, None), TookBack)])
    case _ => false
  }

  predicate OnSlot(m: Mail, c: CallId, k: nat, m': Mail)
    requires c in m.calls
  {
    && SlotAt(m.calls[c]) == Some(k) && k < |m.slots| == |m'.slots| && c in m'.calls
    && m' == m.(slots := m.slots[k := m'.slots[k]], calls := m.calls[c := m'.calls[c]], bufs := m'.bufs, raised := m'.raised)
    && OwnSlot(c, m.calls[c], m.slots[k], m.bufs, m.raised, m'.calls[c], m'.slots[k], m'.bufs, m'.raised)
  }

  // -------------------------------------------------------------------------
  // The helper, as the protocol text restricts it

  predicate HelperMoves(a: Slot, a': Slot) {
    || (a.helper.Away? && a.state == REQUEST && a' == a.(state := IN_FLIGHT, helper := Serving(a.inputs, true, None)))
    || (a.helper.Away? && Finished(a.state) && a.abandoned != 0 && a' == a.(state := FREE))
    || (a.helper.Serving? && HelperServes(a, a.helper, a'))
  }

  predicate HelperServes(a: Slot, h: Helper, a': Slot)
    requires h.Serving?
  {
    || (h.reading && a' == a.(copied := 1, helper := h.(reading := false)))
    || a' == a.(progress := a'.progress)
    || (a.state == IN_FLIGHT && a' == a.(state := NEEDS_BUFFER, size := a'.size))
    || (a.state == BUFFER_PROVIDED && h.writes.None? && a.buffer.Some? && a' == a.(helper := h.(writes := a.buffer)))
    || (h.writes.Some? && a' == a.(state := DONE, helper := Away))
    || (MayGiveUp(a) && (a'.state == FAILED || a'.state == CANCELLED) && a' == a.(state := a'.state, helper := Away))
  }

  // Having asked for a buffer the helper waits for it; of a caller that is gone it
  // expects none.
  predicate MayGiveUp(a: Slot) {
    a.state == IN_FLIGHT || a.state == BUFFER_PROVIDED || (a.state == NEEDS_BUFFER && a.abandoned != 0)
  }

  predicate HelperStep(m: Mail, k: nat, m': Mail) {
    && k < |m.slots| == |m'.slots| && m' == m.(slots := m.slots[k := m'.slots[k]])
    && HelperMoves(m.slots[k], m'.slots[k])
  }

  // -------------------------------------------------------------------------

  ghost predicate Next(m: Mail, m': Mail) {
    || (exists c: CallId :: c !in m.calls && m' == m.(calls := m.calls[c := LoadReady]))
    || (exists c :: c in m.calls && Elsewhere(m, c, m'))
    || (exists c: CallId, k: nat :: c in m.calls && OnSlot(m, c, k, m'))
    || (exists k: nat :: HelperStep(m, k, m'))
    || m' == m.(ready := true)
  }

  predicate Init(m: Mail) {
    && m.calls == map[] && m.bufs == map[] && m.raised == map[]
    && (forall a | a in m.slots :: a.state == FREE && a.helper.Away? && a.owner.None? && |a.inputs| == INPUT_LANES)
  }
}
