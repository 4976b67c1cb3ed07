/** What holds in every reachable state of the mailbox, whatever the helper does. */
module MailboxInvariant {
  import opened Wrappers
  import opened Mailbox

  type Calls = map<CallId, Pc>
  type Bufs = map<Buf, BufInfo>

  // A buffer that nobody has returned or freed.
  predicate Live(bufs: Bufs, b: Buf, c: CallId) {
    b in bufs && Is(bufs[b], c, 0, 0)
  }

  predicate Is(info: BufInfo, c: CallId, returned: nat, freed: nat) {
    info.call == c && info.returned == returned && info.freed == freed
  }

  predicate NoBuffer(bufs: Bufs, c: CallId) {
    forall b | b in bufs :: bufs[b].call != c
  }

  predicate AllAre(inputs: seq<CallId>, c: CallId) {
    |inputs| == INPUT_LANES && forall i | 0 <= i < |inputs| :: inputs[i] == c
  }

  // The call whose inputs the lanes of a slot in use point to.
  function Served(a: Slot): CallId
    requires |a.inputs| == INPUT_LANES
  {
    a.inputs[0]
  }

  predicate SlotInv(a: Slot, calls: Calls, bufs: Bufs) {
    && |a.inputs| == INPUT_LANES
    && (a.state == FREE ==> a.helper.Away? && a.owner.None?)
    && (a.state == CLAIMED || a.state == REQUEST ==> a.helper.Away? && a.owner.Some?)
    && (Finished(a.state) ==> a.helper.Away?)
    && (a.state == IN_FLIGHT || a.state == NEEDS_BUFFER || a.state == BUFFER_PROVIDED ==> a.helper.Serving?)
    && (a.state != FREE && a.state != CLAIMED ==> RequestInv(a, calls, bufs))
  }

  // A slot whose request has been published.
  predicate RequestInv(a: Slot, calls: Calls, bufs: Bufs)
    requires |a.inputs| == INPUT_LANES
  {
    var c := Served(a);
    && AllAre(a.inputs, c)
    && (a.helper.Serving? ==> a.helper.inputs == a.inputs)
    && (if a.owner.Some? then a.owner.value == c && a.abandoned == 0
        else a.abandoned != 0 && c in calls && calls[c].Ended? && calls[c].how == HandedOver)
    && (a.helper.Serving? && a.helper.reading ==> a.owner.Some? && a.copied == 0)
    && (a.helper.Serving? && a.helper.writes.Some? ==> a.state == BUFFER_PROVIDED && a.buffer == a.helper.writes)
    && (a.state == BUFFER_PROVIDED && a.buffer.Some? ==> Live(bufs, a.buffer.value, c) && bufs[a.buffer.value].size == a.size)
    && (a.state == DONE ==> a.buffer.Some?)
    && (a.state == REQUEST ==> a.copied == 0)
    && (a.state == REQUEST || a.state == IN_FLIGHT ==> a.buffer.None?)
  }

  // What a call that owns slot a knows.
  predicate OwnerOk(c: CallId, pc: Pc, a: Slot, bufs: Bufs, raised: map<CallId, Outcome>) {
    && a.owner == Some(c) && SlotAt(pc).Some?
    && if pc.Store? then StoreOk(c, pc.j, a) && NoBuffer(bufs, c) && c !in raised
       else if pc.Ring? then Published(a) && a.buffer.None? && NoBuffer(bufs, c) && c !in raised
       else Published(a) && LoopOk(c, pc, a, bufs, raised)
  }

  predicate Published(a: Slot) {
    a.state != FREE && a.state != CLAIMED
  }

  predicate StoreOk(c: CallId, j: nat, a: Slot) {
    && a.state == CLAIMED && j <= LANES && |a.inputs| == INPUT_LANES
    && (forall i | 0 <= i < j && i < INPUT_LANES :: a.inputs[i] == c)
    && (j > 9 ==> a.buffer.None?)
    && (j > 11 ==> a.copied == 0)
    && (j > 12 ==> a.abandoned == 0)
    && (j > 13 ==> a.abort == 0)
  }

  predicate LoopOk(c: CallId, pc: Pc, a: Slot, bufs: Bufs, raised: map<CallId, Outcome>)
    requires SlotAt(pc).Some? && !pc.Store? && !pc.Ring?
  {
    var l := pc.l;
    && (l.aborted.Some? ==> a.abort != 0 && c in raised && raised[c] == l.aborted.value && Aborts(l.aborted.value))
    && (l.aborted.None? ==> c !in raised)
    && (pc.RaiseAbort? ==> l.aborted.None? && Aborts(pc.reason))
    && (pc.Reclaim? || pc.LoadCopied? || pc.HandOver? ==> l.aborted.Some?)
    && (pc.LoadCopied? || pc.HandOver? ==> a.state != REQUEST)
    && (pc.HandOver? ==> a.copied != 0 && (a.helper.Serving? ==> !a.helper.reading))
    && (pc.Switch? && (pc.current == NEEDS_BUFFER || Finished(pc.current)) ==> a.state == pc.current)
    && (pc.StoreBuffer? || pc.StoreProvided? ==> a.state == NEEDS_BUFFER)
    && (pc.StoreProvided? ==> a.buffer == l.buffer)
    && if pc.StoreFree? then Finished(a.state) && SettledOk(c, pc.result, bufs, raised) && AnswerOk(c, pc.result, a, bufs, raised)
       else HoldsBuffer(c, pc, a, bufs)
  }

  predicate Aborts(reason: Outcome) {
    reason == FETCH_CANCELLED || reason == TIMED_OUT
  }

  // The one buffer a call may have allocated.
  predicate HoldsBuffer(c: CallId, pc: Pc, a: Slot, bufs: Bufs)
    requires SlotAt(pc).Some? && !pc.Store? && !pc.Ring?
  {
    && (match pc.l.buffer
        case None => NoBuffer(bufs, c)
        case Some(b) => Live(bufs, b, c) && (pc.StoreBuffer? || pc.StoreProvided? ==> bufs[b].size == a.size)
                        && forall d | d in bufs && bufs[d].call == c :: d == b)
    && (a.state == BUFFER_PROVIDED || Finished(a.state) ==> a.buffer == pc.l.buffer)
    && (pc.l.buffer.Some? ==> pc.StoreBuffer? || pc.StoreProvided? || a.state == BUFFER_PROVIDED || Finished(a.state))
  }

  // What a call answers to the state in which the helper has left its slot.
  predicate AnswerOk(c: CallId, result: FetchResult, a: Slot, bufs: Bufs, raised: map<CallId, Outcome>) {
    && (result.outcome == OK <==> a.state == DONE)
    && (a.state == DONE ==> result.buffer == a.buffer)
    && (a.state != DONE ==> result == FetchResult(if NoBuffer(bufs, c) && c in raised then raised[c] else FETCH_FAILED, None))
  }

  // What has become of the buffer of a call that saw its request finished.
  predicate SettledOk(c: CallId, result: FetchResult, bufs: Bufs, raised: map<CallId, Outcome>) {
    && (result.outcome == OK <==> result.buffer.Some?)
    && result.outcome != UNAVAILABLE
    && (result.buffer.Some? ==> result.buffer.value in bufs && Is(bufs[result.buffer.value], c, 1, 0))
    && (forall b | b in bufs && bufs[b].call == c ::
          if result.buffer.Some? then b == result.buffer.value else Is(bufs[b], c, 0, 1) && result.outcome == FETCH_FAILED)
    && (Aborts(result.outcome) ==> c in raised && raised[c] == result.outcome)
  }

  // What holds of a call without a slot.
  predicate LooseOk(c: CallId, pc: Pc, bufs: Bufs, raised: map<CallId, Outcome>) {
    match pc
    case Ended(result, how) => EndedOk(c, result, how, bufs, raised)
    case ClearReady => NoBuffer(bufs, c)
    case _ => NoBuffer(bufs, c) && c !in raised
  }

  predicate EndedOk(c: CallId, result: FetchResult, how: Ending, bufs: Bufs, raised: map<CallId, Outcome>) {
    match how
    case NotServed => result == FetchResult(UNAVAILABLE, None) && NoBuffer(bufs, c)
    case TookBack =>
      && result.buffer.None? && NoBuffer(bufs, c)
      && (result.outcome == UNAVAILABLE || RaisedFor(c, result, raised))
    case SawFinished => SettledOk(c, result, bufs, raised)
    case HandedOver =>
      && result.buffer.None? && RaisedFor(c, result, raised)
      && forall b | b in bufs && bufs[b].call == c :: Is(bufs[b], c, 0, 0)
  }

  predicate RaisedFor(c: CallId, result: FetchResult, raised: map<CallId, Outcome>) {
    Aborts(result.outcome) && c in raised && raised[c] == result.outcome
  }

  // -------------------------------------------------------------------------
  // The whole mailbox

  ghost predicate Inv(m: Mail) {
    && (forall k: nat | k < |m.slots| :: SlotAll(m, k))
    && (forall c | c in m.calls :: CallAll(m, c))
    && (forall b | b in m.bufs :: m.bufs[b].call in m.calls)
    && (forall c | c in m.raised :: c in m.calls)
  }

  ghost predicate SlotAll(m: Mail, k: nat)
    requires k < |m.slots|
  {
    && SlotInv(m.slots[k], m.calls, m.bufs)
    && (m.slots[k].owner.Some? ==> m.slots[k].owner.value in m.calls && SlotAt(m.calls[m.slots[k].owner.value]) == Some(k))
  }

  ghost predicate CallAll(m: Mail, c: CallId)
    requires c in m.calls
  {
    var at := SlotAt(m.calls[c]);
    if at.Some? then at.value < |m.slots| && OwnerOk(c, m.calls[c], m.slots[at.value], m.bufs, m.raised)
    else LooseOk(c, m.calls[c], m.bufs, m.raised)
  }

  // -------------------------------------------------------------------------
  // Steps

  // The helper keeps the slot's invariant and what its owner knows.
  lemma {:induction false} HelperKeepsSlot(a: Slot, a': Slot, calls: Calls, bufs: Bufs)
    requires SlotInv(a, calls, bufs) && HelperMoves(a, a')
    ensures SlotInv(a', calls, bufs) && a'.owner == a.owner
  {
  }

  lemma {:induction false} HelperSparesOwner(a: Slot, a': Slot, calls: Calls, bufs: Bufs, c: CallId, pc: Pc, raised: map<CallId, Outcome>)
    requires SlotInv(a, calls, bufs) && HelperMoves(a, a') && OwnerOk(c, pc, a, bufs, raised)
    ensures OwnerOk(c, pc, a', bufs, raised)
  {
  }

  // What others know only changes by their own steps.
  ghost predicate OnlyOwn(c: CallId, bufs: Bufs, bufs': Bufs, raised: map<CallId, Outcome>, raised': map<CallId, Outcome>) {
    && (forall b | b in bufs :: b in bufs' && bufs'[b].call == bufs[b].call && bufs'[b].size == bufs[b].size && (bufs[b].call != c ==> bufs'[b] == bufs[b]))
    && (forall b | b in bufs' && b !in bufs :: bufs'[b].call == c)
    && (forall d | d != c :: d in raised <==> d in raised')
    && (forall d | d != c && d in raised :: raised'[d] == raised[d])
    && (forall d | d in raised' :: d in raised || d == c)
  }
  // What a step of the owner of a slot leaves.
  ghost predicate Kept(
    c: CallId, pc: Pc, bufs: Bufs, raised: map<CallId, Outcome>,
    pc': Pc, a': Slot, bufs': Bufs, raised': map<CallId, Outcome>, calls: Calls)
  {
    && SlotInv(a', calls[c := pc'], bufs')
    && (if SlotAt(pc').Some? then SlotAt(pc') == SlotAt(pc) && OwnerOk(c, pc', a', bufs', raised')
        else a'.owner.None? && LooseOk(c, pc', bufs', raised'))
    && OnlyOwn(c, bufs, bufs', raised, raised')
  }

  lemma {:induction false} OwnerKeeps(
    c: CallId, pc: Pc, a: Slot, bufs: Bufs, raised: map<CallId, Outcome>,
    pc': Pc, a': Slot, bufs': Bufs, raised': map<CallId, Outcome>, calls: Calls)
    requires SlotInv(a, calls, bufs) && OwnerOk(c, pc, a, bufs, raised)
    requires OwnSlot(c, pc, a, bufs, raised, pc', a', bufs', raised')
    ensures Kept(c, pc, bufs, raised, pc', a', bufs', raised', calls)
  {
    if pc.Store? || pc.Ring? {
      StoreKeeps(c, pc, a, bufs, raised, pc', a', bufs', raised', calls);
    } else if pc.Switch? {
      SwitchKeeps(c, pc, a, bufs, raised, pc', a', bufs', raised', calls);
    } else if pc.StoreBuffer? || pc.StoreProvided? {
      BufferKeeps(c, pc, a, bufs, raised, pc', a', bufs', raised', calls);
    } else if pc.StoreFree? || pc.TakeBack? || pc.Reclaim? || pc.HandOver? {
      LeaveKeeps(c, pc, a, bufs, raised, pc', a', bufs', raised', calls);
    } else {
      WaitKeeps(c, pc, a, bufs, raised, pc', a', bufs', raised', calls);
    }
  }

  // Filling the lanes in and publishing them.
  lemma {:induction false} StoreKeeps(
    c: CallId, pc: Pc, a: Slot, bufs: Bufs, raised: map<CallId, Outcome>,
    pc': Pc, a': Slot, bufs': Bufs, raised': map<CallId, Outcome>, calls: Calls)
    requires SlotInv(a, calls, bufs) && OwnerOk(c, pc, a, bufs, raised)
    requires OwnSlot(c, pc, a, bufs, raised, pc', a', bufs', raised')
    requires pc.Store? || pc.Ring?
    ensures Kept(c, pc, bufs, raised, pc', a', bufs', raised', calls)
  {
  }

  // Looking at STATE, and handing a buffer over.
  lemma {:induction false} SwitchKeeps(
    c: CallId, pc: Pc, a: Slot, bufs: Bufs, raised: map<CallId, Outcome>,
    pc': Pc, a': Slot, bufs': Bufs, raised': map<CallId, Outcome>, calls: Calls)
    requires SlotInv(a, calls, bufs) && OwnerOk(c, pc, a, bufs, raised)
    requires OwnSlot(c, pc, a, bufs, raised, pc', a', bufs', raised')
    requires pc.Switch?
    ensures Kept(c, pc, bufs, raised, pc', a', bufs', raised', calls)
  {
    hide LooseOk;
    if pc'.StoreFree? {
      assert SettledOk(c, pc'.result, bufs', raised');
      assert pc.l.buffer.Some? ==> pc.l.buffer.value in bufs' && !NoBuffer(bufs', c);
      assert AnswerOk(c, pc'.result, a', bufs', raised');
    }
  }

  lemma {:induction false} BufferKeeps(
    c: CallId, pc: Pc, a: Slot, bufs: Bufs, raised: map<CallId, Outcome>,
    pc': Pc, a': Slot, bufs': Bufs, raised': map<CallId, Outcome>, calls: Calls)
    requires SlotInv(a, calls, bufs) && OwnerOk(c, pc, a, bufs, raised)
    requires OwnSlot(c, pc, a, bufs, raised, pc', a', bufs', raised')
    requires pc.StoreBuffer? || pc.StoreProvided?
    ensures Kept(c, pc, bufs, raised, pc', a', bufs', raised', calls)
  {
  }

  // Waiting and aborting; giving the slot back or leaving it to the helper.
  lemma {:induction false} WaitKeeps(
    c: CallId, pc: Pc, a: Slot, bufs: Bufs, raised: map<CallId, Outcome>,
    pc': Pc, a': Slot, bufs': Bufs, raised': map<CallId, Outcome>, calls: Calls)
    requires SlotInv(a, calls, bufs) && OwnerOk(c, pc, a, bufs, raised)
    requires OwnSlot(c, pc, a, bufs, raised, pc', a', bufs', raised')
    requires pc.Load? || pc.LoadProgress? || pc.Pickup? || pc.Deadline? || pc.RaiseAbort? || pc.LoadCopied?
    ensures Kept(c, pc, bufs, raised, pc', a', bufs', raised', calls)
  {
    hide LooseOk, SettledOk;
  }

  lemma {:induction false} LeaveKeeps(
    c: CallId, pc: Pc, a: Slot, bufs: Bufs, raised: map<CallId, Outcome>,
    pc': Pc, a': Slot, bufs': Bufs, raised': map<CallId, Outcome>, calls: Calls)
    requires SlotInv(a, calls, bufs) && OwnerOk(c, pc, a, bufs, raised)
    requires OwnSlot(c, pc, a, bufs, raised, pc', a', bufs', raised')
    requires pc.StoreFree? || pc.TakeBack? || pc.Reclaim? || pc.HandOver?
    ensures Kept(c, pc, bufs, raised, pc', a', bufs', raised', calls)
  {
  }

  // The steps of others, on their own slots, do not matter.
  lemma {:induction false} OthersKeep(
    c: CallId, bufs: Bufs, raised: map<CallId, Outcome>, bufs': Bufs, raised': map<CallId, Outcome>, d: CallId, pc: Pc, a: Slot)
    requires c != d && OnlyOwn(c, bufs, bufs', raised, raised')
    ensures OwnerOk(d, pc, a, bufs, raised) ==> OwnerOk(d, pc, a, bufs', raised')
    ensures SlotAt(pc).None? && LooseOk(d, pc, bufs, raised) ==> LooseOk(d, pc, bufs', raised')
  {
    OthersBuffers(c, bufs, raised, bufs', raised', d);
    if OwnerOk(d, pc, a, bufs, raised) && pc.StoreFree? {
      OthersSettled(c, bufs, raised, bufs', raised', d, pc.result);
      OthersAnswer(c, bufs, raised, bufs', raised', d, pc.result, a);
      hide SettledOk, AnswerOk;
    }
    if pc.Ended? { OthersSettled(c, bufs, raised, bufs', raised', d, pc.result); }
  }

  lemma {:induction false} OthersBuffers(
    c: CallId, bufs: Bufs, raised: map<CallId, Outcome>, bufs': Bufs, raised': map<CallId, Outcome>, d: CallId)
    requires c != d && OnlyOwn(c, bufs, bufs', raised, raised')
    ensures NoBuffer(bufs, d) <==> NoBuffer(bufs', d)
    ensures forall b :: Live(bufs, b, d) ==> Live(bufs', b, d)
    ensures forall b | b in bufs' && bufs'[b].call == d :: b in bufs && bufs[b] == bufs'[b]
  {
    forall b | b in bufs' && bufs'[b].call == d ensures b in bufs && bufs[b] == bufs'[b] {
      if b in bufs { assert bufs'[b].call == bufs[b].call; }
    }
  }

  lemma {:induction false} OthersAnswer(
    c: CallId, bufs: Bufs, raised: map<CallId, Outcome>, bufs': Bufs, raised': map<CallId, Outcome>, d: CallId, result: FetchResult, a: Slot)
    requires c != d && OnlyOwn(c, bufs, bufs', raised, raised')
    ensures AnswerOk(d, result, a, bufs, raised) ==> AnswerOk(d, result, a, bufs', raised')
  {
    OthersBuffers(c, bufs, raised, bufs', raised', d);
  }

  lemma {:induction false} OthersSettled(
    c: CallId, bufs: Bufs, raised: map<CallId, Outcome>, bufs': Bufs, raised': map<CallId, Outcome>, d: CallId, result: FetchResult)
    requires c != d && OnlyOwn(c, bufs, bufs', raised, raised')
    ensures SettledOk(d, result, bufs, raised) ==> SettledOk(d, result, bufs', raised')
  {
    OthersBuffers(c, bufs, raised, bufs', raised', d);
  }

  // A slot whose owner did not act keeps its invariant.
  lemma {:induction false} SlotSpared(
    c: CallId, pc': Pc, bufs: Bufs, raised: map<CallId, Outcome>, bufs': Bufs, raised': map<CallId, Outcome>, a: Slot, calls: Calls)
    requires SlotInv(a, calls, bufs) && OnlyOwn(c, bufs, bufs', raised, raised') && a.owner != Some(c)
    requires c in calls && !calls[c].Ended?
    ensures SlotInv(a, calls[c := pc'], bufs')
  {
    if a.state == BUFFER_PROVIDED && a.buffer.Some? {
      assert Served(a) != c;
      OthersBuffers(c, bufs, raised, bufs', raised', Served(a));
    }
  }
}
