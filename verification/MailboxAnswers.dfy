/** What a call returns, step by step of a run: its answer follows what the helper has
    left in the slot, or the reason for which it gave up. */
module MailboxAnswers {
  import opened Wrappers
  import opened Mailbox
  import opened MailboxInvariant
  import opened MailboxTheorems

  // Call c returns in the step from state i to the next one.
  ghost predicate Returns(run: seq<Mail>, i: nat, c: CallId) {
    && i + 1 < |run| && c in run[i].calls && c in run[i + 1].calls
    && !run[i].calls[c].Ended? && run[i + 1].calls[c].Ended?
  }

  // Only a step of its own changes a call.
  lemma {:induction false} OwnStep(m: Mail, m': Mail, c: CallId) returns (k: Option<nat>)
    requires Next(m, m') && c in m.calls && c in m'.calls && m'.calls[c] != m.calls[c]
    ensures match k
            case Some(k) => OnSlot(m, c, k, m')
            case None => Elsewhere(m, c, m') && SlotAt(m.calls[c]).None?
  {
    hide OwnSlot, HelperMoves;
    if d: CallId :| d in m.calls && Elsewhere(m, d, m') {
      assert d == c;
      k := None;
    } else if d: CallId, j: nat :| d in m.calls && OnSlot(m, d, j, m') {
      assert d == c;
      k := Some(j);
    }
  }

  // A call that sees its request finished returns OK, with the buffer in the slot, if and
  // only if the helper has left DONE there. After FAILED or CANCELLED it returns the
  // reason of its own abort if it had raised one and allocated nothing, and else FAILED.
  // A call that leaves otherwise returns the reason of its abort, or UNAVAILABLE after it
  // has taken an unserved request back and cleared the ready word.
  lemma {:induction false} AnswersFollowHelper(run: seq<Mail>, i: nat, c: CallId)
    requires IsRun(run) && Returns(run, i, c)
    ensures var m, m', at, e := run[i], run[i + 1], SlotAt(run[i].calls[c]), run[i + 1].calls[c];
            && (at.Some? ==> at.value < |m.slots| && at.value < |m'.slots|)
            && match e.how
               case SawFinished =>
                 && at.Some?
                 && var a := m.slots[at.value];
                 && (e.result.outcome == OK <==> a.state == DONE)
                 && (a.state == DONE ==> a.buffer.Some? && e.result.buffer == a.buffer)
                 && (a.state != DONE ==>
                       && (a.state == FAILED || a.state == CANCELLED)
                       && e.result == FetchResult(if NoBuffer(m.bufs, c) && c in m.raised then m.raised[c] else FETCH_FAILED, None))
                 && m'.slots[at.value].state == FREE
               case HandedOver =>
                 && at.Some?
                 && var a, a' := m.slots[at.value], m'.slots[at.value];
                 && a.copied != 0 && (a.helper.Serving? ==> !a.helper.reading)
                 && c in m.raised && e.result == FetchResult(m.raised[c], None)
                 && a'.abandoned != 0 && a'.state == if Finished(a.state) then FREE else a.state
               case TookBack =>
                 if at.Some? then
                   && m.slots[at.value].state == REQUEST && m'.slots[at.value].state == FREE
                   && c in m.raised && e.result == FetchResult(m.raised[c], None)
                 else e.result == FetchResult(UNAVAILABLE, None) && !m'.ready
               case NotServed => at.None? && e.result == FetchResult(UNAVAILABLE, None)
  {
    hide Inv, Next, IsRun, OwnSlot, OwnerOk, LooseOk, SlotInv, Elsewhere;
    var m, m' := run[i], run[i + 1];
    RunInv(run, i);
    StepOf(run, i);
    var k := OwnStep(m, m', c);
    match k
    case None => LooseAnswers(m, c, m');
    case Some(k) =>
      CallKept(m, c);
      SlotKept(m, k);
      LeaveAnswers(c, m.calls[c], m.slots[k], m.bufs, m.raised, m'.calls[c], m'.slots[k], m'.bufs, m'.raised, m.calls);
  }

  lemma {:induction false} LooseAnswers(m: Mail, c: CallId, m': Mail)
    requires c in m.calls && !m.calls[c].Ended? && SlotAt(m.calls[c]).None? && Elsewhere(m, c, m')
    requires c in m'.calls && m'.calls[c].Ended?
    ensures match m'.calls[c].how
            case NotServed => m'.calls[c].result == FetchResult(UNAVAILABLE, None)
            case TookBack => m'.calls[c].result == FetchResult(UNAVAILABLE, None) && !m'.ready
            case _ => false
  {
  }

  lemma {:induction false} CallKept(m: Mail, c: CallId)
    requires Inv(m) && c in m.calls
    ensures CallAll(m, c)
  {
  }

  lemma {:induction false} SlotKept(m: Mail, k: nat)
    requires Inv(m) && k < |m.slots|
    ensures SlotAll(m, k)
  {
  }

  lemma {:induction false} LeaveAnswers(
    c: CallId, pc: Pc, a: Slot, bufs: Bufs, raised: map<CallId, Outcome>,
    pc': Pc, a': Slot, bufs': Bufs, raised': map<CallId, Outcome>, calls: Calls)
    requires SlotInv(a, calls, bufs) && OwnerOk(c, pc, a, bufs, raised) && pc'.Ended?
    requires OwnSlot(c, pc, a, bufs, raised, pc', a', bufs', raised')
    ensures match pc'.how
            case SawFinished => Finished(a.state) && AnswerOk(c, pc'.result, a, bufs, raised) && (a.state == DONE ==> a.buffer.Some?) && a'.state == FREE
            case HandedOver =>
              && a.copied != 0 && (a.helper.Serving? ==> !a.helper.reading)
              && c in raised && pc'.result == FetchResult(raised[c], None)
              && a'.abandoned != 0 && a'.state == if Finished(a.state) then FREE else a.state
            case TookBack =>
              a.state == REQUEST && a'.state == FREE && c in raised && pc'.result == FetchResult(raised[c], None)
            case NotServed => false
  {
    hide SettledOk, StoreOk, HoldsBuffer;
  }

  // A buffer is allocated only at the helper's request, of the size it asks for, and not
  // for a call that has raised its abort.
  lemma {:induction false} BuffersAreAskedFor(run: seq<Mail>, i: nat, b: Buf)
    requires IsRun(run) && i + 1 < |run| && b !in run[i].bufs && b in run[i + 1].bufs
    ensures var m, info := run[i], run[i + 1].bufs[b];
            && info.call in m.calls && info.call !in m.raised && info.returned == info.freed == 0
            && SlotAt(m.calls[info.call]).Some? && SlotAt(m.calls[info.call]).value < |m.slots|
            && var a := m.slots[SlotAt(m.calls[info.call]).value];
            a.state == NEEDS_BUFFER && info.size == a.size
  {
    var m, m' := run[i], run[i + 1];
    hide OwnSlot, OwnerOk, LooseOk, SlotInv, HelperMoves;
    RunInv(run, i);
    assert Linked(run, i);
    var c, k := WhoAllocates(m, m', b);
    assert CallAll(m, c);
    hide Inv, IsRun;
    NewBuffer(c, m.calls[c], m.slots[k], m.bufs, m.raised, m'.calls[c], m'.slots[k], m'.bufs, m'.raised, b);
  }

  lemma {:induction false} WhoAllocates(m: Mail, m': Mail, b: Buf) returns (c: CallId, k: nat)
    requires Next(m, m') && b !in m.bufs && b in m'.bufs
    ensures c in m.calls && OnSlot(m, c, k, m')
  {
    hide OwnSlot, HelperMoves;
    c, k :| c in m.calls && OnSlot(m, c, k, m');
  }

  lemma {:induction false} NewBuffer(
    c: CallId, pc: Pc, a: Slot, bufs: Bufs, raised: map<CallId, Outcome>,
    pc': Pc, a': Slot, bufs': Bufs, raised': map<CallId, Outcome>, b: Buf)
    requires OwnerOk(c, pc, a, bufs, raised) && OwnSlot(c, pc, a, bufs, raised, pc', a', bufs', raised')
    requires b !in bufs && b in bufs'
    ensures c !in raised && a.state == NEEDS_BUFFER && bufs'[b] == BufInfo(c, 0, 0, a.size)
  {
    hide SettledOk, AnswerOk, StoreOk, HoldsBuffer;
  }

  // -------------------------------------------------------------------------
  // UNAVAILABLE

  predicate IsTaken(m: Mail, k: nat) {
    k < |m.slots| && m.slots[k].state != FREE
  }

  predicate NotReady(m: Mail, c: CallId) {
    c in m.calls && m.calls[c] == LoadReady && !m.ready
  }

  ghost predicate WasTaken(run: seq<Mail>, i: nat, j: nat, k: nat) {
    exists n: nat :: i <= n < j <= |run| && IsTaken(run[n], k)
  }

  ghost predicate WasNotReady(run: seq<Mail>, i: nat, j: nat, c: CallId) {
    exists n: nat :: i <= n < j <= |run| && NotReady(run[n], c)
  }

  // What a call has seen of the slots.
  ghost predicate SeenSo(run: seq<Mail>, i: nat, j: nat, c: CallId)
    requires j < |run| && c in run[j].calls
  {
    match run[j].calls[c]
    case Scan(n) => forall k: nat | k < n && k < |run[j].slots| :: WasTaken(run, i, j, k)
    case Ended(_, NotServed) => WasNotReady(run, i, j, c) || forall k: nat | k < |run[j].slots| :: WasTaken(run, i, j, k)
    case _ => true
  }

  lemma {:induction false} MoreSeen(run: seq<Mail>, i: nat, j: nat, c: CallId)
    requires i < j < |run|
    ensures forall k: nat :: WasTaken(run, i, j - 1, k) || IsTaken(run[j - 1], k) ==> WasTaken(run, i, j, k)
    ensures WasNotReady(run, i, j - 1, c) || NotReady(run[j - 1], c) ==> WasNotReady(run, i, j, c)
  {
    forall k: nat | WasTaken(run, i, j - 1, k) ensures WasTaken(run, i, j, k) {
      var n: nat :| i <= n < j - 1 <= |run| && IsTaken(run[n], k);
      assert i <= n < j <= |run| && IsTaken(run[n], k);
    }
    if WasNotReady(run, i, j - 1, c) {
      var n: nat :| i <= n < j - 1 <= |run| && NotReady(run[n], c);
      assert i <= n < j <= |run| && NotReady(run[n], c);
    }
  }

  // A call is refused a slot only if it found the ready word cleared, or if every slot
  // was in use at some time while it looked.
  lemma {:induction false} RefusedOnlyIfBusy(run: seq<Mail>, i: nat, j: nat, c: CallId)
    requires IsRun(run) && i <= j < |run| && c in run[i].calls && run[i].calls[c] == LoadReady
    ensures c in run[j].calls && SeenSo(run, i, j, c)
    ensures run[j].calls[c].Ended? && run[j].calls[c].how == NotServed ==>
              WasNotReady(run, i, j, c) || forall k: nat | k < |run[j].slots| :: WasTaken(run, i, j, k)
    decreases j - i
  {
    hide WasTaken, WasNotReady, IsRun;
    if i < j {
      RefusedOnlyIfBusy(run, i, j - 1, c);
      MoreSeen(run, i, j, c);
      StepOf(run, j - 1);
      CallStays(run[j - 1], run[j], c);
      if run[j].calls[c] != run[j - 1].calls[c] {
        var k := OwnStep(run[j - 1], run[j], c);
        RefusedStep(run[j - 1], run[j], c, k);
      }
    }
  }

  lemma {:induction false} StepOf(run: seq<Mail>, i: nat)
    requires IsRun(run) && i + 1 < |run|
    ensures Next(run[i], run[i + 1])
  {
    assert Linked(run, i);
  }

  lemma {:induction false} CallStays(m: Mail, m': Mail, c: CallId)
    requires Next(m, m') && c in m.calls
    ensures c in m'.calls && |m'.slots| == |m.slots|
  {
    hide OwnSlot, HelperMoves;
  }

  // The scan goes past a slot only if it is not free.
  lemma {:induction false} RefusedStep(m: Mail, m': Mail, c: CallId, k: Option<nat>)
    requires c in m.calls && c in m'.calls
    requires match k
             case Some(k) => OnSlot(m, c, k, m')
             case None => Elsewhere(m, c, m')
    ensures var pc, pc' := m.calls[c], m'.calls[c];
            && (pc'.Scan? ==> (pc.LoadReady? && pc'.i == 0) || (pc.Scan? && pc'.i == pc.i + 1 && IsTaken(m, pc.i)))
            && (pc'.Ended? && pc'.how == NotServed ==> NotReady(m, c) || (pc.Scan? && pc.i >= |m.slots|))
  {
  }

  // -------------------------------------------------------------------------
  // A request that is served

  ghost predicate Reachable(m: Mail) {
    exists run: seq<Mail> :: IsRun(run) && run[|run| - 1] == m
  }

  lemma {:induction false} ReachNext(m: Mail, m': Mail)
    requires Reachable(m) && Next(m, m')
    ensures Reachable(m')
  {
    hide Init, Next;
    var run: seq<Mail> :| IsRun(run) && run[|run| - 1] == m;
    var run' := run + [m'];
    forall i: nat | i + 1 < |run'| ensures Linked(run', i) {
      if i + 1 < |run| { assert Linked(run, i); }
    }
    assert IsRun(run');
  }

  const CALL: CallId := 0
  const BUF: Buf := 7
  const INPUTS: seq<CallId> := [0, 0, 0, 0, 0, 0, 0, 0]
  const EMPTY := Slot(FREE, 0, INPUTS, 0, None, 0, 0, 0, Away, None)
  const NO_BUFS: Bufs := map[]

  // A mailbox with one slot and one call.
  function Box(a: Slot, pc: Pc, bufs: Bufs): Mail {
    Mail(true, [a], map[CALL := pc], bufs, map[])
  }

  lemma {:induction false} CallGoes(a: Slot, pc: Pc, bufs: Bufs, a': Slot, pc': Pc, bufs': Bufs)
    requires Reachable(Box(a, pc, bufs)) && SlotAt(pc) == Some(0)
    requires OwnSlot(CALL, pc, a, bufs, map[], pc', a', bufs', map[])
    ensures Reachable(Box(a', pc', bufs'))
  {
    hide OwnSlot, Reachable;
    var m, m' := Box(a, pc, bufs), Box(a', pc', bufs');
    assert m'.slots == m.slots[0 := a'] && m'.calls == m.calls[CALL := pc'];
    assert OnSlot(m, CALL, 0, m');
    ReachNext(m, m');
  }

  lemma {:induction false} HelperGoes(a: Slot, pc: Pc, bufs: Bufs, a': Slot)
    requires Reachable(Box(a, pc, bufs)) && HelperMoves(a, a')
    ensures Reachable(Box(a', pc, bufs))
  {
    hide HelperMoves, Reachable;
    var m, m' := Box(a, pc, bufs), Box(a', pc, bufs);
    assert m'.slots == m.slots[0 := a'];
    assert HelperStep(m, 0, m');
    ReachNext(m, m');
  }

  const CLAIMED_SLOT := EMPTY.(state := CLAIMED, owner := Some(CALL))

  lemma {:induction false} Claimed()
    ensures Reachable(Box(CLAIMED_SLOT, Store(0, 0), NO_BUFS))
  {
    hide OwnSlot, HelperMoves;
    var m := Mail(false, [EMPTY], map[], NO_BUFS, map[]);
    assert IsRun([m]) && [m][|[m]| - 1] == m;
    hide IsRun;
    ReachNext(m, m.(ready := true));
    var m1 := Mail(true, [EMPTY], map[], NO_BUFS, map[]);
    assert m1.calls[CALL := LoadReady] == map[CALL := LoadReady];
    ReachNext(m1, Box(EMPTY, LoadReady, NO_BUFS));
    assert Box(EMPTY, LoadReady, NO_BUFS).calls[CALL := Scan(0)] == map[CALL := Scan(0)];
    assert Elsewhere(Box(EMPTY, LoadReady, NO_BUFS), CALL, Box(EMPTY, Scan(0), NO_BUFS));
    ReachNext(Box(EMPTY, LoadReady, NO_BUFS), Box(EMPTY, Scan(0), NO_BUFS));
    assert Box(EMPTY, Scan(0), NO_BUFS).calls[CALL := Store(0, 0)] == map[CALL := Store(0, 0)];
    assert Box(EMPTY, Scan(0), NO_BUFS).slots[0 := CLAIMED_SLOT] == [CLAIMED_SLOT];
    assert Elsewhere(Box(EMPTY, Scan(0), NO_BUFS), CALL, Box(CLAIMED_SLOT, Store(0, 0), NO_BUFS));
    ReachNext(Box(EMPTY, Scan(0), NO_BUFS), Box(CLAIMED_SLOT, Store(0, 0), NO_BUFS));
  }

  lemma {:induction false} Requested()
    ensures Reachable(Box(CLAIMED_SLOT.(state := REQUEST), Load(Local(0, 0, None, None)), NO_BUFS))
  {
    hide Reachable;
    Claimed();
    for j := 0 to LANES
      invariant Reachable(Box(CLAIMED_SLOT, Store(0, j), NO_BUFS))
    {
      assert j < |INPUTS| ==> INPUTS[j := CALL] == INPUTS;
      assert StoreLane(CLAIMED_SLOT, CALL, j) == CLAIMED_SLOT;
      CallGoes(CLAIMED_SLOT, Store(0, j), NO_BUFS, CLAIMED_SLOT, Store(0, j + 1), NO_BUFS);
    }
    var a := CLAIMED_SLOT.(state := REQUEST);
    CallGoes(CLAIMED_SLOT, Store(0, LANES), NO_BUFS, a, Ring(0), NO_BUFS);
    CallGoes(a, Ring(0), NO_BUFS, a, Load(Local(0, 0, None, None)), NO_BUFS);
  }

  // There is a run in which a call returns OK with the buffer that the helper has filled.
  lemma {:induction false} OkIsReachable()
    ensures exists a: Slot :: Reachable(Box(a, Ended(FetchResult(OK, Some(BUF)), SawFinished), map[BUF := BufInfo(CALL, 1, 0, 3)]))
  {
    hide Reachable, Settled;
    Requested();
    var l, a := Local(0, 0, None, None), CLAIMED_SLOT.(state := REQUEST);
    var b := a.(state := IN_FLIGHT, helper := Serving(INPUTS, true, None));
    HelperGoes(a, Load(l), NO_BUFS, b);
    var c := b.(copied := 1, helper := Serving(INPUTS, false, None));
    HelperGoes(b, Load(l), NO_BUFS, c);
    var d := c.(state := NEEDS_BUFFER, size := 3);
    HelperGoes(c, Load(l), NO_BUFS, d);
    CallGoes(d, Load(l), NO_BUFS, d, Switch(l, NEEDS_BUFFER), NO_BUFS);
    var l', held := l.(buffer := Some(BUF)), map[BUF := BufInfo(CALL, 0, 0, 3)];
    assert NO_BUFS[BUF := BufInfo(CALL, 0, 0, 3)] == held;
    CallGoes(d, Switch(l, NEEDS_BUFFER), NO_BUFS, d, StoreBuffer(l'), held);
    Filled(d, l', held);
  }

  lemma {:induction false} Filled(d: Slot, l: Local, held: Bufs)
    requires d == Slot(NEEDS_BUFFER, 0, INPUTS, 3, None, 0, 1, 0, Serving(INPUTS, false, None), Some(CALL))
    requires l == Local(0, 0, Some(BUF), None) && held == map[BUF := BufInfo(CALL, 0, 0, 3)]
    requires Reachable(Box(d, StoreBuffer(l), held))
    ensures exists a: Slot :: Reachable(Box(a, Ended(FetchResult(OK, Some(BUF)), SawFinished), map[BUF := BufInfo(CALL, 1, 0, 3)]))
  {
    hide Reachable;
    var e := d.(buffer := Some(BUF));
    CallGoes(d, StoreBuffer(l), held, e, StoreProvided(l), held);
    var f := e.(state := BUFFER_PROVIDED);
    CallGoes(e, StoreProvided(l), held, f, Load(l), held);
    var g := f.(helper := Serving(INPUTS, false, Some(BUF)));
    HelperGoes(f, Load(l), held, g);
    var h := g.(state := DONE, helper := Away);
    HelperGoes(g, Load(l), held, h);
    Answered(h, l, held);
  }

  lemma {:induction false} Answered(h: Slot, l: Local, held: Bufs)
    requires h.state == DONE && l == Local(0, 0, Some(BUF), None) && held == map[BUF := BufInfo(CALL, 0, 0, 3)]
    requires Reachable(Box(h, Load(l), held))
    ensures exists a: Slot :: Reachable(Box(a, Ended(FetchResult(OK, Some(BUF)), SawFinished), map[BUF := BufInfo(CALL, 1, 0, 3)]))
  {
    hide Reachable;
    CallGoes(h, Load(l), held, h, Switch(l, DONE), held);
    var result, given := FetchResult(OK, Some(BUF)), map[BUF := BufInfo(CALL, 1, 0, 3)];
    assert held[BUF := BufInfo(CALL, 1, 0, 3)] == given;
    CallGoes(h, Switch(l, DONE), held, h, StoreFree(l, result), given);
    CallGoes(h, StoreFree(l, result), given, GiveBack(h), Ended(result, SawFinished), given);
  }
}
