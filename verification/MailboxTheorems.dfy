/** The invariant over whole runs of the mailbox, and what callers can rely on. */
module MailboxTheorems {
  import opened Wrappers
  import opened Mailbox
  import opened MailboxInvariant

  lemma {:induction false} HelperStepKeeps(m: Mail, k: nat, m': Mail)
    requires Inv(m) && HelperStep(m, k, m')
    ensures Inv(m')
  {
    hide SlotInv, OwnerOk, LooseOk, HelperMoves;
    assert SlotAll(m, k);
    HelperKeepsSlot(m.slots[k], m'.slots[k], m.calls, m.bufs);
    forall j: nat | j < |m'.slots| ensures SlotAll(m', j) {
      assert SlotAll(m, j);
    }
    forall c | c in m'.calls ensures CallAll(m', c) {
      assert CallAll(m, c);
      if SlotAt(m.calls[c]) == Some(k) {
        HelperSparesOwner(m.slots[k], m'.slots[k], m.calls, m.bufs, c, m.calls[c], m.raised);
      }
    }
  }

  lemma {:induction false} OnSlotKeeps(m: Mail, c: CallId, k: nat, m': Mail)
    requires Inv(m) && c in m.calls && OnSlot(m, c, k, m')
    ensures Inv(m')
  {
    hide SlotInv, LooseOk, OwnSlot, OwnerOk, OnlyOwn;
    var pc, pc', a, a' := m.calls[c], m'.calls[c], m.slots[k], m'.slots[k];
    assert SlotAll(m, k) && CallAll(m, c);
    OwnerKeeps(c, pc, a, m.bufs, m.raised, pc', a', m'.bufs, m'.raised, m.calls);
    OwnerOnly(m, c, k);
    forall j: nat | j < |m'.slots| ensures SlotAll(m', j) {
      if j != k {
        assert SlotAll(m, j);
        SlotSpared(c, pc', m.bufs, m.raised, m'.bufs, m'.raised, m.slots[j], m.calls);
      } else {
        OwnerStays(m, c, k, m');
      }
    }
    forall d | d in m'.calls ensures CallAll(m', d) {
      if d != c {
        assert CallAll(m, d);
        OthersKeep(c, m.bufs, m.raised, m'.bufs, m'.raised, d, m.calls[d],
                   if SlotAt(m.calls[d]).Some? then m.slots[SlotAt(m.calls[d]).value] else a);
      }
    }
    NewBuffers(c, m.bufs, m'.bufs, m.raised, m'.raised, m.calls);
  }

  // A call is the owner of no slot but its own, and no other call is at that one.
  lemma {:induction false} OwnerOnly(m: Mail, c: CallId, k: nat)
    requires Inv(m) && c in m.calls && SlotAt(m.calls[c]) == Some(k)
    ensures k < |m.slots| && m.slots[k].owner == Some(c) && !m.calls[c].Ended?
    ensures forall j: nat | j < |m.slots| && j != k :: m.slots[j].owner != Some(c)
    ensures forall d | d in m.calls && d != c :: SlotAt(m.calls[d]) != Some(k)
  {
    hide SlotInv, LooseOk, StoreOk, LoopOk, Published;
    assert CallAll(m, c);
    forall j: nat | j < |m.slots| && j != k ensures m.slots[j].owner != Some(c) {
      assert SlotAll(m, j);
    }
    forall d | d in m.calls && d != c ensures SlotAt(m.calls[d]) != Some(k) {
      assert CallAll(m, d);
    }
  }

  lemma {:induction false} OwnerStays(m: Mail, c: CallId, k: nat, m': Mail)
    requires c in m.calls && OnSlot(m, c, k, m')
    requires Kept(c, m.calls[c], m.bufs, m.raised, m'.calls[c], m'.slots[k], m'.bufs, m'.raised, m.calls)
    ensures SlotAll(m', k)
  {
    hide SlotInv, LooseOk, OwnSlot, StoreOk, LoopOk, Published, OnlyOwn;
  }

  lemma {:induction false} NewBuffers(
    c: CallId, bufs: Bufs, bufs': Bufs, raised: map<CallId, Outcome>, raised': map<CallId, Outcome>, calls: Calls)
    requires OnlyOwn(c, bufs, bufs', raised, raised') && c in calls
    requires (forall b | b in bufs :: bufs[b].call in calls) && (forall d | d in raised :: d in calls)
    ensures (forall b | b in bufs' :: bufs'[b].call in calls) && (forall d | d in raised' :: d in calls)
  {
  }

  // A slot's invariant looks only at calls that have ended.
  lemma {:induction false} CallMoves(a: Slot, calls: Calls, bufs: Bufs, c: CallId, pc: Pc)
    requires SlotInv(a, calls, bufs) && (c in calls ==> !calls[c].Ended?)
    ensures SlotInv(a, calls[c := pc], bufs)
  {
  }

  // A call without a slot moves on to another point without one.
  lemma {:induction false} LooseKeeps(m: Mail, c: CallId, pc: Pc, ready: bool)
    requires Inv(m) && SlotAt(pc).None? && LooseOk(c, pc, m.bufs, m.raised)
    requires c in m.calls ==> SlotAt(m.calls[c]).None? && !m.calls[c].Ended?
    ensures Inv(m.(calls := m.calls[c := pc], ready := ready))
  {
    hide SlotInv, LooseOk, OwnerOk;
    var m' := m.(calls := m.calls[c := pc], ready := ready);
    forall j: nat | j < |m'.slots| ensures SlotAll(m', j) {
      assert SlotAll(m, j);
      CallMoves(m.slots[j], m.calls, m.bufs, c, pc);
    }
    forall d | d in m'.calls ensures CallAll(m', d) {
      if d != c { assert CallAll(m, d); }
    }
  }

  lemma {:induction false} ElsewhereKeeps(m: Mail, c: CallId, m': Mail)
    requires Inv(m) && c in m.calls && Elsewhere(m, c, m')
    ensures Inv(m')
  {
    assert CallAll(m, c);
    var pc := m.calls[c];
    if pc.Scan? && pc.i < |m.slots| && m.slots[pc.i].state == FREE {
      ClaimKeeps(m, c, pc.i);
    } else if pc.ClearReady? {
      LooseKeeps(m, c, Ended(FetchResult(UNAVAILABLE, None), TookBack), false);
    } else {
      LooseKeeps(m, c, m'.calls[c], m.ready);
    }
  }

  lemma {:induction false} ClaimKeeps(m: Mail, c: CallId, i: nat)
    requires Inv(m) && c in m.calls && m.calls[c] == Scan(i) && i < |m.slots| && m.slots[i].state == FREE
    ensures Inv(m.(slots := m.slots[i := m.slots[i].(state := CLAIMED, owner := Some(c))], calls := m.calls[c := Store(i, 0)]))
  {
    hide LoopOk, RequestInv;
    var m' := m.(slots := m.slots[i := m.slots[i].(state := CLAIMED, owner := Some(c))], calls := m.calls[c := Store(i, 0)]);
    assert SlotAll(m, i) && CallAll(m, c);
    forall j: nat | j < |m'.slots| ensures SlotAll(m', j) {
      assert SlotAll(m, j);
      CallMoves(m.slots[j], m.calls, m.bufs, c, Store(i, 0));
    }
    forall d | d in m'.calls ensures CallAll(m', d) {
      assert CallAll(m, d);
    }
  }

  lemma {:induction false} NextInv(m: Mail, m': Mail)
    requires Inv(m) && Next(m, m')
    ensures Inv(m')
  {
    if c: CallId :| c !in m.calls && m' == m.(calls := m.calls[c := LoadReady]) {
      assert NoBuffer(m.bufs, c);
      LooseKeeps(m, c, LoadReady, m.ready);
    } else if c: CallId :| c in m.calls && Elsewhere(m, c, m') {
      ElsewhereKeeps(m, c, m');
    } else if c: CallId, k: nat :| c in m.calls && OnSlot(m, c, k, m') {
      OnSlotKeeps(m, c, k, m');
    } else if k: nat :| HelperStep(m, k, m') {
      HelperStepKeeps(m, k, m');
    } else {
      ReadyKeeps(m);
    }
  }

  lemma {:induction false} ReadyKeeps(m: Mail)
    requires Inv(m)
    ensures Inv(m.(ready := true))
  {
    hide SlotInv, LooseOk, OwnerOk;
    var m' := m.(ready := true);
    assert forall k: nat | k < |m.slots| :: SlotAll(m, k) ==> SlotAll(m', k);
    assert forall c | c in m.calls :: CallAll(m, c) ==> CallAll(m', c);
  }

  // -------------------------------------------------------------------------
  // Runs

  ghost predicate IsRun(run: seq<Mail>) {
    && |run| > 0 && Init(run[0])
    && (forall i: nat | i + 1 < |run| :: Linked(run, i))
  }

  ghost predicate Linked(run: seq<Mail>, i: nat)
    requires i + 1 < |run|
  {
    Next(run[i], run[i + 1])
  }

  lemma {:induction false} RunInv(run: seq<Mail>, i: nat)
    requires IsRun(run) && i < |run|
    ensures Inv(run[i])
  {
    hide Inv, Next;
    if i > 0 {
      RunInv(run, i - 1);
      assert Linked(run, i - 1);
      NextInv(run[i - 1], run[i]);
    } else {
      InitInv(run[0]);
    }
  }

  lemma {:induction false} InitInv(m: Mail)
    requires Init(m)
    ensures Inv(m)
  {
    forall k: nat | k < |m.slots| ensures SlotAll(m, k) {
      assert m.slots[k] in m.slots;
    }
  }

  lemma {:induction false} EndIsFinal(run: seq<Mail>, i: nat, j: nat, c: CallId)
    requires IsRun(run) && i <= j < |run| && c in run[i].calls && run[i].calls[c].Ended?
    ensures c in run[j].calls && run[j].calls[c] == run[i].calls[c]
  {
    if i < j {
      EndIsFinal(run, i, j - 1, c);
      assert Linked(run, j - 1);
      EndStays(run[j - 1], run[j], c);
    }
  }

  lemma {:induction false} EndStays(m: Mail, m': Mail, c: CallId)
    requires Next(m, m') && c in m.calls && m.calls[c].Ended?
    ensures c in m'.calls && m'.calls[c] == m.calls[c]
  {
    hide OwnSlot, HelperMoves;
    if d: CallId :| d in m.calls && Elsewhere(m, d, m') {
      assert d != c;
    } else if d: CallId, k: nat :| d in m.calls && OnSlot(m, d, k, m') {
      assert d != c;
    }
  }

  // -------------------------------------------------------------------------
  // Results

  // Whichever way a call has returned, the helper does not read its inputs, and no
  // request that it could still pick up points to them, now or later.
  lemma {:induction false} InputsOutliveReaders(run: seq<Mail>, i: nat, j: nat, c: CallId, k: nat)
    requires IsRun(run) && i <= j < |run| && c in run[i].calls && run[i].calls[c].Ended?
    requires k < |run[j].slots|
    ensures var a := run[j].slots[k];
            && (a.helper.Serving? && a.helper.reading ==> c !in a.helper.inputs)
            && (a.state == REQUEST ==> c !in a.inputs)
  {
    EndIsFinal(run, i, j, c);
    RunInv(run, j);
    assert SlotAll(run[j], k);
  }

  // What the helper reads are the inputs of one call, which still waits for it; and
  // a request that can be picked up is complete, with every other lane cleared.
  lemma {:induction false} HelperReadsOneCall(run: seq<Mail>, i: nat, k: nat)
    requires IsRun(run) && i < |run| && k < |run[i].slots|
    ensures var m, a := run[i], run[i].slots[k];
            && ((a.helper.Serving? && a.helper.reading) || a.state == REQUEST ==>
                  && a.owner.Some? && a.owner.value in m.calls && SlotAt(m.calls[a.owner.value]) == Some(k)
                  && AllAre(a.inputs, a.owner.value) && a.copied == 0 && a.abandoned == 0)
            && (a.helper.Serving? ==> a.helper.inputs == a.inputs)
            && (a.state == REQUEST ==> a.buffer.None?)
  {
    RunInv(run, i);
    assert SlotAll(run[i], k);
  }

  // A slot belongs to at most one call at a time.
  lemma {:induction false} SlotsAreExclusive(run: seq<Mail>, i: nat, c: CallId, d: CallId)
    requires IsRun(run) && i < |run| && c in run[i].calls && d in run[i].calls
    requires SlotAt(run[i].calls[c]).Some? && SlotAt(run[i].calls[c]) == SlotAt(run[i].calls[d])
    ensures c == d
  {
    RunInv(run, i);
    OwnerOnly(run[i], c, SlotAt(run[i].calls[c]).value);
  }

  // The buffer that a call has allocated, if any: returned exactly once with OK, freed
  // exactly once when the helper failed, never touched after a hand-over; and a call
  // that took its request back has allocated none.
  lemma {:induction false} BufferIsSettledOnce(run: seq<Mail>, i: nat, c: CallId, b: Buf)
    requires IsRun(run) && i < |run| && c in run[i].calls && run[i].calls[c].Ended?
    ensures var m, e := run[i], run[i].calls[c];
            && (e.result.outcome == OK <==> e.result.buffer.Some?)
            && (e.result.buffer.Some? ==> e.result.buffer.value in m.bufs && Is(m.bufs[e.result.buffer.value], c, 1, 0))
            && (b in m.bufs && m.bufs[b].call == c ==>
                  match e.how
                  case NotServed => false
                  case TookBack => false
                  case SawFinished =>
                    if e.result.outcome == OK then e.result.buffer == Some(b)
                    else e.result == FetchResult(FETCH_FAILED, None) && Is(m.bufs[b], c, 0, 1)
                  case HandedOver => Is(m.bufs[b], c, 0, 0))
  {
    RunInv(run, i);
    assert CallAll(run[i], c);
  }

  // A buffer that the helper may still write to is neither freed nor returned, and as
  // large as the helper asked for.
  lemma {:induction false} WritesGoToLiveBuffers(run: seq<Mail>, i: nat, k: nat)
    requires IsRun(run) && i < |run| && k < |run[i].slots|
    requires run[i].slots[k].helper.Serving? && run[i].slots[k].helper.writes.Some?
    ensures var m, b := run[i], run[i].slots[k].helper.writes.value;
            && b in m.bufs && m.bufs[b].returned == 0 && m.bufs[b].freed == 0 && m.bufs[b].size == run[i].slots[k].size
            && AllAre(run[i].slots[k].inputs, m.bufs[b].call)
  {
    RunInv(run, i);
    assert SlotAll(run[i], k);
  }

  // CANCELLED and TIMED_OUT are returned only after the abort lane was raised, and for
  // that very reason.
  lemma {:induction false} AbortsAreRaised(run: seq<Mail>, i: nat, c: CallId)
    requires IsRun(run) && i < |run| && c in run[i].calls && run[i].calls[c].Ended?
    ensures var m, outcome := run[i], run[i].calls[c].result.outcome;
            outcome == FETCH_CANCELLED || outcome == TIMED_OUT ==> c in m.raised && m.raised[c] == outcome
  {
    RunInv(run, i);
    assert CallAll(run[i], c);
  }
}
