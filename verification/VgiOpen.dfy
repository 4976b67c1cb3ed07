/** Which slot an open takes, and when it takes none. */
module VgiOpen {
  import opened Wrappers
  import opened VgiLayout
  import opened VgiRing
  import opened VgiChannel
  import opened VgiInvariant
  import opened VgiTheorems
  import opened VgiEos

  // Thread t is in slotOpen with that id, or has just returned from it with a slot.
  predicate Opens(s: Chan, t: Tid, id: int) {
    t in s.threads && (s.threads[t].Opening? || s.threads[t].Client?) && s.threads[t].id == id
  }

  function ThreadOf(s: Chan, t: Tid): Thread {
    if t in s.threads then s.threads[t] else Idle
  }

  // -------------------------------------------------------------------------
  // Among other threads

  // Thread t looks at slot k and finds it reserved, or reserves it and finds it in use.
  predicate FindsBusy(s: Chan, t: Tid, k: nat) {
    && k < |s.slots| && ThreadOf(s, t).Opening? && ThreadOf(s, t).slot == k
    && (|| (ThreadOf(s, t).opc.OCas? && s.slots[k].reservation != 0)
        || (ThreadOf(s, t).opc.OCheck? && s.slots[k].state != 0))
  }

  ghost predicate FoundBusy(run: seq<Chan>, i: nat, j: nat, t: Tid, k: nat) {
    exists m: nat :: i <= m < j <= |run| && FindsBusy(run[m], t, k)
  }

  lemma {:induction false} StillFound(run: seq<Chan>, i: nat, j: nat, t: Tid, k: nat)
    requires FoundBusy(run, i, j, t, k) && j < |run|
    ensures FoundBusy(run, i, j + 1, t, k)
  {
    var m: nat :| i <= m < j <= |run| && FindsBusy(run[m], t, k);
    assert i <= m < j + 1 <= |run| && FindsBusy(run[m], t, k);
  }

  // Whatever the other threads do, an open passes over a slot only after it has found
  // it reserved or in use.
  lemma {:induction false} OpenSkipsOnlyBusy(run: seq<Chan>, i: nat, j: nat, t: Tid, id: int)
    requires IsRun(run) && i <= j < |run|
    requires forall m: nat | i <= m <= j :: Opens(run[m], t, id)
    requires ThreadOf(run[i], t) == Opening(id, 0, OCas)
    ensures Opens(run[j], t, id)
    ensures forall k: nat | k < ThreadOf(run[j], t).slot :: FoundBusy(run, i, j, t, k)
    ensures ThreadOf(run[j], t).Opening? && ThreadOf(run[j], t).opc.OBack? ==> FoundBusy(run, i, j, t, ThreadOf(run[j], t).slot)
    decreases j - i
  {
    assert Opens(run[j], t, id);
    if i < j {
      OpenSkipsOnlyBusy(run, i, j - 1, t, id);
      var s, s' := run[j - 1], run[j];
      assert Linked(run, j - 1) && Opens(s, t, id);
      var u :| ThreadStep(s, u, s');
      var at := Moves(s, u, s');
      forall k: nat | FoundBusy(run, i, j - 1, t, k) ensures FoundBusy(run, i, j, t, k) { StillFound(run, i, j - 1, t, k); }
      if u == t {
        var k := ThreadOf(s, t).slot;
        OpenStepSkips(s, t, id, at, s');
        if FindsBusy(s, t, k) { assert FoundBusy(run, i, j, t, k); }
      }
    }
  }

  lemma {:induction false} OpenStepSkips(s: Chan, t: Tid, id: int, at: Option<nat>, s': Chan)
    requires ThreadStep(s, t, s') && Opens(s, t, id) && Opens(s', t, id)
    requires match at
             case Some(k) => OnSlot(s, t, k, s')
             case None => s'.slots == s.slots && (s.threads[t].Idle? || s.threads[t].Opening?)
    ensures var th, th' := s.threads[t], s'.threads[t];
            && th.slot <= th'.slot <= th.slot + 1
            && (th'.slot == th.slot + 1 ==> th.Opening? && (FindsBusy(s, t, th.slot) || th.opc.OBack?))
            && (th'.Opening? && th'.opc.OBack? ==> FindsBusy(s, t, th.slot) && th'.slot == th.slot)
  {
    hide WriteStep, ReadStep;
  }

  // An open fails only after it has found every single slot reserved or in use.
  lemma {:induction false} OpenFailsOnlyIfBusy(run: seq<Chan>, i: nat, j: nat, t: Tid, id: int)
    requires IsRun(run) && i <= j && j + 1 < |run|
    requires forall m: nat | i <= m <= j :: Opens(run[m], t, id)
    requires ThreadOf(run[i], t) == Opening(id, 0, OCas) && ThreadOf(run[j], t).Opening?
    requires ThreadOf(run[j + 1], t) == Idle
    ensures forall k: nat | k < |run[i].slots| :: FoundBusy(run, i, j, t, k)
  {
    OpenSkipsOnlyBusy(run, i, j, t, id);
    RunGrows(run, i, j);
    assert Linked(run, j) && Opens(run[j], t, id);
    var u :| ThreadStep(run[j], u, run[j + 1]);
    var at := Moves(run[j], u, run[j + 1]);
  }

  // -------------------------------------------------------------------------
  // Alone

  predicate Free(s: Chan, k: nat) {
    k < |s.slots| && s.slots[k].state == 0 && s.slots[k].reservation == 0
  }

  // How many steps an open may still need.
  function StepsLeft(n: nat, k: nat, pc: OpenPc): int {
    13 * (n - k - 1) + match pc
                       case OCas => 13
                       case OCheck => 12
                       case OReset(j) => 11 - j
                       case OUnlock => 1
                       case OBack => 1
  }

  // Where an open is that has run alone since state s.
  predicate AloneSo(s: Chan, now: Chan, k: nat, pc: OpenPc) {
    && k <= |s.slots| == |now.slots|
    && (forall m: nat | m < k :: !Free(s, m))
    && (forall m: nat | k < m < |s.slots| :: now.slots[m] == s.slots[m])
    && match pc
       case OCas => k < |s.slots| ==> now.slots[k] == s.slots[k]
       case OCheck => k < |s.slots| && s.slots[k].reservation == 0 && now.slots[k].state == s.slots[k].state
       case OBack => k < |s.slots| && !Free(s, k)
       case OReset(j) => k < |s.slots| && j <= RESET_LANES && Free(s, k)
       case OUnlock => k < |s.slots| && Free(s, k)
  }

  lemma {:induction false} AloneStep(s: Chan, now: Chan, t: Tid, now': Chan)
    requires ThreadStep(now, t, now') && ThreadOf(now, t).Opening?
    requires AloneSo(s, now, ThreadOf(now, t).slot, ThreadOf(now, t).opc)
    ensures var th, th' := ThreadOf(now, t), ThreadOf(now', t);
            && |now'.slots| == |s.slots|
            && match th'
               case Opening(id, k, pc) =>
                 id == th.id && AloneSo(s, now', k, pc) && StepsLeft(|s.slots|, k, pc) < StepsLeft(|s.slots|, th.slot, th.opc)
               case Client(id, k, _, _) => id == th.id && Free(s, k) && forall m: nat | m < k :: !Free(s, m)
               case Idle => forall m: nat :: !Free(s, m)
               case _ => false
  {
    var at := Moves(now, t, now');
  }

  // The steps from state i to state j are all of thread t.
  ghost predicate Alone(run: seq<Chan>, i: nat, j: nat, t: Tid) {
    i <= j < |run| && forall m: nat | i <= m < j :: StepIsOf(run, m, t)
  }

  ghost predicate StepIsOf(run: seq<Chan>, m: nat, t: Tid)
    requires m + 1 < |run|
  {
    ThreadStep(run[m], t, run[m + 1])
  }

  // An open that runs alone over the channel takes the first slot whose STATE and
  // RESERVATION are free, fails only if there is none, and ends after at most thirteen
  // steps per slot and one.
  lemma {:induction false} OpenAlone(run: seq<Chan>, i: nat, j: nat, t: Tid, id: int)
    requires Alone(run, i, j, t)
    requires ThreadOf(run[i], t) == Opening(id, 0, OCas)
    requires forall m: nat | i <= m < j :: ThreadOf(run[m], t).Opening?
    ensures |run[j].slots| == |run[i].slots| && j - i <= 13 * |run[i].slots| + 1
    ensures match ThreadOf(run[j], t)
            case Opening(id', k, pc) => id' == id && AloneSo(run[i], run[j], k, pc) && j - i + StepsLeft(|run[i].slots|, k, pc) <= 13 * |run[i].slots|
            case Client(id', k, _, _) => id' == id && Free(run[i], k) && forall m: nat | m < k :: !Free(run[i], m)
            case Idle => forall m: nat :: !Free(run[i], m)
            case _ => false
    decreases j - i
  {
    if i < j {
      OpenAlone(run, i, j - 1, t, id);
      assert StepIsOf(run, j - 1, t);
      AloneStep(run[i], run[j - 1], t, run[j]);
    }
  }

  // And it never has to wait.
  lemma {:induction false} OpenGoesOn(s: Chan, t: Tid) returns (s': Chan)
    requires s.env.cap > 0 && ThreadOf(s, t).Opening? && ThreadOf(s, t).slot <= |s.slots|
    ensures ThreadStep(s, t, s')
  {
    var th := s.threads[t];
    if th.slot == |s.slots| {
      s' := s.(threads := s.threads[t := Idle]);
      assert FailsOpen(s, t, s');
    } else {
      var k := th.slot;
      var (b, th') := OpenerStep(t, th.id, k, th.opc, s.slots[k]);
      s' := s.(threads := s.threads[t := th'], slots := s.slots[k := b],
               env := s.env.(published := s.env.published + PublishedBy(th)));
      assert OnSlot(s, t, k, s');
    }
  }
}
