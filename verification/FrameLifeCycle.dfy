/** The life of the frames of the file page buffer under a directory latch that is
    dropped while a page is read from or written to the file system. Every step
    of FixPage, EvictAnyBufferFrame, FlushFrame, LoadFrame and BufferRef::Release
    is interleaved with those of any number of other threads. Frames are objects
    of their own: threads refer to the object, the directory maps ids to objects. */
module FrameLifeCycle {
  import opened Wrappers

  type Tid = nat
  type FrameId = nat
  type Oid = nat
  type Page = seq<int>

  datatype FrameState = NEW | LOADING | LOADED | EVICTING | RELOADED

  datatype RefKind = User | Evictor | Flusher
  datatype Ref = Ref(tid: Tid, kind: RefKind)

  /** `writer` and `readers` are the frame latch. `refs` (who is counted in `users`)
      and `unmarked` (changed by its writer since the last MarkAsDirty) are history. */
  datatype Frame = Frame(
    fid: FrameId, state: FrameState, users: int, dirty: bool, data: Page,
    writer: Option<Tid>, readers: set<Tid>, refs: multiset<Ref>, unmarked: bool)

  // `logical` is history: the bytes that the page's users have written.
  datatype Core = Core(
    latch: Option<Tid>, dir: map<FrameId, Oid>, objs: map<Oid, Frame>, next: Oid,
    disk: map<FrameId, Page>, logical: map<FrameId, Page>, capacity: nat)

  // What a thread returns to after FlushFrame.
  datatype Cont = Evicting(fid: FrameId, ex: bool) | Flushing

  datatype Pc =
    | Idle
    | Wait(goal: Pc)                                // blocked on the directory latch
    | FxFind(fid: FrameId, ex: bool)                // FixPage: look the frame up
    | AlLoop(fid: FrameId, ex: bool)                // AllocateFrameBuffer: room left?
    | EvPick(fid: FrameId, ex: bool)                // EvictAnyBufferFrame: choose a victim
    | EvTest(fid: FrameId, ex: bool, o: Oid)        // the victim is EVICTING: dirty?
    | EvAfter(fid: FrameId, ex: bool, o: Oid)       // flushed, latch taken again
    | EvErase(fid: FrameId, ex: bool, o: Oid)       // unlink the victim
    | AlDone(fid: FrameId, ex: bool)                // a buffer is at hand
    | LdRead(o: Oid, ex: bool)                      // LoadFrame: read the file
    | LdDone(o: Oid, ex: bool)                      // loaded, latch taken again
    | FxLock(o: Oid, ex: bool)                      // blocked on the frame latch
    | Hold(o: Oid, ex: bool)                        // the page is fixed
    | RlDone(o: Oid, ex: bool)                      // BufferRef::Release
    | FlEnter(o: Oid, k: Cont)                      // FlushFrame: dirty at all?
    | FlLock(o: Oid, k: Cont)
    | FlTest(o: Oid, k: Cont)
    | FlWrite(o: Oid, k: Cont)
    | FlClear(o: Oid, k: Cont)
    | FlUnlock(o: Oid, k: Cont)
    | FlDone(o: Oid, k: Cont)                       // latch taken again

  datatype System = System(core: Core, threads: map<Tid, Pc>)

  // The points at which a thread is inside the directory latch.
  predicate Inside(pc: Pc) {
    || pc.FxFind? || pc.AlLoop? || pc.EvPick? || pc.EvTest? || pc.EvAfter? || pc.EvErase? || pc.AlDone?
    || pc.LdDone? || pc.RlDone? || pc.FlEnter? || pc.FlDone?
  }

  function AddRef(f: Frame, t: Tid, kind: RefKind): Frame {
    f.(users := f.users + 1, refs := f.refs + multiset{Ref(t, kind)})
  }

  function DropRef(f: Frame, t: Tid, kind: RefKind): Frame {
    f.(users := f.users - 1, refs := f.refs - multiset{Ref(t, kind)})
  }

  function DropLatch(f: Frame, t: Tid): Frame {
    f.(writer := if f.writer == Some(t) then None else f.writer, readers := f.readers - {t})
  }

  /** A frame together with what the file and the users' history hold for its page. */
  datatype View = View(f: Frame, disk: Page, logical: Page)

  function ViewOf(c: Core, o: Oid): View
    requires o in c.objs && c.objs[o].fid in c.disk && c.objs[o].fid in c.logical
  {
    var f := c.objs[o];
    View(f, c.disk[f.fid], c.logical[f.fid])
  }

  function WithView(c: Core, o: Oid, v: View): Core {
    c.(objs := c.objs[o := v.f], disk := c.disk[v.f.fid := v.disk], logical := c.logical[v.f.fid := v.logical])
  }

  // The object a thread is working on.
  function Target(pc: Pc): Option<Oid> {
    match pc
    case Wait(goal) => (match goal
      case LdDone(o, _) => Some(o)
      case RlDone(o, _) => Some(o)
      case FlDone(o, _) => Some(o)
      case _ => None)
    case EvTest(_, _, o) => Some(o)
    case EvAfter(_, _, o) => Some(o)
    case EvErase(_, _, o) => Some(o)
    case LdRead(o, _) => Some(o)
    case LdDone(o, _) => Some(o)
    case FxLock(o, _) => Some(o)
    case Hold(o, _) => Some(o)
    case RlDone(o, _) => Some(o)
    case FlEnter(o, _) => Some(o)
    case FlLock(o, _) => Some(o)
    case FlTest(o, _) => Some(o)
    case FlWrite(o, _) => Some(o)
    case FlClear(o, _) => Some(o)
    case FlUnlock(o, _) => Some(o)
    case FlDone(o, _) => Some(o)
    case _ => None
  }

  // -------------------------------------------------------------------------
  // Steps on one frame

  predicate WritesByte(v: View, i: nat, b: int, v': View) {
    && i < |v.f.data|
    && v' == v.(f := v.f.(data := v.f.data[i := b], unmarked := true),
                logical := if i < |v.logical| then v.logical[i := b] else v.logical)
  }

  // Waiting for the frame latch and working on a fixed page. A user writes bytes
  // of a page it has fixed exclusively, marks the page as dirty, or lets go of it;
  // it never lets go of changes it has not marked.
  ghost predicate UserTouch(t: Tid, pc: Pc, v: View, pc': Pc, v': View) {
    var f := v.f;
    match pc
    case FxFind(_, ex) =>
      && pc'.FxLock? && pc'.ex == ex
      && v' == v.(f := AddRef(if f.state == EVICTING then f.(state := RELOADED) else f, t, User))
    case FxLock(o, ex) =>
      && f.writer.None? && (ex ==> f.readers == {})
      && v' == v.(f := if ex then f.(writer := Some(t)) else f.(readers := f.readers + {t}))
      && pc' == Hold(o, ex)
    case Hold(o, ex) =>
      || (ex && pc' == pc && exists i: nat, b: int :: WritesByte(v, i, b, v'))
      || (ex && pc' == pc && v' == v.(f := f.(dirty := true, unmarked := false)))
      || ((ex ==> !f.unmarked) && pc' == Wait(RlDone(o, ex)) && v' == v)
    case RlDone(_, _) => v' == v.(f := DropLatch(DropRef(f, t, User), t)) && pc' == Idle
    case _ => false
  }

  // LoadFrame: the buffer is filled without the directory latch.
  predicate LoadTouch(t: Tid, pc: Pc, v: View, pc': Pc, v': View) {
    match pc
    case LdRead(o, ex) => v' == v.(f := v.f.(data := v.disk)) && pc' == Wait(LdDone(o, ex))
    case LdDone(o, ex) =>
      var f := v.f.(state := LOADED, dirty := false);
      && v' == v.(f := if ex then f else DropLatch(f, t))
      && pc' == if ex then Hold(o, ex) else FxLock(o, ex)
    case _ => false
  }

  // EvictAnyBufferFrame. Any frame that nobody uses may be the victim: which one
  // is chosen does not matter here, and the file latch of others may be taken.
  predicate EvictTouch(t: Tid, pc: Pc, v: View, pc': Pc, v': View) {
    var f := v.f;
    match pc
    case EvPick(fid, ex) =>
      && f.users == 0 && f.state == LOADED
      && v' == v.(f := f.(state := EVICTING)) && pc'.EvTest? && pc' == EvTest(fid, ex, pc'.o)
    case EvTest(fid, ex, o) =>
      if f.dirty then v' == v.(f := AddRef(f, t, Evictor)) && pc' == FlEnter(o, Evicting(fid, ex))
      else v' == v && pc' == EvErase(fid, ex, o)
    case EvAfter(fid, ex, o) =>
      var g := DropRef(f, t, Evictor);
      if g.users > 0 then v' == v.(f := g) && pc' == EvPick(fid, ex)
      else if g.state == EVICTING then v' == v.(f := g) && pc' == EvErase(fid, ex, o)
      else v' == v.(f := g.(state := LOADED)) && pc' == EvPick(fid, ex)
    case _ => false
  }

  function Back(k: Cont, o: Oid): Pc {
    match k
    case Evicting(fid, ex) => EvAfter(fid, ex, o)
    case Flushing => Idle
  }

  // FlushFrame, for the evictor as for FlushFile.
  predicate FlushTouch(t: Tid, pc: Pc, v: View, pc': Pc, v': View) {
    var f := v.f;
    match pc
    case FlEnter(o, k) =>
      if f.dirty then v' == v.(f := AddRef(f, t, Flusher)) && pc' == FlLock(o, k) else v' == v && pc' == Back(k, o)
    case FlLock(o, k) => f.writer.None? && v' == v.(f := f.(readers := f.readers + {t})) && pc' == FlTest(o, k)
    case FlTest(o, k) => v' == v && pc' == if f.dirty then FlWrite(o, k) else FlUnlock(o, k)
    case FlWrite(o, k) => v' == v.(disk := f.data) && pc' == FlClear(o, k)
    case FlClear(o, k) => v' == v.(f := f.(dirty := false)) && pc' == FlUnlock(o, k)
    case FlUnlock(o, k) => v' == v.(f := DropLatch(f, t)) && pc' == Wait(FlDone(o, k))
    case FlDone(o, k) => v' == v.(f := DropRef(f, t, Flusher)) && pc' == Back(k, o)
    case _ => false
  }

  ghost predicate Touch(t: Tid, pc: Pc, v: View, pc': Pc, v': View) {
    || UserTouch(t, pc, v, pc', v')
    || LoadTouch(t, pc, v, pc', v')
    || EvictTouch(t, pc, v, pc', v')
    || FlushTouch(t, pc, v, pc', v')
  }

  // -------------------------------------------------------------------------
  // Steps of the whole buffer

  // The latch is dropped by the step that leaves its scope.
  function LatchAfter(c: Core, pc: Pc, pc': Pc): Option<Tid> {
    if Inside(pc) && !Inside(pc') then None else c.latch
  }

  // A call begins, or a blocked thread gets the directory latch.
  predicate LatchStep(t: Tid, pc: Pc, c: Core, pc': Pc, c': Core) {
    match pc
    case Idle =>
      && c' == c && pc'.Wait?
      && ((pc'.goal.FxFind? && pc'.goal.fid in c.disk) || (pc'.goal.FlEnter? && pc'.goal.k == Flushing))
    case Wait(goal) => c.latch.None? && c' == c.(latch := Some(t)) && pc' == goal
    case _ => false
  }

  // The steps that look at or change the directory itself.
  predicate DirectoryStep(t: Tid, pc: Pc, c: Core, pc': Pc, c': Core) {
    match pc
    case FxFind(fid, ex) => fid !in c.dir && c' == c && pc' == AlLoop(fid, ex)
    case AlLoop(fid, ex) => c' == c && pc' == if |c.dir| >= c.capacity then EvPick(fid, ex) else AlDone(fid, ex)
    case EvPick(fid, ex) => c' == c && pc' == AlDone(fid, ex)
    case EvErase(fid, ex, o) =>
      && o in c.objs
      && c' == c.(objs := c.objs - {o}, dir := c.dir - {c.objs[o].fid}) && pc' == AlLoop(fid, ex)
    case AlDone(fid, ex) =>
      if fid in c.dir then c' == c && pc' == FxFind(fid, ex)
      else
        && c.next in c'.objs
        && var f := Frame(fid, LOADING, 1, false, c'.objs[c.next].data, Some(t), {}, multiset{Ref(t, User)}, false);
        && c' == c.(latch := None, objs := c.objs[c.next := f], dir := c.dir[fid := c.next], next := c.next + 1)
        && pc' == LdRead(c.next, ex)
    case FlEnter(o, k) => o !in c.objs && k == Flushing && c' == c.(latch := None) && pc' == Idle
    case _ => false
  }

  // A step on the frame object o.
  ghost predicate FrameStep(t: Tid, o: Oid, pc: Pc, c: Core, pc': Pc, c': Core) {
    && o in c.objs && c.objs[o].fid in c.disk && c.objs[o].fid in c.logical
    && o in c'.objs && c'.objs[o].fid == c.objs[o].fid && c.objs[o].fid in c'.disk && c.objs[o].fid in c'.logical
    && (Target(pc).Some? ==> Target(pc) == Some(o))
    && (Target(pc').Some? ==> Target(pc') == Some(o))
    && (pc.FxFind? ==> pc.fid in c.dir && c.dir[pc.fid] == o)
    && Touch(t, pc, ViewOf(c, o), pc', ViewOf(c', o))
    && c' == WithView(c, o, ViewOf(c', o)).(latch := LatchAfter(c, pc, pc'))
  }

  ghost predicate CoreStep(t: Tid, pc: Pc, c: Core, pc': Pc, c': Core) {
    || LatchStep(t, pc, c, pc', c')
    || DirectoryStep(t, pc, c, pc', c')
    || (exists o :: FrameStep(t, o, pc, c, pc', c'))
  }

  ghost predicate ThreadStep(s: System, t: Tid, s': System) {
    && t in s.threads && t in s'.threads
    && s'.threads == s.threads[t := s'.threads[t]]
    && CoreStep(t, s.threads[t], s.core, s'.threads[t], s'.core)
  }

  ghost predicate Next(s: System, s': System) {
    exists t :: ThreadStep(s, t, s')
  }

  // An empty buffer over files whose pages have equal content and history.
  ghost predicate Init(s: System) {
    && s.core.latch.None? && s.core.dir == map[] && s.core.objs == map[]
    && s.core.logical == s.core.disk
    && (forall t | t in s.threads :: s.threads[t].Idle?)
  }
}
