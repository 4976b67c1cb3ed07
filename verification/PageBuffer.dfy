/** The file page buffer as one thread sees it: a page cache with a FIFO and an LRU
    list that stands for the files it caches. */
module PageBuffer {
  import opened Numbers
  import opened Wrappers
  import opened PageSpec
  import opened PageQueues

  datatype Error =
    | NotWritable
    | LockedExclusively
    | CannotTruncate
    | OpenedWithoutAppend
    | NoSuchFile
    | TooManyFiles

  // A file has those bytes at a position.
  predicate Holds(l: seq<Byte>, pos: nat, d: seq<Byte>) {
    pos + |d| <= |l| && l[pos..pos + |d|] == d
  }

  // What was written within one page is in the file if and only if it ends within it;
  // the file keeps its size and its bytes elsewhere.
  lemma {:induction false} StoredExactlyWithin(l: seq<Byte>, pos: nat, d: seq<Byte>)
    ensures |Stored(l, pos, d)| == |l|
    ensures forall i: nat | i < |l| :: Stored(l, pos, d)[i] == if pos <= i < pos + |d| then d[i - pos] else l[i]
    ensures Holds(Stored(l, pos, d), pos, d) <==> pos + |d| <= |l|
  {
    if pos <= |l| { PatchElsewhere(l, pos, Clipped(l, pos, d), 0, 0); }
  }

  function OneMoreUser(f: File): File {
    f.(users := f.users + 1)
  }

  // The files in `todo` still have to be released, the others have been: of those
  // only the ones with a user are left, with their frames.
  ghost predicate Dropping(files0: Files, frames0: Frames, todo: set<nat>, files: Files, frames: Frames) {
    && (forall k | k in frames0 && frames0[k].users > 0 :: k.file in files0 && files0[k.file].users > 0)
    && (forall id | id in todo :: id in files && id in files0 && files[id] == OneMoreUser(files0[id]))
    && (forall id | id !in todo :: id in files <==> id in files0 && files0[id].users > 0)
    && (forall id | id in files && id !in todo :: files[id] == files0[id])
    && (forall k :: k in frames <==> k in frames0 && k.file in files)
    && (forall k | k in frames :: frames[k] == frames0[k])
  }

  lemma {:induction false} DropBegins(files0: Files, frames0: Frames, files: Files)
    requires forall k | k in frames0 && frames0[k].users > 0 :: k.file in files0 && files0[k.file].users > 0
    requires forall k | k in frames0 :: k.file in files
    requires files.Keys == files0.Keys && forall id | id in files :: files[id] == OneMoreUser(files0[id])
    ensures Dropping(files0, frames0, files.Keys, files, frames0)
  {
  }

  lemma {:induction false} Droppable(files0: Files, frames0: Frames, todo: set<nat>, files: Files, frames: Frames, id: nat)
    requires Dropping(files0, frames0, todo, files, frames) && id in todo
    ensures id in files && files[id].users > 0
    ensures files[id].users == 1 ==> forall k | k in frames && k.file == id :: frames[k].users == 0
  {
  }

  lemma {:induction false} DropStep(
    files0: Files, frames0: Frames, todo: set<nat>, files: Files, frames: Frames, id: nat, gone: bool, files': Files, frames': Frames)
    requires Dropping(files0, frames0, todo, files, frames) && id in todo && id in files && files[id].users > 0
    requires gone <==> files[id].users == 1
    requires !gone ==> files' == files[id := files[id].(users := files[id].users - 1)] && frames' == frames
    requires gone ==>
               && files' == files - {id}
               && (forall k :: k in frames' <==> k in frames && k.file != id)
               && (forall k | k in frames' :: frames'[k] == frames[k])
    ensures Dropping(files0, frames0, todo - {id}, files', frames')
  {
  }

  lemma {:induction false} DropDone(files0: Files, frames0: Frames, files: Files, frames: Frames)
    requires Dropping(files0, frames0, {}, files, frames)
    ensures forall id :: id in files <==> id in files0 && files0[id].users > 0
    ensures forall id | id in files :: files[id] == files0[id]
    ensures forall k :: k in frames <==> k in frames0 && k.file in files
    ensures forall k | k in frames :: frames[k] == frames0[k]
    ensures forall k | k in frames && frames[k].users > 0 :: k.file in files && files[k.file].users > 0
  {
  }

  class FilePageBuffer {
    const ps: nat
    const capacity: nat
    var disk: Disk                       // the files of the file system below
    var files: Files
    var filesByName: map<string, nat>
    var freeIds: seq<nat>                // a stack: the last id is popped first
    var idCount: nat
    var frames: Frames
    var fifo: seq<Key>
    var lru: seq<Key>
    ghost var logical: Disk              // what the users of the files have written
    ghost var hist: map<Key, Hist>
    ghost var clock: nat

    ghost predicate Valid()
      reads this
    {
      && ContentOk(ps, files, frames, disk, logical)
      && DirOk(files, filesByName, freeIds, idCount)
      && QueuesOk(frames.Keys, fifo, lru, hist, clock)
    }

    constructor (pageSize: nat, pageCapacity: nat, stored: Disk)
      requires pageSize > 0
      ensures Valid() && ps == pageSize && capacity == pageCapacity
      ensures disk == stored && logical == stored && files == map[] && frames == map[]
      ensures filesByName == map[] && freeIds == [] && idCount == 0
    {
      ps, capacity, disk := pageSize, pageCapacity, stored;
      files, filesByName, freeIds, idCount := map[], map[], [], 0;
      frames, fifo, lru := map[], [], [];
      logical, hist, clock := stored, map[], 0;
    }

    // The file system holds everything that was written to a file that is not open.
    lemma {:induction false} ClosedFilesAreComplete(path: string)
      requires Valid() && path in disk && path !in filesByName
      ensures path in logical && disk[path] == logical[path]
    {
      hide QueuesOk, IdsOk, FrameOk, PageClean, FileOk;
      assert !IsOpen(files, path);
    }

    // -----------------------------------------------------------------------
    // Eviction

    // The first frame of a list that nobody uses.
    method FindUnpinned(q: seq<Key>) returns (r: Option<Key>)
      ensures r == FirstUnpinned(q, frames)
    {
      var i := 0;
      while i < |q|
        invariant 0 <= i <= |q|
        invariant FirstUnpinned(q, frames) == FirstUnpinned(q[i..], frames)
      {
        if q[i] in frames && frames[q[i]].users == 0 {
          return Some(q[i]);
        }
        assert q[i..][1..] == q[i + 1..];
        i := i + 1;
      }
      return None;
    }

    // Writes a dirty frame back to its file.
    method FlushFrame(k: Key)
      requires Valid() && k in frames
      modifies this`frames, this`disk
      ensures Valid() && frames == old(frames)[k := FlushedFrame(old(frames)[k])]
      ensures PageClean(ps, files[k.file], k.page, disk, logical)
      ensures !old(frames)[k].dirty ==> disk == old(disk)
    {
      hide ContentOk, DirOk, QueuesOk;
      FrameAt(ps, files, frames, disk, logical, k);
      DirApart(files, filesByName, freeIds, idCount);
      if !frames[k].dirty {
        assert frames[k := FlushedFrame(frames[k])] == frames;
        return;
      }
      var f, fr := files[k.file], frames[k];
      FlushKeeps(ps, files, frames, disk, logical, k);
      disk := disk[f.path := Patch(disk[f.path], Start(k.page, ps), fr.data[..fr.size])];
      frames := frames[k := FlushedFrame(fr)];
      assert frames.Keys == old(frames).Keys;
      FrameAt(ps, files, frames, disk, logical, k);
    }

    // Takes frame k out of the lists and the directory.
    method EraseFrame(k: Key)
      requires Valid() && k in frames && !frames[k].dirty
      modifies this`frames, this`fifo, this`lru
      ensures Valid() && frames == old(frames) - {k}
      ensures fifo == Remove(old(fifo), k) && lru == Remove(old(lru), k)
    {
      hide ContentOk, DirOk, QueuesOk, FrameOk, AfterEviction, Victim;
      EraseKeeps(ps, files, frames, disk, logical, k);
      EraseQueues(frames.Keys, fifo, lru, hist, clock, k);
      assert (frames - {k}).Keys == frames.Keys - {k};
      ghost var i := RemoveCuts(fifo, k);
      ghost var j := RemoveCuts(lru, k);
      if k in lru {
        OneList(frames.Keys, fifo, lru, hist, clock, k);
        lru := Remove(lru, k);
      } else if k in fifo {
        fifo := Remove(fifo, k);
      }
      frames := frames - {k};
    }

    // Evicts the victim, if there is one; its bytes go to the file first.
    method EvictAnyBufferFrame() returns (evicted: bool)
      requires Valid()
      modifies this`frames, this`fifo, this`lru, this`disk
      ensures Valid()
      ensures var v := Victim(old(fifo), old(lru), old(frames));
              && evicted == v.Some?
              && match v
                 case None => frames == old(frames) && fifo == old(fifo) && lru == old(lru) && disk == old(disk)
                 case Some(k) =>
                   && k in old(frames) && frames == old(frames) - {k}
                   && fifo == Remove(old(fifo), k) && lru == Remove(old(lru), k)
                   && PageClean(ps, files[k.file], k.page, disk, logical)
    {
      hide ContentOk, DirOk, QueuesOk, FrameOk, PageClean;
      VictimIsOldest(frames, fifo, lru, hist, clock);
      var v := FindUnpinned(fifo);
      if v.None? {
        v := FindUnpinned(lru);
        if v.None? {
          return false;
        }
      }
      var k := v.value;
      FlushFrame(k);
      EraseFrame(k);
      assert frames == old(frames) - {k};
      return true;
    }

    // Makes room for one more frame as long as an unpinned one is left.
    method AllocateFrameBuffer()
      requires Valid()
      modifies this`frames, this`fifo, this`lru, this`disk
      ensures Valid()
      ensures (frames, fifo, lru) == AfterEviction(old(frames), old(fifo), old(lru), capacity)
    {
      hide ContentOk, DirOk, QueuesOk, FrameOk, PageClean;
      ghost var room := AfterEviction(frames, fifo, lru, capacity);
      while |frames| >= capacity
        invariant Valid()
        invariant AfterEviction(frames, fifo, lru, capacity) == room
        decreases |frames|
      {
        VictimIsOldest(frames, fifo, lru, hist, clock);
        var evicted := EvictAnyBufferFrame();
        if !evicted {
          return;
        }
      }
    }

    // -----------------------------------------------------------------------
    // Fixing pages

    // The bytes of a page as its file holds them.
    function Loaded(id: nat, page: nat): Frame
      requires ps > 0 && id in files && files[id].path in disk
      requires Start(page, ps) <= files[id].size == |disk[files[id].path]|
      reads this
    {
      var content := PageOf(disk[files[id].path], page, ps);
      Frame(content + seq(ps - |content|, _ => 0), |content|, false, 1)
    }

    method FixPage(id: nat, page: nat)
      requires Valid() && id in files && Start(page, ps) <= files[id].size
      modifies this`frames, this`fifo, this`lru, this`disk, this`hist, this`clock
      ensures Valid()
      ensures var k := Key(id, page);
              && k in frames && frames[k].size <= |frames[k].data|
              && frames[k].data[..frames[k].size] == PageOf(logical[files[id].path], page, ps)
              && k in hist && hist[k].lastFix == old(clock) && clock == old(clock) + 1
              && OneMorePin(old(frames), frames, k) && frames[k].users > 0
              && FixEffect(old(frames), old(fifo), old(lru), old(hist), frames, fifo, lru, hist, k, capacity)
    {
      hide ContentOk, DirOk, QueuesOk, AfterEviction;
      FileAt(ps, files, frames, disk, logical, id);
      var k := Key(id, page);
      if k in frames {
        Refix(k);
      } else {
        EvictionMakesRoom(frames, fifo, lru, hist, clock, capacity);
        AllocateFrameBuffer();
        LoadFrame(id, page);
      }
      FrameAt(ps, files, frames, disk, logical, k);
    }

    method Refix(k: Key)
      requires Valid() && k in frames
      modifies this`frames, this`fifo, this`lru, this`hist, this`clock
      ensures Valid()
      ensures frames == old(frames)[k := old(frames)[k].(users := old(frames)[k].users + 1)]
      ensures fifo == Remove(old(fifo), k) && lru == Remove(old(lru), k) + [k]
      ensures k in old(hist) && clock == old(clock) + 1
      ensures hist == old(hist)[k := Hist(old(hist)[k].loadedAt, old(clock), old(hist)[k].fixes + 1)]
    {
      hide ContentOk, DirOk, QueuesOk, FrameOk, AfterEviction, Victim;
      UsersKeep(ps, files, frames, disk, logical, k, frames[k].users + 1);
      RefixQueues(frames.Keys, fifo, lru, hist, clock, k);
      ghost var i := RemoveCuts(fifo, k);
      ghost var j := RemoveCuts(lru, k);
      frames := frames[k := frames[k].(users := frames[k].users + 1)];
      if k in lru {
        OneList(old(frames).Keys, fifo, lru, hist, clock, k);
        lru := Remove(lru, k) + [k];
      } else {
        fifo := Remove(fifo, k);
        lru := lru + [k];
      }
      hist := hist[k := Hist(hist[k].loadedAt, clock, hist[k].fixes + 1)];
      clock := clock + 1;
      assert frames.Keys == old(frames).Keys;
    }

    method LoadFrame(id: nat, page: nat)
      requires Valid() && id in files && Start(page, ps) <= files[id].size && Key(id, page) !in frames
      modifies this`frames, this`fifo, this`hist, this`clock
      ensures Valid()
      ensures var k := Key(id, page);
              && k in frames && frames == old(frames)[k := frames[k]] && frames[k].users == 1
              && fifo == old(fifo) + [k]
              && hist == old(hist)[k := Hist(old(clock), old(clock), 1)] && clock == old(clock) + 1
    {
      hide ContentOk, DirOk, QueuesOk, FrameOk, AfterEviction, Victim;
      var k := Key(id, page);
      FileAt(ps, files, frames, disk, logical, id);
      var fr := Loaded(id, page);
      assert fr.data[..fr.size] == PageOf(disk[files[id].path], page, ps);
      InsertKeeps(ps, files, frames, disk, logical, k, fr);
      LoadQueues(frames.Keys, fifo, lru, hist, clock, k);
      frames := frames[k := fr];
      fifo := fifo + [k];
      hist := hist[k := Hist(clock, clock, 1)];
      clock := clock + 1;
      assert frames.Keys == old(frames).Keys + {k};
    }

    // BufferRef::Release.
    method ReleasePage(k: Key)
      requires Valid() && k in frames && frames[k].users > 0
      modifies this`frames
      ensures Valid() && frames == old(frames)[k := old(frames)[k].(users := old(frames)[k].users - 1)]
    {
      hide ContentOk, DirOk, QueuesOk, FrameOk, AfterEviction, Victim;
      UsersKeep(ps, files, frames, disk, logical, k, frames[k].users - 1);
      frames := frames[k := frames[k].(users := frames[k].users - 1)];
      assert frames.Keys == old(frames).Keys;
    }

    // A user changes bytes of the buffer of a page that it has fixed and marks it as dirty.
    method UpdatePage(k: Key, at: nat, d: seq<Byte>) returns (r: Result<(), Error>)
      requires Valid() && k in frames && frames[k].users > 0 && at + |d| <= ps
      modifies this`frames, this`logical
      ensures Valid()
      ensures r.Ok? <==> files[k.file].flags.write
      ensures match r
              case Err(e) => e == NotWritable && frames == old(frames) && logical == old(logical)
              case Ok(_) =>
                var path := files[k.file].path;
                && path in old(logical)
                && logical == old(logical)[path := Updated(ps, k.page, old(logical)[path], at, d)]
                && frames == old(frames)[k := UpdatedFrame(old(frames)[k], at, d)]
    {
      hide ContentOk, DirOk, QueuesOk, FrameOk, FileOk, PathsApart;
      DirApart(files, filesByName, freeIds, idCount);
      FrameAt(ps, files, frames, disk, logical, k);
      if !files[k.file].flags.write {
        return Err(NotWritable);
      }
      UpdateKeeps(ps, files, frames, disk, logical, k, at, d);
      ghost var path := files[k.file].path;
      var fr := frames[k].(data := Patch(frames[k].data, at, d), dirty := true);
      assert fr == UpdatedFrame(frames[k], at, d);
      logical := logical[path := Updated(ps, k.page, logical[path], at, d)];
      frames := frames[k := fr];
      assert frames.Keys == old(frames).Keys;
      return Ok(());
    }

    // -----------------------------------------------------------------------
    // Reading

    // FileRef::Read: at most n bytes, and none beyond the page that offset lies on.
    method Read(id: nat, n: nat, offset: nat) returns (out: seq<Byte>)
      requires Valid() && id in files
      modifies this`frames, this`fifo, this`lru, this`disk, this`hist, this`clock
      ensures Valid() && SamePins(old(frames), frames)
      ensures var path := files[id].path;
              && path in logical && ps > 0
              && |out| == (if offset < |logical[path]| then Min(Min(n, |logical[path]| - offset), ps - offset % ps) else 0)
              && (out != [] ==> offset + |out| <= |logical[path]| && out == logical[path][offset..offset + |out|])
    {
      hide ContentOk, DirOk, QueuesOk, FixEffect, OneMorePin, Start, PageNo, FrameOk, PageOf;
      FileAt(ps, files, frames, disk, logical, id);
      var size := files[id].size;
      OnePageIs(size, n, offset, ps);
      var readEnd := Min(size, offset + n);
      var readMax := Min(n, (if readEnd > offset then readEnd else offset) - offset);
      PositionInPage(offset, ps);
      if readMax == 0 {
        return [];
      }
      var page := PageNo(offset, ps);
      var skip := offset - Start(page, ps);
      var readHere := Min(readMax, ps - skip);
      FixPage(id, page);
      var k := Key(id, page);
      PinAndUnpin(old(frames), frames, k, frames[k]);
      var data := frames[k].data[..frames[k].size];
      OnePageHere(logical[files[id].path], n, offset, ps);
      readHere := Min(readHere, |data|);
      out := data[skip..skip + readHere];
      ReleasePage(k);
    }

    // BufferedFileSystem::Read at a location: page-wise until n bytes are read or the
    // file ends; `threw` stands for the exception at the end of the file.
    method ReadFully(id: nat, n: int, at: nat) returns (out: seq<Byte>, position: nat, threw: bool)
      requires Valid() && id in files
      modifies this`frames, this`fifo, this`lru, this`disk, this`hist, this`clock
      ensures Valid() && SamePins(old(frames), frames)
      ensures files[id].path in logical
      ensures var l := logical[files[id].path];
              && (threw <==> n > 0 && at + n > |l|)
              && position == at + |out|
              && out == if n <= 0 || at >= |l| then [] else l[at..Min(at + n, |l|)]
    {
      hide ContentOk, DirOk, QueuesOk, AfterEviction;
      FileAt(ps, files, frames, disk, logical, id);
      ghost var l := logical[files[id].path];
      var size := files[id].size;
      var left := n;
      out, position := [], at;
      while left > 0 && position < size
        invariant Valid() && SamePins(old(frames), frames)
        invariant position == at + |out|
        invariant left == n - |out|
        invariant out == [] || (position <= |l| && out == l[at..position] && left >= 0)
        decreases left
      {
        var got := Read(id, left, position);
        assert |got| > 0 && got == l[position..position + |got|];
        out := out + got;
        position := position + |got|;
        left := left - |got|;
      }
      threw := position >= size && left > 0;
    }

    // -----------------------------------------------------------------------
    // Appending

    // FileRef::Append. The file system may take several writes. The caller holds the
    // file exclusively, so no page of it is fixed.
    method Append(id: nat, d: seq<Byte>) returns (r: Result<(), Error>)
      requires Valid() && id in files
      requires forall k | k in frames && k.file == id :: frames[k].users == 0
      modifies this`frames, this`files, this`disk, this`logical
      ensures Valid()
      ensures r.Ok? <==> old(files)[id].flags.write
      ensures var path := old(files)[id].path;
              match r
              case Err(e) =>
                e == NotWritable && frames == old(frames) && files == old(files) && disk == old(disk) && logical == old(logical)
              case Ok(_) =>
                && path in old(logical) && logical == old(logical)[path := old(logical)[path] + d]
                && files == old(files)[id := old(files)[id].(size := old(files)[id].size + |d|)]
                && frames.Keys == old(frames).Keys
                && (forall k | k in frames :: frames[k].users == old(frames)[k].users && frames[k].dirty == old(frames)[k].dirty)
    {
      hide ContentOk, DirOk, QueuesOk, FrameOk;
      if !files[id].flags.write {
        return Err(NotWritable);
      }
      var path, size := files[id].path, files[id].size;
      DirApart(files, filesByName, freeIds, idCount);
      FileAt(ps, files, frames, disk, logical, id);
      AppendKeeps(ps, files, frames, disk, logical, id, d);
      ghost var stored := disk;
      var written := 0;
      assert d[..0] == [] && stored[path] + d[..0] == stored[path];
      while written < |d|
        invariant 0 <= written <= |d|
        invariant path in disk && path in stored && disk == stored[path := stored[path] + d[..written]]
        modifies this`disk
      {
        var n: nat :| 1 <= n <= |d| - written;
        assert stored[path] + d[..written + n] == stored[path] + d[..written] + d[written..written + n];
        disk := disk[path := disk[path] + d[written..written + n]];
        written := written + n;
      }
      assert d[..written] == d;
      SameDir(id, files[id].(size := size + |d|));
      files := files[id := files[id].(size := size + |d|)];
      var last := Key(id, PageNo(size, ps));
      if last in frames {
        frames := frames[last := Extended(ps, size, frames[last], d)];
      }
      logical := logical[path := logical[path] + d];
      assert frames == AppendedFrames(ps, id, size, old(frames), d);
      assert frames.Keys == old(frames).Keys;
      return Ok(());
    }

    // FileRef::Write: within one page of an appending file, or else an append. A write
    // within a page that goes beyond the end of the file reports all of its bytes, but
    // the file keeps its size.
    method Write(id: nat, d: seq<Byte>, offset: nat) returns (r: Result<nat, Error>)
      requires Valid() && ps > 0 && id in files
      requires if files[id].flags.append && offset != files[id].size then Start(PageNo(offset, ps), ps) <= files[id].size
               else forall k | k in frames && k.file == id :: frames[k].users == 0
      modifies this`frames, this`files, this`disk, this`logical, this`fifo, this`lru, this`hist, this`clock
      ensures Valid() && SamePins(old(frames), frames)
      ensures r.Ok? <==> old(files)[id].flags.write
      ensures var f := old(files)[id];
              && f.path in old(logical)
              && var l := old(logical)[f.path];
              match r
              case Err(e) =>
                && e == NotWritable && files == old(files) && logical == old(logical) && disk == old(disk) && frames == old(frames)
                && fifo == old(fifo) && lru == old(lru) && hist == old(hist)
              case Ok(n) =>
                if f.flags.append && offset != f.size then
                  && files == old(files)
                  && n == Min(|d|, ps - offset % ps)
                  && logical == old(logical)[f.path := Stored(l, offset, d[..n])]
                  && (Holds(logical[f.path], offset, d[..n]) <==> offset + n <= f.size)
                else
                  && files == old(files)[id := f.(size := f.size + |d|)]
                  && n == |d| && logical == old(logical)[f.path := l + d]
    {
      hide ContentOk, DirOk, QueuesOk, FrameOk, Start, PageNo, Patch;
      var f := files[id];
      FileAt(ps, files, frames, disk, logical, id);
      if !f.flags.write {
        return Err(NotWritable);
      }
      if !f.flags.append || offset == f.size {
        var _ := Append(id, d);
        return Ok(|d|);
      }
      r := WriteInPage(id, d, offset);
      OnePageIs(offset + |d|, |d|, offset, ps);
      StoredExactlyWithin(old(logical)[f.path], offset, d[..r.value]);
    }

    method WriteInPage(id: nat, d: seq<Byte>, offset: nat) returns (r: Result<nat, Error>)
      requires Valid() && ps > 0 && id in files && files[id].flags.write
      requires Start(PageNo(offset, ps), ps) <= files[id].size
      modifies this`frames, this`logical, this`fifo, this`lru, this`disk, this`hist, this`clock
      ensures Valid() && SamePins(old(frames), frames)
      ensures files[id].path in old(logical)
      ensures var path := files[id].path;
              var here := OnePage(offset + |d|, |d|, offset, ps);
              && r == Ok(here) && 0 <= here <= |d|
              && logical == old(logical)[path := Stored(old(logical)[path], offset, d[..here])]
    {
      hide ContentOk, DirOk, QueuesOk, FrameOk, FixEffect, OneMorePin, SamePins, Start, PageNo, PageOf, Patch;
      FileAt(ps, files, frames, disk, logical, id);
      PositionInPage(offset, ps);
      var page := PageNo(offset, ps);
      var skip := offset - Start(page, ps);
      var here := Min(|d|, ps - skip);
      FixPage(id, page);
      var k := Key(id, page);
      ghost var fixed := frames;
      var _ := UpdatePage(k, skip, d[..here]);
      PinAndUnpin(old(frames), fixed, k, frames[k]);
      ReleasePage(k);
      assert frames == fixed[k := frames[k]];
      return Ok(here);
    }

    // -----------------------------------------------------------------------
    // Opening and closing files

    // A file is either always appending or not; one that was only readable is reopened.
    static predicate AppendConflict(was: Flags, flags: Flags) {
      flags.write && was.write && flags.append && !was.append
    }

    // `found` is what the file system's own open finds or leaves at the path: the
    // contents of the file, none of it after creating or truncating; None if it fails.
    method OpenFile(path: string, flags: Flags, createNew: bool, found: Option<seq<Byte>>) returns (r: Result<nat, Error>)
      requires Valid()
      modifies this`files, this`filesByName, this`freeIds, this`idCount, this`disk, this`logical
      ensures Valid()
      ensures r.Err? ==> files == old(files) && filesByName == old(filesByName) && freeIds == old(freeIds) && idCount == old(idCount)
      ensures var asked := path !in old(filesByName) && found.Some?;
              && disk == (if asked then old(disk)[path := found.value] else old(disk))
              && logical == (if asked then old(logical)[path := found.value] else old(logical))
      ensures match r
              case Err(LockedExclusively) => path in filesByName && files[filesByName[path]].flags.writeLock
              case Err(CannotTruncate) => path in filesByName && !files[filesByName[path]].flags.writeLock && createNew
              case Err(OpenedWithoutAppend) =>
                && path in filesByName && !files[filesByName[path]].flags.writeLock && !createNew
                && flags.write && files[filesByName[path]].flags.write && flags.append && !files[filesByName[path]].flags.append
              case Err(NoSuchFile) => path !in filesByName && found.None?
              case Err(TooManyFiles) => path !in filesByName && found.Some? && |old(freeIds)| == 0 && idCount == 65535
              case Err(NotWritable) => false
              case Ok(id) =>
                && id in files && files[id].path == path && path in filesByName && filesByName[path] == id
                && if path in old(filesByName) then
                     && id == old(filesByName)[path] && id in old(files)
                     && !old(files)[id].flags.writeLock && !createNew
                     && (flags.write && old(files)[id].flags.write && flags.append ==> old(files)[id].flags.append)
                     && files == old(files)[id := old(files)[id].(users := old(files)[id].users + 1)]
                   else
                     && found.Some? && (|old(freeIds)| > 0 || old(idCount) != 65535)
                     && id < 65535
                     && id !in old(files) && files == old(files)[id := files[id]]
                     && files[id].users == 1 && files[id].flags == flags && files[id].size == |found.value|
                     && (forall k | k in frames :: k.file != id) && (forall k | k in fifo || k in lru :: k.file != id)
    {
      hide ContentOk, DirOk, QueuesOk;
      if path in filesByName {
        DirAt(path);
        var id := filesByName[path];
        var f := files[id];
        if f.flags.writeLock {
          return Err(LockedExclusively);
        }
        if createNew {
          return Err(CannotTruncate);
        }
        // The recorded flags of a reopened file stay.
        if AppendConflict(f.flags, flags) {
          return Err(OpenedWithoutAppend);
        }
        RefsKeep(ps, files, frames, disk, logical, id, f.users + 1);
        SameDir(id, f.(users := f.users + 1));
        files := files[id := f.(users := f.users + 1)];
        return Ok(id);
      }
      if found.None? {
        return Err(NoSuchFile);
      }
      NotOpen(path);
      FoundKeeps(ps, files, frames, disk, logical, path, found.value);
      disk := disk[path := found.value];
      logical := logical[path := found.value];
      var id := idCount;
      if |freeIds| > 0 {
        id := freeIds[|freeIds| - 1];
      } else if idCount == MAX_FILE_IDS {
        return Err(TooManyFiles);
      }
      var f := File(path, |disk[path]|, 1, flags);
      NewFile(id, f);
      NewDir(id, f);
      if |freeIds| > 0 {
        freeIds := freeIds[..|freeIds| - 1];
      } else {
        idCount := idCount + 1;
      }
      filesByName := filesByName[path := id];
      files := files[id := f];
      return Ok(id);
    }

    lemma {:induction false} NewFile(id: nat, f: File)
      requires Valid() && f.path in disk && f.size == |disk[f.path]| && f.path !in filesByName
      requires NextId(id)
      ensures id !in files && ContentOk(ps, files[id := f], frames, disk, logical)
      ensures forall k | k in frames :: k.file != id
      ensures forall k | k in fifo || k in lru :: k.file != id
    {
      hide ContentOk, FrameOk, PageClean, FileOk, PageOf;
      assert id !in files by { assert |freeIds| > 0 ==> id in freeIds; }
      assert !IsOpen(files, f.path);
      OpenKeeps(ps, files, frames, disk, logical, id, f);
      NoFramesOf(id);
    }

    // The id that the next file gets.
    predicate NextId(id: nat)
      reads this
    {
      if |freeIds| > 0 then id == freeIds[|freeIds| - 1] else id == idCount != MAX_FILE_IDS
    }

    lemma {:induction false} NoFramesOf(id: nat)
      requires Valid() && id !in files
      ensures forall k | k in frames :: k.file != id
      ensures forall k | k in fifo || k in lru :: k.file != id
    {
      hide FrameOk, PageClean, FileOk, DirOk, ByLoad, ByLastFix;
    }

    lemma {:induction false} NewDir(id: nat, f: File)
      requires DirOk(files, filesByName, freeIds, idCount) && f.path !in filesByName && NextId(id)
      ensures id < MAX_FILE_IDS
      ensures DirOk(files[id := f], filesByName[f.path := id], if |freeIds| > 0 then freeIds[..|freeIds| - 1] else freeIds,
                    if |freeIds| > 0 then idCount else idCount + 1)
    {
      var rest := if |freeIds| > 0 then freeIds[..|freeIds| - 1] else freeIds;
      var count := if |freeIds| > 0 then idCount else idCount + 1;
      assert freeIds == if |freeIds| > 0 then rest + [id] else rest;
      forall i: nat | i < count ensures i in files[id := f] || i in rest {
        if i != id { assert i in files || i in freeIds; }
      }
      assert IdsOk(files[id := f], rest, count);
    }

    // Flushes and unlinks every frame of a file that nobody uses.
    method DropFrames(id: nat)
      requires Valid() && id in files
      requires forall k | k in frames && k.file == id :: frames[k].users == 0
      modifies this`frames, this`fifo, this`lru, this`disk
      ensures Valid()
      ensures forall k :: k in frames <==> k in old(frames) && k.file != id
      ensures forall k | k in frames :: frames[k] == old(frames)[k]
    {
      hide ContentOk, DirOk, QueuesOk;
      while exists k :: k in frames && k.file == id
        invariant Valid()
        invariant forall k | k in frames :: k in old(frames) && frames[k] == old(frames)[k]
        invariant forall k | k in old(frames) && k.file != id :: k in frames
        decreases |frames|
      {
        var k :| k in frames && k.file == id;
        ghost var before := frames;
        FlushFrame(k);
        EraseFrame(k);
        assert frames == before - {k};
        assert |frames.Keys| == |before.Keys - {k}| < |before.Keys|;
      }
    }

    // FileRef::Release: true when the file is gone. Its id is free only then, and no
    // frame or list entry carries it any more.
    method Release(id: nat, keepDangling: bool) returns (gone: bool)
      requires Valid() && id in files && files[id].users > 0
      requires files[id].users == 1 && !(keepDangling && files[id].flags.read) ==>
                 forall k | k in frames && k.file == id :: frames[k].users == 0
      modifies this`frames, this`fifo, this`lru, this`disk, this`files, this`filesByName, this`freeIds
      ensures Valid()
      ensures gone <==> old(files)[id].users == 1 && !(keepDangling && old(files)[id].flags.read)
      ensures !gone ==>
                && files == old(files)[id := old(files)[id].(users := old(files)[id].users - 1)]
                && frames == old(frames) && filesByName == old(filesByName) && freeIds == old(freeIds) && disk == old(disk)
      ensures gone ==>
                && files == old(files) - {id} && freeIds == old(freeIds) + [id]
                && filesByName == old(filesByName) - {old(files)[id].path}
                && (forall k | k in fifo || k in lru :: k.file != id)
                && (forall k :: k in frames <==> k in old(frames) && k.file != id)
                && (forall k | k in frames :: frames[k] == old(frames)[k])
                && var path := old(files)[id].path;
                path in disk && path in logical && disk[path] == logical[path]
    {
      hide ContentOk, DirOk, QueuesOk;
      var f := files[id];
      if f.users > 1 || (keepDangling && f.flags.read) {
        RefsKeep(ps, files, frames, disk, logical, id, f.users - 1);
        SameDir(id, f.(users := f.users - 1));
        files := files[id := f.(users := f.users - 1)];
        return false;
      }
      DropFrames(id);
      CloseKeeps(ps, files, frames, disk, logical, id);
      Unlisted(id);
      filesByName := filesByName - {f.path};
      freeIds := freeIds + [id];
      files := files - {id};
      return true;
    }

    lemma {:induction false} Unlisted(id: nat)
      requires Valid() && id in files && (forall k | k in frames :: k.file != id)
      ensures forall k | k in fifo || k in lru :: k.file != id
      ensures DirOk(files - {id}, filesByName - {files[id].path}, freeIds + [id], idCount)
    {
    }

    method TryDropFile(path: string) returns (gone: bool)
      requires Valid()
      requires path in filesByName && files[filesByName[path]].users == 0 ==>
                 forall k | k in frames && k.file == filesByName[path] :: frames[k].users == 0
      modifies this`frames, this`fifo, this`lru, this`disk, this`files, this`filesByName, this`freeIds
      ensures Valid()
      ensures gone <==> (path in old(filesByName) ==> old(files)[old(filesByName)[path]].users == 0)
      ensures gone ==> path !in filesByName
      ensures gone && path in old(filesByName) ==> path in disk && path in logical && disk[path] == logical[path]
      ensures !gone ==> files == old(files) && frames == old(frames) && filesByName == old(filesByName) && freeIds == old(freeIds)
    {
      hide ContentOk, DirOk, QueuesOk;
      if path !in filesByName {
        return true;
      }
      DirAt(path);
      var id := filesByName[path];
      if files[id].users > 0 {
        return false;
      }
      RefsKeep(ps, files, frames, disk, logical, id, 1);
      SameDir(id, files[id].(users := 1));
      files := files[id := files[id].(users := 1)];
      gone := Release(id, false);
    }

    // Whoever has a page fixed holds a reference of its file.
    ghost predicate PinsAreHeld()
      reads this
    {
      forall k | k in frames && frames[k].users > 0 :: k.file in files && files[k.file].users > 0
    }

    // Takes one more reference of every file and releases them all: exactly the files
    // without a user disappear, and what was written to them is in the file system.
    method DropDanglingFiles()
      requires Valid() && PinsAreHeld()
      modifies this`frames, this`fifo, this`lru, this`disk, this`files, this`filesByName, this`freeIds
      ensures Valid() && PinsAreHeld()
      ensures forall id :: id in files <==> id in old(files) && old(files)[id].users > 0
      ensures forall id | id in files :: files[id] == old(files)[id]
      ensures forall k :: k in frames <==> k in old(frames) && k.file in files
      ensures forall k | k in frames :: frames[k] == old(frames)[k]
    {
      hide ContentOk, DirOk, QueuesOk, FrameOk, Dropping;
      FramesHaveFiles();
      var ids := files.Keys;
      ReferenceAll();
      DropBegins(old(files), old(frames), files);
      var todo := ids;
      while todo != {}
        invariant Valid() && todo <= ids && Dropping(old(files), old(frames), todo, files, frames)
        decreases |todo|
      {
        var id :| id in todo;
        ghost var (files', frames') := (files, frames);
        Droppable(old(files), old(frames), todo, files, frames, id);
        var gone := Release(id, false);
        DropStep(old(files), old(frames), todo, files', frames', id, gone, files, frames);
        todo := todo - {id};
      }
      DropDone(old(files), old(frames), files, frames);
    }

    method ReferenceAll()
      requires Valid()
      modifies this`files
      ensures Valid() && files.Keys == old(files).Keys
      ensures forall id | id in files :: files[id] == OneMoreUser(old(files)[id])
    {
      hide ContentOk, DirOk, QueuesOk;
      var todo := files.Keys;
      while todo != {}
        invariant Valid() && todo <= old(files).Keys == files.Keys
        invariant forall id | id in files :: files[id] == if id in todo then old(files)[id] else OneMoreUser(old(files)[id])
        decreases |todo|
      {
        var id :| id in todo;
        RefsKeep(ps, files, frames, disk, logical, id, files[id].users + 1);
        SameDir(id, OneMoreUser(files[id]));
        files := files[id := OneMoreUser(files[id])];
        todo := todo - {id};
      }
    }

    lemma {:induction false} FramesHaveFiles()
      requires Valid()
      ensures forall k | k in frames :: k.file in files
    {
      hide FrameOk, PageClean, FileOk, DirOk, QueuesOk;
    }

    lemma {:induction false} NotOpen(path: string)
      requires DirOk(files, filesByName, freeIds, idCount) && path !in filesByName
      ensures !IsOpen(files, path)
    {
    }

    lemma {:induction false} DirAt(path: string)
      requires DirOk(files, filesByName, freeIds, idCount) && path in filesByName
      ensures filesByName[path] in files && files[filesByName[path]].path == path
    {
    }

    lemma {:induction false} SameDir(id: nat, f: File)
      requires DirOk(files, filesByName, freeIds, idCount) && id in files && f.path == files[id].path
      ensures DirOk(files[id := f], filesByName, freeIds, idCount)
    {
    }
  }

  // A five-byte file with eight-byte pages, six bytes written at offset 2: all six are
  // reported, three of them reach the file.
  method CrossingWriteLosesBytes() returns (r: Result<nat, Error>, buffer: FilePageBuffer)
    ensures r == Ok(6) && "f" in buffer.disk && buffer.disk["f"] == [0, 0, 1, 2, 3]
  {
    hide ContentOk, DirOk, QueuesOk, FixEffect, OnePage, Stored, Holds;
    var id;
    buffer, id := OpenFive();
    var d: seq<Byte> := [1, 2, 3, 4, 5, 6];
    FirstPageOf8(d);
    r := buffer.Write(id, d, 2);
    assert buffer.logical["f"] == [0, 0, 1, 2, 3];
    var _ := buffer.Release(id, false);
  }

  method OpenFive() returns (buffer: FilePageBuffer, id: nat)
    ensures fresh(buffer) && buffer.Valid() && buffer.ps == 8 && buffer.frames == map[]
    ensures id in buffer.files && buffer.files[id] == File("f", 5, 1, Flags(true, true, true, false))
    ensures "f" in buffer.logical && buffer.logical["f"] == [0, 0, 0, 0, 0]
  {
    hide ContentOk, DirOk, QueuesOk, FixEffect;
    var zeros: seq<Byte> := [0, 0, 0, 0, 0];
    buffer := new FilePageBuffer(8, 1, map["f" := zeros]);
    var o := buffer.OpenFile("f", Flags(true, true, true, false), false, Some(zeros));
    id := o.value;
  }

  lemma {:induction false} FirstPageOf8(d: seq<Byte>)
    requires d == [1, 2, 3, 4, 5, 6]
    ensures OnePage(8, 6, 2, 8) == 6
    ensures Stored([0, 0, 0, 0, 0], 2, d[..6]) == [0, 0, 1, 2, 3]
  {
  }
}
