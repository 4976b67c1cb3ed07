/** Files as byte sequences cut into pages, and what it means for a set of cached
    frames to stand for the files' logical contents. */
module PageSpec {
  import opened Numbers

  // -------------------------------------------------------------------------
  // Frame ids: 16 bits of file id above 48 bits of page id

  const TWO48 := 0x1_0000_0000_0000

  function BuildFrameId(file: nat, page: nat): nat {
    page % TWO48 + file * TWO48
  }

  lemma {:induction false} FrameIdsAreUnique(file: nat, page: nat, file': nat, page': nat)
    requires page < TWO48 && page' < TWO48
    ensures BuildFrameId(file, page) / TWO48 == file && BuildFrameId(file, page) % TWO48 == page
    ensures BuildFrameId(file, page) == BuildFrameId(file', page') <==> file == file' && page == page'
  {
  }

  // -------------------------------------------------------------------------
  // Pages of a byte sequence

  // Where a page begins, and which page a position lies on.
  function Start(page: nat, ps: nat): nat {
    page * ps
  }

  function PageNo(p: nat, ps: nat): nat
    requires ps > 0
  {
    p / ps
  }

  function PageOf(s: seq<Byte>, page: nat, ps: nat): seq<Byte> {
    s[Min(Start(page, ps), |s|)..Min(Start(page, ps) + ps, |s|)]
  }

  // s with the bytes d at position at; the file system's positional write.
  function Patch(s: seq<Byte>, at: nat, d: seq<Byte>): seq<Byte>
    requires at + |d| <= |s|
  {
    s[..at] + d + s[at + |d|..]
  }

  lemma {:induction false} PagesApart(p: nat, q: nat, ps: nat)
    requires p < q
    ensures Start(p, ps) + ps <= Start(q, ps)
    decreases q - p
  {
    if p + 1 < q { PagesApart(p + 1, q, ps); }
    assert (p + 1) * ps == p * ps + ps;
  }

  lemma {:induction false} PositionInPage(p: nat, ps: nat)
    requires ps > 0
    ensures Start(PageNo(p, ps), ps) <= p < Start(PageNo(p, ps), ps) + ps
  {
    assert p == p / ps * ps + p % ps;
  }

  lemma {:induction false} PageHoldsByte(s: seq<Byte>, p: nat, ps: nat)
    requires ps > 0 && p < |s|
    ensures var page, at := PageOf(s, PageNo(p, ps), ps), p - Start(PageNo(p, ps), ps);
            0 <= at < |page| && page[at] == s[p]
  {
    PositionInPage(p, ps);
    hide Start, PageNo;
  }

  lemma {:induction false} PageBytes(s: seq<Byte>, page: nat, ps: nat, skip: nat, n: nat)
    requires skip + n <= |PageOf(s, page, ps)|
    ensures n > 0 ==> Start(page, ps) + skip + n <= |s|
    ensures n > 0 ==> PageOf(s, page, ps)[skip..skip + n] == s[Start(page, ps) + skip..Start(page, ps) + skip + n]
  {
    hide Start;
  }

  // How many bytes at most n bytes from a position on are, within the file and its page.
  function OnePage(size: nat, n: nat, offset: nat, ps: nat): int
    requires ps > 0
  {
    if offset < size then Min(Min(n, size - offset), Start(PageNo(offset, ps), ps) + ps - offset) else 0
  }

  // A page ends at the next multiple of its size.
  lemma {:induction false} OnePageIs(size: nat, n: nat, offset: nat, ps: nat)
    requires ps > 0
    ensures OnePage(size, n, offset, ps) == if offset < size then Min(Min(n, size - offset), ps - offset % ps) else 0
  {
    assert offset == offset / ps * ps + offset % ps;
  }

  lemma {:induction false} OnePageHere(s: seq<Byte>, n: nat, offset: nat, ps: nat)
    requires ps > 0 && n > 0 && offset < |s|
    ensures var data, skip := PageOf(s, PageNo(offset, ps), ps), offset - Start(PageNo(offset, ps), ps);
            var here := Min(Min(n, |s| - offset), ps - skip);
            && 0 <= skip && 0 < here && skip + here <= |data| && here == OnePage(|s|, n, offset, ps)
            && data[skip..skip + here] == s[offset..offset + here]
  {
    PositionInPage(offset, ps);
    hide Start, PageNo;
    var page := PageNo(offset, ps);
    var skip := offset - Start(page, ps);
    var here := Min(Min(n, |s| - offset), ps - skip);
    assert |PageOf(s, page, ps)| == Min(Start(page, ps) + ps, |s|) - Start(page, ps);
    PageBytes(s, page, ps, skip, here);
  }

  lemma {:induction false} SamePagesSameBytes(a: seq<Byte>, b: seq<Byte>, ps: nat)
    requires ps > 0 && |a| == |b|
    requires forall page: nat :: PageOf(a, page, ps) == PageOf(b, page, ps)
    ensures a == b
  {
    hide Start, PageNo, PageOf;
    forall p: nat | p < |a| ensures a[p] == b[p] {
      PageHoldsByte(a, p, ps);
      PageHoldsByte(b, p, ps);
      assert PageOf(a, PageNo(p, ps), ps) == PageOf(b, PageNo(p, ps), ps);
    }
  }

  lemma {:induction false} PatchedPages(s: seq<Byte>, page: nat, ps: nat, d: seq<Byte>, q: nat)
    requires Start(page, ps) <= |s| && |d| == |PageOf(s, page, ps)|
    ensures Start(page, ps) + |d| <= |s|
    ensures var s' := Patch(s, Start(page, ps), d);
            |s'| == |s| && PageOf(s', q, ps) == if q == page then d else PageOf(s, q, ps)
  {
    hide Start, Patch;
    if q < page { PagesApart(q, page, ps); }
    if page < q { PagesApart(page, q, ps); }
    PatchElsewhere(s, Start(page, ps), d, Min(Start(q, ps), |s|), Min(Start(q, ps) + ps, |s|));
  }

  lemma {:induction false} PatchElsewhere(s: seq<Byte>, at: nat, d: seq<Byte>, lo: nat, hi: nat)
    requires at + |d| <= |s| && lo <= hi <= |s|
    ensures |Patch(s, at, d)| == |s| && Patch(s, at, d)[at..at + |d|] == d
    ensures hi <= at || at + |d| <= lo ==> Patch(s, at, d)[lo..hi] == s[lo..hi]
  {
    var s' := Patch(s, at, d);
    assert forall i | 0 <= i < at || at + |d| <= i < |s| :: s'[i] == s[i];
  }

  // A change within one page leaves every other page alone.
  lemma {:induction false} PatchInPage(s: seq<Byte>, page: nat, ps: nat, at: nat, d: seq<Byte>, q: nat)
    requires Start(page, ps) <= |s| && at + |d| <= |PageOf(s, page, ps)|
    ensures Start(page, ps) + at + |d| <= |s|
    ensures var s' := Patch(s, Start(page, ps) + at, d);
            && |s'| == |s|
            && PageOf(s', q, ps) == if q == page then Patch(PageOf(s, page, ps), at, d) else PageOf(s, q, ps)
  {
    hide Start;
    var was := PageOf(s, page, ps);
    PatchedPages(s, page, ps, Patch(was, at, d), q);
    PatchTwice(s, Start(page, ps), was, at, d);
  }

  lemma {:induction false} PatchTwice(s: seq<Byte>, base: nat, was: seq<Byte>, at: nat, d: seq<Byte>)
    requires base + |was| <= |s| && was == s[base..base + |was|] && at + |d| <= |was|
    ensures Patch(s, base, Patch(was, at, d)) == Patch(s, base + at, d)
  {
  }

  // An append completes the last page and leaves the pages before it alone.
  lemma {:induction false} AppendedPages(s: seq<Byte>, t: seq<Byte>, ps: nat, q: nat)
    requires ps > 0
    ensures var last := PageNo(|s|, ps);
            && Start(last, ps) <= |s| < Start(last, ps) + ps
            && (q < last ==> PageOf(s + t, q, ps) == PageOf(s, q, ps))
            && (q == last ==> PageOf(s + t, q, ps) == PageOf(s, q, ps) + t[..Min(Start(last, ps) + ps - |s|, |t|)])
  {
    var last := PageNo(|s|, ps);
    PositionInPage(|s|, ps);
    hide Start, PageNo;
    if q < last { PagesApart(q, last, ps); }
  }

  // -------------------------------------------------------------------------
  // The buffer's state

  datatype Key = Key(file: nat, page: nat)

  datatype Frame = Frame(data: seq<Byte>, size: nat, dirty: bool, users: nat)

  datatype Flags = Flags(read: bool, write: bool, append: bool, writeLock: bool)

  datatype File = File(path: string, size: nat, users: nat, flags: Flags)

  type Files = map<nat, File>
  type Frames = map<Key, Frame>
  type Disk = map<string, seq<Byte>>

  // `logical` is what the users of the files have written.
  ghost predicate ContentOk(ps: nat, files: Files, frames: Frames, disk: Disk, logical: Disk) {
    && ps > 0
    && disk.Keys == logical.Keys
    && (forall id | id in files :: FileOk(files[id], disk, logical))
    && (forall k | k in frames :: k.file in files && FrameOk(ps, files[k.file], k.page, frames[k], disk, logical))
    && (forall id, page: nat | id in files && Key(id, page) !in frames :: PageClean(ps, files[id], page, disk, logical))
    && (forall path | path in disk && !IsOpen(files, path) :: disk[path] == logical[path])
  }

  predicate IsOpen(files: Files, path: string) {
    exists id | id in files :: files[id].path == path
  }

  lemma {:induction false} StillOpen(files: Files, files': Files, path: string)
    requires forall id | id in files :: id in files' && files'[id].path == files[id].path
    ensures IsOpen(files, path) ==> IsOpen(files', path)
  {
    if id :| id in files && files[id].path == path {
      assert files'[id].path == path;
    }
  }

  lemma {:induction false} OthersStayOpen(files: Files, id: nat, path: string)
    requires id in files && path != files[id].path
    ensures IsOpen(files, path) ==> IsOpen(files - {id}, path)
  {
    if j :| j in files && files[j].path == path {
      assert (files - {id})[j].path == path;
    }
  }

  ghost predicate FileOk(f: File, disk: Disk, logical: Disk) {
    f.path in disk && f.path in logical && |disk[f.path]| == |logical[f.path]| == f.size
  }

  ghost predicate FrameOk(ps: nat, f: File, page: nat, fr: Frame, disk: Disk, logical: Disk) {
    && FileOk(f, disk, logical)
    && Start(page, ps) <= f.size && |fr.data| == ps && fr.size == Min(ps, f.size - Start(page, ps))
    && fr.data[..fr.size] == PageOf(logical[f.path], page, ps)
    && (!fr.dirty ==> PageClean(ps, f, page, disk, logical))
  }

  // The file itself holds the page's logical bytes.
  ghost predicate PageClean(ps: nat, f: File, page: nat, disk: Disk, logical: Disk) {
    FileOk(f, disk, logical) && PageOf(disk[f.path], page, ps) == PageOf(logical[f.path], page, ps)
  }

  // Distinct files have distinct paths.
  ghost predicate PathsApart(files: Files) {
    forall id, id' | id in files && id' in files && files[id].path == files[id'].path :: id == id'
  }

  // What the invariant says of one frame and one file.
  lemma {:induction false} FrameAt(ps: nat, files: Files, frames: Frames, disk: Disk, logical: Disk, k: Key)
    requires ContentOk(ps, files, frames, disk, logical) && k in frames
    ensures k.file in files && FrameOk(ps, files[k.file], k.page, frames[k], disk, logical)
  {
  }

  lemma {:induction false} FileAt(ps: nat, files: Files, frames: Frames, disk: Disk, logical: Disk, id: nat)
    requires ContentOk(ps, files, frames, disk, logical) && id in files
    ensures ps > 0 && FileOk(files[id], disk, logical)
  {
  }

  // These only look at the bytes of their own file.
  lemma {:induction false} SameBytes(ps: nat, f: File, page: nat, disk: Disk, logical: Disk, disk': Disk, logical': Disk)
    requires f.path in disk && f.path in logical && f.path in disk' && f.path in logical'
    requires disk'[f.path] == disk[f.path] && logical'[f.path] == logical[f.path]
    ensures FileOk(f, disk', logical') == FileOk(f, disk, logical)
    ensures PageClean(ps, f, page, disk', logical') == PageClean(ps, f, page, disk, logical)
  {
  }

  lemma {:induction false} SameFrame(ps: nat, f: File, page: nat, fr: Frame, disk: Disk, logical: Disk, disk': Disk, logical': Disk)
    requires FrameOk(ps, f, page, fr, disk, logical)
    requires f.path in disk && f.path in logical && f.path in disk' && f.path in logical'
    requires disk'[f.path] == disk[f.path] && logical'[f.path] == logical[f.path]
    ensures FrameOk(ps, f, page, fr, disk', logical')
  {
  }

  // -------------------------------------------------------------------------
  // The changes the buffer makes

  function FlushedFrame(fr: Frame): Frame {
    fr.(dirty := false)
  }

  function FlushedDisk(ps: nat, f: File, page: nat, fr: Frame, disk: Disk): Disk
    requires f.path in disk && Start(page, ps) + fr.size <= |disk[f.path]| && fr.size <= |fr.data|
  {
    disk[f.path := Patch(disk[f.path], Start(page, ps), fr.data[..fr.size])]
  }

  // Writing a frame back makes its page clean and touches no other page.
  lemma {:induction false} FlushKeeps(ps: nat, files: Files, frames: Frames, disk: Disk, logical: Disk, k: Key)
    requires ContentOk(ps, files, frames, disk, logical) && PathsApart(files) && k in frames
    ensures var f, fr := files[k.file], frames[k];
            && f.path in disk && Start(k.page, ps) + fr.size <= |disk[f.path]| && fr.size <= |fr.data|
            && ContentOk(ps, files, frames[k := FlushedFrame(fr)], FlushedDisk(ps, f, k.page, fr, disk), logical)
  {
    hide Patch, Start, PageNo;
    var f, fr := files[k.file], frames[k];
    assert FrameOk(ps, f, k.page, fr, disk, logical);
    PatchedPages(disk[f.path], k.page, ps, fr.data[..fr.size], 0);
    var disk' := FlushedDisk(ps, f, k.page, fr, disk);
    var frames' := frames[k := FlushedFrame(fr)];
    forall id | id in files ensures FileOk(files[id], disk', logical) {
      FlushedFile(ps, files, frames, disk, logical, k, id, 0);
    }
    forall j | j in frames' ensures FrameOk(ps, files[j.file], j.page, frames'[j], disk', logical) {
      assert FrameOk(ps, files[j.file], j.page, frames[j], disk, logical);
      FlushedFile(ps, files, frames, disk, logical, k, j.file, j.page);
    }
    forall id, page: nat | id in files && Key(id, page) !in frames'
      ensures PageClean(ps, files[id], page, disk', logical)
    {
      assert PageClean(ps, files[id], page, disk, logical);
      FlushedFile(ps, files, frames, disk, logical, k, id, page);
    }
  }

  lemma {:induction false} FlushedFile(ps: nat, files: Files, frames: Frames, disk: Disk, logical: Disk, k: Key, id: nat, page: nat)
    requires ContentOk(ps, files, frames, disk, logical) && PathsApart(files) && k in frames && id in files
    ensures var f, fr := files[k.file], frames[k];
            && f.path in disk && Start(k.page, ps) + fr.size <= |disk[f.path]| && fr.size <= |fr.data|
            && var disk' := FlushedDisk(ps, f, k.page, fr, disk);
            && FileOk(files[id], disk', logical)
            && (Key(id, page) == k || PageClean(ps, files[id], page, disk, logical)
                ==> PageClean(ps, files[id], page, disk', logical))
  {
    var f, fr := files[k.file], frames[k];
    assert FrameOk(ps, f, k.page, fr, disk, logical) && FileOk(files[id], disk, logical);
    PatchedPages(disk[f.path], k.page, ps, fr.data[..fr.size], page);
    if id != k.file { SameBytes(ps, files[id], page, disk, logical, FlushedDisk(ps, f, k.page, fr, disk), logical); }
  }

  // A clean frame can go.
  lemma {:induction false} EraseKeeps(ps: nat, files: Files, frames: Frames, disk: Disk, logical: Disk, k: Key)
    requires ContentOk(ps, files, frames, disk, logical) && k in frames && !frames[k].dirty
    ensures ContentOk(ps, files, frames - {k}, disk, logical)
  {
    assert FrameOk(ps, files[k.file], k.page, frames[k], disk, logical);
  }

  // A frame that was read from a page without one can come.
  lemma {:induction false} InsertKeeps(ps: nat, files: Files, frames: Frames, disk: Disk, logical: Disk, k: Key, fr: Frame)
    requires ContentOk(ps, files, frames, disk, logical) && k !in frames && k.file in files
    requires FileOk(files[k.file], disk, logical) && Start(k.page, ps) <= files[k.file].size
    requires |fr.data| == ps && fr.size == Min(ps, files[k.file].size - Start(k.page, ps))
    requires fr.data[..fr.size] == PageOf(disk[files[k.file].path], k.page, ps)
    ensures ContentOk(ps, files, frames[k := fr], disk, logical)
  {
    assert PageClean(ps, files[k.file], k.page, disk, logical);
  }

  // Pinning and unpinning does not matter for the contents.
  lemma {:induction false} UsersKeep(ps: nat, files: Files, frames: Frames, disk: Disk, logical: Disk, k: Key, n: nat)
    requires ContentOk(ps, files, frames, disk, logical) && k in frames
    ensures ContentOk(ps, files, frames[k := frames[k].(users := n)], disk, logical)
  {
    assert FrameOk(ps, files[k.file], k.page, frames[k], disk, logical);
  }

  // What of d, written at a position, lies within the file.
  function Clipped(l: seq<Byte>, pos: nat, d: seq<Byte>): seq<Byte> {
    if pos <= |l| then d[..Min(|d|, |l| - pos)] else []
  }

  // The bytes of a file after d was written at a position into a frame: what lies
  // beyond the end of the file stays in the frame's buffer.
  function Stored(l: seq<Byte>, pos: nat, d: seq<Byte>): seq<Byte> {
    if pos <= |l| then Patch(l, pos, Clipped(l, pos, d)) else l
  }

  function Updated(ps: nat, page: nat, l: seq<Byte>, at: nat, d: seq<Byte>): seq<Byte> {
    Stored(l, Start(page, ps) + at, d)
  }

  function UpdatedFrame(fr: Frame, at: nat, d: seq<Byte>): Frame {
    if at + |d| <= |fr.data| then fr.(data := Patch(fr.data, at, d), dirty := true) else fr
  }

  // A user changes bytes of a page through its frame and marks it as dirty.
  lemma {:induction false} UpdateKeeps(ps: nat, files: Files, frames: Frames, disk: Disk, logical: Disk, k: Key, at: nat, d: seq<Byte>)
    requires ContentOk(ps, files, frames, disk, logical) && PathsApart(files)
    requires k in frames && at + |d| <= ps
    ensures |frames[k].data| == ps
    ensures var path := files[k.file].path;
            && path in logical
            && ContentOk(ps, files, frames[k := UpdatedFrame(frames[k], at, d)], disk,
                         logical[path := Updated(ps, k.page, logical[path], at, d)])
  {
    hide PageOf, Patch, Start, Updated;
    var f := files[k.file];
    assert FrameOk(ps, f, k.page, frames[k], disk, logical);
    UpdatedPage(ps, f, disk, logical, k.page, frames[k], at, d, k.page);
    var logical' := logical[f.path := Updated(ps, k.page, logical[f.path], at, d)];
    Rewritten(files, disk, logical, k.file, logical'[f.path]);
    var frames' := frames[k := UpdatedFrame(frames[k], at, d)];
    forall j | j in frames' ensures FrameOk(ps, files[j.file], j.page, frames'[j], disk, logical') {
      if j != k { UpdateSpares(ps, files, frames, disk, logical, k, at, d, j.file, j.page); }
    }
    forall id, page: nat | id in files && Key(id, page) !in frames'
      ensures PageClean(ps, files[id], page, disk, logical')
    {
      UpdateSpares(ps, files, frames, disk, logical, k, at, d, id, page);
    }
  }

  lemma {:induction false} UpdatedPage(
    ps: nat, f: File, disk: Disk, logical: Disk, page: nat, fr: Frame, at: nat, d: seq<Byte>, q: nat)
    requires FrameOk(ps, f, page, fr, disk, logical) && at + |d| <= ps
    ensures |Updated(ps, page, logical[f.path], at, d)| == f.size
    ensures var logical' := logical[f.path := Updated(ps, page, logical[f.path], at, d)];
            && FrameOk(ps, f, page, UpdatedFrame(fr, at, d), disk, logical')
            && (q != page ==> PageOf(logical'[f.path], q, ps) == PageOf(logical[f.path], q, ps))
  {
    hide PageOf, Start, Patch;
    var l := logical[f.path];
    UpdatedData(fr.data, fr.size, at, d);
    if at <= fr.size {
      var c := d[..Min(|d|, fr.size - at)];
      assert c == Clipped(l, Start(page, ps) + at, d);
      PatchInPage(l, page, ps, at, c, page);
      PatchInPage(l, page, ps, at, c, q);
    }
  }

  // Only the part of the buffer that stands for the file matters.
  lemma {:induction false} UpdatedData(data: seq<Byte>, size: nat, at: nat, d: seq<Byte>)
    requires size <= |data| && at + |d| <= |data|
    ensures |Patch(data, at, d)| == |data|
    ensures Patch(data, at, d)[..size] == if at <= size then Patch(data[..size], at, d[..Min(|d|, size - at)]) else data[..size]
  {
  }

  // Every other frame and every other page stays as good as it was.
  lemma {:induction false} UpdateSpares(
    ps: nat, files: Files, frames: Frames, disk: Disk, logical: Disk, k: Key, at: nat, d: seq<Byte>, id: nat, page: nat)
    requires ContentOk(ps, files, frames, disk, logical) && PathsApart(files)
    requires k in frames && at + |d| <= ps && id in files && Key(id, page) != k
    ensures var path := files[k.file].path;
            && path in logical
            && var logical' := logical[path := Updated(ps, k.page, logical[path], at, d)];
            && (Key(id, page) in frames ==> FrameOk(ps, files[id], page, frames[Key(id, page)], disk, logical'))
            && (Key(id, page) !in frames ==> PageClean(ps, files[id], page, disk, logical'))
  {
    hide Updated;
    var f := files[k.file];
    assert FrameOk(ps, f, k.page, frames[k], disk, logical) && FileOk(files[id], disk, logical);
    UpdatedPage(ps, f, disk, logical, k.page, frames[k], at, d, page);
    if id != k.file {
      SameBytes(ps, files[id], page, disk, logical, disk, logical[f.path := Updated(ps, k.page, logical[f.path], at, d)]);
    }
    if Key(id, page) in frames {
      FrameAt(ps, files, frames, disk, logical, Key(id, page));
      if id != k.file {
        SameFrame(ps, files[id], page, frames[Key(id, page)], disk, logical, disk, logical[f.path := Updated(ps, k.page, logical[f.path], at, d)]);
      }
    } else {
      assert PageClean(ps, files[id], page, disk, logical);
    }
  }

  // New bytes of the same length in an open file.
  lemma {:induction false} Rewritten(files: Files, disk: Disk, logical: Disk, id: nat, l: seq<Byte>)
    requires disk.Keys == logical.Keys && id in files && (forall j | j in files :: FileOk(files[j], disk, logical))
    requires forall path | path in disk && !IsOpen(files, path) :: disk[path] == logical[path]
    requires |l| == files[id].size
    ensures var logical' := logical[files[id].path := l];
            && disk.Keys == logical'.Keys
            && (forall j | j in files :: FileOk(files[j], disk, logical'))
            && (forall path | path in disk && !IsOpen(files, path) :: disk[path] == logical'[path])
  {
    var logical' := logical[files[id].path := l];
    assert FileOk(files[id], disk, logical) && IsOpen(files, files[id].path);
    forall j | j in files ensures FileOk(files[j], disk, logical') {
      assert FileOk(files[j], disk, logical);
    }
  }

  // The frame of the last page after an append: resized, and completed in place.
  function Extended(ps: nat, size: nat, fr: Frame, t: seq<Byte>): Frame
    requires ps > 0 && |fr.data| == ps
  {
    var bytes := size - Start(PageNo(size, ps), ps);
    var here := Min(ps - bytes, |t|);
    PositionInPage(size, ps);
    fr.(size := bytes + here, data := Patch(fr.data, bytes, t[..here]))
  }

  function AppendedFrames(ps: nat, id: nat, size: nat, frames: Frames, t: seq<Byte>): (r: Frames)
    requires ps > 0 && (forall k | k in frames :: |frames[k].data| == ps)
    ensures r.Keys == frames.Keys
  {
    var last := Key(id, PageNo(size, ps));
    if last in frames then frames[last := Extended(ps, size, frames[last], t)] else frames
  }

  lemma {:induction false} AppendKeeps(ps: nat, files: Files, frames: Frames, disk: Disk, logical: Disk, id: nat, t: seq<Byte>)
    requires ContentOk(ps, files, frames, disk, logical) && PathsApart(files) && id in files
    ensures forall k | k in frames :: |frames[k].data| == ps
    ensures var f := files[id];
            && f.path in disk && f.path in logical
            && ContentOk(ps, files[id := f.(size := f.size + |t|)], AppendedFrames(ps, id, f.size, frames, t),
                         disk[f.path := disk[f.path] + t], logical[f.path := logical[f.path] + t])
  {
    hide PageOf, Patch, Start, PageNo, AppendedFrames, FileOk, FrameOk, PageClean;
    var f := files[id];
    FramesAreFull(ps, files, frames, disk, logical);
    AppendedFile(ps, files, frames, disk, logical, id, t, id, 0);
    var files' := files[id := f.(size := f.size + |t|)];
    var frames' := AppendedFrames(ps, id, f.size, frames, t);
    var disk' := disk[f.path := disk[f.path] + t];
    var logical' := logical[f.path := logical[f.path] + t];
    forall j | j in files' ensures FileOk(files'[j], disk', logical') {
      AppendedFile(ps, files, frames, disk, logical, id, t, j, 0);
    }
    forall k | k in frames' ensures k.file in files' && FrameOk(ps, files'[k.file], k.page, frames'[k], disk', logical') {
      AppendedFrameOk(ps, files, frames, disk, logical, id, t, k);
    }
    forall j, page: nat | j in files' && Key(j, page) !in frames'
      ensures PageClean(ps, files'[j], page, disk', logical')
    {
      AppendedFile(ps, files, frames, disk, logical, id, t, j, page);
    }
    forall path | path in disk' && !IsOpen(files', path) ensures disk'[path] == logical'[path] {
      StillOpen(files, files', path);
    }
  }

  lemma {:induction false} FramesAreFull(ps: nat, files: Files, frames: Frames, disk: Disk, logical: Disk)
    requires ContentOk(ps, files, frames, disk, logical)
    ensures forall k | k in frames :: |frames[k].data| == ps
  {
    forall k | k in frames ensures |frames[k].data| == ps {
      assert FrameOk(ps, files[k.file], k.page, frames[k], disk, logical);
    }
  }

  lemma {:induction false} AppendedFile(
    ps: nat, files: Files, frames: Frames, disk: Disk, logical: Disk, id: nat, t: seq<Byte>, j: nat, page: nat)
    requires ContentOk(ps, files, frames, disk, logical) && PathsApart(files) && id in files && j in files
    ensures var f := files[id];
            && f.path in disk && f.path in logical
            && var files', disk', logical' :=
                 files[id := f.(size := f.size + |t|)], disk[f.path := disk[f.path] + t], logical[f.path := logical[f.path] + t];
            && FileOk(files'[j], disk', logical')
            && (PageClean(ps, files[j], page, disk, logical) ==> PageClean(ps, files'[j], page, disk', logical'))
  {
    FileAt(ps, files, frames, disk, logical, id);
    FileAt(ps, files, frames, disk, logical, j);
    hide ContentOk, PageOf;
    var f := files[id];
    if j == id && PageClean(ps, f, page, disk, logical) { AppendedClean(ps, disk[f.path], logical[f.path], t, page); }
  }

  // An append to both sides keeps a clean page clean.
  lemma {:induction false} AppendedClean(ps: nat, d: seq<Byte>, l: seq<Byte>, t: seq<Byte>, page: nat)
    requires ps > 0 && |d| == |l| && PageOf(d, page, ps) == PageOf(l, page, ps)
    ensures PageOf(d + t, page, ps) == PageOf(l + t, page, ps)
  {
    hide Start, PageNo;
    AppendedPages(d, t, ps, page);
    AppendedPages(l, t, ps, page);
    var last := PageNo(|d|, ps);
    if page > last { PagesApart(last, page, ps); }
  }

  lemma {:induction false} AppendedFrameOk(ps: nat, files: Files, frames: Frames, disk: Disk, logical: Disk, id: nat, t: seq<Byte>, k: Key)
    requires ContentOk(ps, files, frames, disk, logical) && PathsApart(files) && id in files && k in frames
    requires forall j | j in frames :: |frames[j].data| == ps
    requires files[id].path in disk && files[id].path in logical
    ensures var f := files[id];
            var files' := files[id := f.(size := f.size + |t|)];
            k.file in files' &&
            FrameOk(ps, files'[k.file], k.page, AppendedFrames(ps, id, f.size, frames, t)[k],
                    disk[f.path := disk[f.path] + t], logical[f.path := logical[f.path] + t])
  {
    FrameAt(ps, files, frames, disk, logical, k);
    hide ContentOk, PageOf, Patch, Start, PageNo, Extended, FrameOk, PageClean;
    var f := files[id];
    if k.file == id {
      AppendedOwnFrame(ps, f, k.page, frames[k], disk, logical, t);
    } else {
      var g := files[k.file];
      FileAt(ps, files, frames, disk, logical, k.file);
      SameFrame(ps, g, k.page, frames[k], disk, logical, disk[f.path := disk[f.path] + t], logical[f.path := logical[f.path] + t]);
    }
  }

  lemma {:induction false} AppendedOwnFrame(ps: nat, f: File, page: nat, fr: Frame, disk: Disk, logical: Disk, t: seq<Byte>)
    requires ps > 0 && FrameOk(ps, f, page, fr, disk, logical)
    ensures var fr' := if page == PageNo(f.size, ps) then Extended(ps, f.size, fr, t) else fr;
            FrameOk(ps, f.(size := f.size + |t|), page, fr', disk[f.path := disk[f.path] + t], logical[f.path := logical[f.path] + t])
  {
    hide PageOf, Patch, Start, PageNo, Extended;
    AppendedPage(ps, f.size, page, fr, disk[f.path], logical[f.path], t);
  }

  // The frames of the file itself: only that of the last page changes.
  lemma {:induction false} AppendedPage(ps: nat, size: nat, page: nat, fr: Frame, d: seq<Byte>, l: seq<Byte>, t: seq<Byte>)
    requires ps > 0 && |d| == |l| == size && Start(page, ps) <= size && |fr.data| == ps
    requires fr.size == Min(ps, size - Start(page, ps)) && fr.data[..fr.size] == PageOf(l, page, ps)
    requires !fr.dirty ==> PageOf(d, page, ps) == PageOf(l, page, ps)
    ensures var fr' := if page == PageNo(size, ps) then Extended(ps, size, fr, t) else fr;
            && fr'.dirty == fr.dirty && |fr'.data| == ps
            && fr'.size == Min(ps, size + |t| - Start(page, ps)) && fr'.data[..fr'.size] == PageOf(l + t, page, ps)
            && (!fr.dirty ==> PageOf(d + t, page, ps) == PageOf(l + t, page, ps))
  {
    hide Start, PageNo;
    var last := PageNo(size, ps);
    PositionInPage(size, ps);
    if page > last { PagesApart(last, page, ps); }
    if page < last { PagesApart(page, last, ps); }
    AppendedPages(l, t, ps, page);
    if !fr.dirty { AppendedClean(ps, d, l, t, page); }
    if page == last { ExtendedHolds(ps, size, fr, l, t); }
  }

  lemma {:induction false} ExtendedHolds(ps: nat, size: nat, fr: Frame, l: seq<Byte>, t: seq<Byte>)
    requires ps > 0 && |fr.data| == ps && |l| == size
    requires fr.size == Min(ps, size - Start(PageNo(size, ps), ps)) && fr.data[..fr.size] == PageOf(l, PageNo(size, ps), ps)
    ensures var e := Extended(ps, size, fr, t);
            && |e.data| == ps
            && e.size == Min(ps, size + |t| - Start(PageNo(size, ps), ps))
            && e.data[..e.size] == PageOf(l + t, PageNo(size, ps), ps)
  {
    hide Start, PageNo;
    PositionInPage(size, ps);
    AppendedPages(l, t, ps, PageNo(size, ps));
  }

  // The file system changes a file that is not open.
  lemma {:induction false} FoundKeeps(ps: nat, files: Files, frames: Frames, disk: Disk, logical: Disk, path: string, found: seq<Byte>)
    requires ContentOk(ps, files, frames, disk, logical) && !IsOpen(files, path)
    ensures ContentOk(ps, files, frames, disk[path := found], logical[path := found])
  {
    hide PageOf, PageClean, FileOk, FrameOk;
    var disk', logical' := disk[path := found], logical[path := found];
    assert disk'.Keys == disk.Keys + {path} == logical'.Keys;
    forall id | id in files ensures FileOk(files[id], disk', logical') {
      FoundElsewhere(ps, files, frames, disk, logical, path, found, id, 0);
    }
    forall k | k in frames ensures k.file in files && FrameOk(ps, files[k.file], k.page, frames[k], disk', logical') {
      FoundElsewhere(ps, files, frames, disk, logical, path, found, k.file, k.page);
    }
    forall id, page: nat | id in files && Key(id, page) !in frames ensures PageClean(ps, files[id], page, disk', logical') {
      FoundElsewhere(ps, files, frames, disk, logical, path, found, id, page);
    }
  }

  lemma {:induction false} FoundElsewhere(
    ps: nat, files: Files, frames: Frames, disk: Disk, logical: Disk, path: string, found: seq<Byte>, id: nat, page: nat)
    requires ContentOk(ps, files, frames, disk, logical) && !IsOpen(files, path) && id in files
    ensures var disk', logical' := disk[path := found], logical[path := found];
            && FileOk(files[id], disk', logical')
            && (Key(id, page) in frames ==> FrameOk(ps, files[id], page, frames[Key(id, page)], disk', logical'))
            && (Key(id, page) !in frames ==> PageClean(ps, files[id], page, disk', logical'))
  {
    var f := files[id];
    FileAt(ps, files, frames, disk, logical, id);
    if Key(id, page) in frames {
      FrameAt(ps, files, frames, disk, logical, Key(id, page));
      SameFrame(ps, f, page, frames[Key(id, page)], disk, logical, disk[path := found], logical[path := found]);
    }
    assert f.path != path;
    SameBytes(ps, f, page, disk, logical, disk[path := found], logical[path := found]);
  }

  // A file is opened or closed; a closed file has no frames and is clean.
  lemma {:induction false} OpenKeeps(ps: nat, files: Files, frames: Frames, disk: Disk, logical: Disk, id: nat, f: File)
    requires ContentOk(ps, files, frames, disk, logical) && id !in files && f.path in disk && f.size == |disk[f.path]|
    requires !IsOpen(files, f.path)
    ensures ContentOk(ps, files[id := f], frames, disk, logical)
  {
    var files' := files[id := f];
    assert FileOk(f, disk, logical);
    forall path | path in disk && !IsOpen(files', path) ensures disk[path] == logical[path] {
      StillOpen(files, files', path);
    }
  }

  lemma {:induction false} CloseKeeps(ps: nat, files: Files, frames: Frames, disk: Disk, logical: Disk, id: nat)
    requires ContentOk(ps, files, frames, disk, logical) && id in files
    requires forall k | k in frames :: k.file != id
    ensures ContentOk(ps, files - {id}, frames, disk, logical)
    ensures files[id].path in disk && files[id].path in logical && disk[files[id].path] == logical[files[id].path]
  {
    hide PageOf;
    var f := files[id];
    assert FileOk(f, disk, logical);
    forall page: nat ensures PageOf(disk[f.path], page, ps) == PageOf(logical[f.path], page, ps) {
      assert PageClean(ps, f, page, disk, logical);
    }
    SamePagesSameBytes(disk[f.path], logical[f.path], ps);
    forall path | path in disk && !IsOpen(files - {id}, path) ensures disk[path] == logical[path] {
      if path != f.path { OthersStayOpen(files, id, path); }
    }
  }

  lemma {:induction false} RefsKeep(ps: nat, files: Files, frames: Frames, disk: Disk, logical: Disk, id: nat, n: nat)
    requires ContentOk(ps, files, frames, disk, logical) && id in files
    ensures ContentOk(ps, files[id := files[id].(users := n)], frames, disk, logical)
  {
    var files' := files[id := files[id].(users := n)];
    forall k | k in frames ensures k.file in files' && FrameOk(ps, files'[k.file], k.page, frames[k], disk, logical) {
      assert FrameOk(ps, files[k.file], k.page, frames[k], disk, logical);
    }
    forall j, page: nat | j in files' && Key(j, page) !in frames ensures PageClean(ps, files'[j], page, disk, logical) {
      assert PageClean(ps, files[j], page, disk, logical);
    }
    forall j | j in files' ensures FileOk(files'[j], disk, logical) {
      assert FileOk(files[j], disk, logical);
    }
    forall path | path in disk && !IsOpen(files', path) ensures disk[path] == logical[path] {
      StillOpen(files, files', path);
    }
  }
}
