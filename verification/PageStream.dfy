/** The input stream over a file of the page buffer: a get area on one fixed page
    that moves on page by page up to the end of a slice. */
module PageStream {
  import opened Numbers
  import opened Wrappers
  import opened PageSpec
  import opened PageQueues
  import opened PageBuffer

  const TWO64 := 0x1_0000_0000_0000_0000

  class InputFileStream {
    const pages: FilePageBuffer
    const file: nat
    var key: Key          // the page that is fixed
    var at: nat           // the get area [at, end) of that page
    var end: nat
    var dataEnd: nat      // where the slice ends in the file
    var nextPage: nat

    // The stream has a page of its file fixed.
    ghost predicate Attached()
      reads this, pages
    {
      && pages.Valid() && pages.ps > 0 && file in pages.files
      && pages.files[file].path in pages.logical
      && |pages.logical[pages.files[file].path]| == pages.files[file].size < TWO64
      && dataEnd <= pages.files[file].size
      && key.file == file && key in pages.frames && pages.frames[key].users > 0
    }

    // The bytes of the file.
    ghost function Bytes(): seq<Byte>
      requires Attached()
      reads this, pages
    {
      pages.logical[pages.files[file].path]
    }

    // The position of the next byte in the file.
    ghost function Pos(): nat
      reads this
    {
      Start(key.page, pages.ps) + at
    }

    // The get area ends with its page or with the slice; `nextPage` follows the page
    // unless the slice is over.
    ghost predicate Valid()
      reads this, pages
    {
      && Attached()
      && Start(key.page, pages.ps) <= dataEnd
      && end == Min(|PageOf(Bytes(), key.page, pages.ps)|, dataEnd - Start(key.page, pages.ps))
      && at <= end && Pos() <= dataEnd
      && nextPage > key.page
      && (nextPage > key.page + 1 ==> Pos() == dataEnd)
    }

    // A stream over a file that the caller has opened for reading.
    constructor (buffer: FilePageBuffer, id: nat)
      requires buffer.Valid() && buffer.ps > 0 && id in buffer.files && buffer.files[id].size < TWO64
      modifies buffer`frames, buffer`fifo, buffer`lru, buffer`disk, buffer`hist, buffer`clock
      ensures Valid() && pages == buffer && file == id && Pos() == 0 && dataEnd == buffer.files[id].size
    {
      pages, file, key, nextPage := buffer, id, Key(id, 0), 1;
      at, end, dataEnd := 0, 0, buffer.files[id].size;
      new;
      FixFirst();
    }

    method FixFirst()
      requires pages.Valid() && pages.ps > 0 && file in pages.files
      requires at == 0 && key == Key(file, 0) && nextPage == 1 && dataEnd == pages.files[file].size < TWO64
      modifies this`end, pages`frames, pages`fifo, pages`lru, pages`disk, pages`hist, pages`clock
      ensures Valid() && Pos() == 0
    {
      hide ContentOk, DirOk, QueuesOk, FixEffect, OneMorePin, PageOf, FrameOk, Start, PageNo;
      FileAt(pages.ps, pages.files, pages.frames, pages.disk, pages.logical, file);
      FirstPage(pages.logical[pages.files[file].path], pages.ps);
      pages.FixPage(file, 0);
      end := pages.frames[key].size;
      assert Attached();
    }

    static lemma {:induction false} FirstPage(s: seq<Byte>, ps: nat)
      ensures Start(0, ps) == 0 && |PageOf(s, 0, ps)| == Min(ps, |s|)
    {
    }

    lemma {:induction false} AreaHolds()
      requires Valid()
      ensures at <= end <= |pages.frames[key].data|
      ensures Pos() + (end - at) <= |Bytes()|
      ensures pages.frames[key].data[at..end] == Bytes()[Pos()..Pos() + (end - at)]
    {
      hide ContentOk, DirOk, QueuesOk, Start, PageNo;
      FrameAt(pages.ps, pages.files, pages.frames, pages.disk, pages.logical, key);
      PageBytes(Bytes(), key.page, pages.ps, at, end - at);
      var fr := pages.frames[key];
      assert fr.data[..fr.size][at..end] == fr.data[at..end];
    }

    // An empty get area within the slice means that the page is used up.
    lemma {:induction false} AreaUsedUp()
      requires Valid() && at == end
      ensures Pos() == dataEnd || (nextPage == key.page + 1 && Pos() == Start(nextPage, pages.ps))
      ensures Start(nextPage, pages.ps) >= Pos()
    {
      hide ContentOk, DirOk, QueuesOk, FrameOk;
      assert Start(key.page + 1, pages.ps) == Start(key.page, pages.ps) + pages.ps;
      if nextPage > key.page + 1 { PagesApart(key.page + 1, nextPage, pages.ps); }
    }

    method NextPage() returns (more: bool)
      requires Attached()
      modifies this`key, this`at, this`end, this`nextPage
      modifies pages`frames, pages`fifo, pages`lru, pages`disk, pages`hist, pages`clock
      ensures Attached() && nextPage == old(nextPage) + 1
      ensures more <==> Start(old(nextPage), pages.ps) < dataEnd
      ensures !more ==> key == old(key) && at == old(at) && end == old(end)
      ensures more ==>
                && key == Key(file, old(nextPage)) && at == 0
                && end == Min(|PageOf(Bytes(), key.page, pages.ps)|, dataEnd - Start(key.page, pages.ps))
    {
      hide ContentOk, DirOk, QueuesOk, FrameOk, FixEffect, OneMorePin, Start, PageOf;
      var page := nextPage;
      nextPage := nextPage + 1;
      if Start(page, pages.ps) >= dataEnd {
        return false;
      }
      pages.ReleasePage(key);
      pages.FixPage(file, page);
      key, at := Key(file, page), 0;
      var size := pages.frames[key].size;
      end := Min(size, dataEnd - Start(page, pages.ps));
      return true;
    }

    function GetPosition(): nat
      requires nextPage > 0
      reads this
    {
      Start(nextPage - 1, pages.ps) + at
    }

    // Reads up to the number of bytes wanted, and fewer only at the end of the slice.
    // The last byte read stays behind the position in the get area.
    method Xsgetn(want: nat) returns (out: seq<Byte>)
      requires Valid()
      modifies this`key, this`at, this`end, this`nextPage
      modifies pages`frames, pages`fifo, pages`lru, pages`disk, pages`hist, pages`clock
      ensures Valid()
      ensures Pos() == Min(old(Pos()) + want, dataEnd)
      ensures out == Bytes()[old(Pos())..Pos()]
      ensures out != [] ==> at > 0
    {
      hide Valid, Attached, ContentOk, DirOk, QueuesOk, Start, Minus64;
      ghost var from := Pos();
      Within();
      var left := Min(want, Minus64(pages.files[file].size, GetPosition()));
      ghost var most := left;
      out := [];
      while left > 0
        invariant Valid() && Attached() && Pos() <= dataEnd <= |Bytes()| && left == most - |out| >= 0
        invariant Pos() == from + |out| && out == Bytes()[from..Pos()]
        invariant out != [] ==> at > 0
        decreases left
      {
        var more := Fill();
        if !more {
          break;
        }
        var m := Min(end - at, left);
        var bytes := Take(m);
        out := out + bytes;
        left := left - m;
      }
    }

    lemma {:induction false} Within()
      requires Valid()
      ensures Attached() && Pos() <= dataEnd <= |Bytes()| < TWO64 && |Bytes()| == pages.files[file].size
      ensures nextPage > 0 && file in pages.files
      ensures Pos() == dataEnd || Minus64(pages.files[file].size, GetPosition()) == |Bytes()| - Pos()
    {
      hide ContentOk, DirOk, QueuesOk, FrameOk, Start, PageOf;
    }

    // A difference of 64-bit unsigned numbers.
    static function Minus64(a: nat, b: nat): nat {
      (a - b) % TWO64
    }

    // gptr() < egptr() || NextPage()
    method Fill() returns (more: bool)
      requires Valid()
      modifies this`key, this`at, this`end, this`nextPage
      modifies pages`frames, pages`fifo, pages`lru, pages`disk, pages`hist, pages`clock
      ensures Valid() && Attached() && Pos() == old(Pos())
      ensures more <==> at < end
      ensures !more ==> Pos() == dataEnd && at == old(at)
    {
      hide ContentOk, DirOk, QueuesOk, FrameOk, Start, PageOf;
      if at < end {
        return true;
      }
      AreaUsedUp();
      more := NextPage();
      if more { NotEmpty(); }
    }

    // The next bytes of the get area.
    method Take(m: nat) returns (bytes: seq<Byte>)
      requires Valid() && at + m <= end
      modifies this`at
      ensures Valid() && Attached() && Pos() == old(Pos()) + m <= dataEnd <= |Bytes()|
      ensures |bytes| == m && bytes == Bytes()[old(Pos())..Pos()] && at == old(at) + m
    {
      hide ContentOk, DirOk, QueuesOk, FrameOk, Start, PageOf;
      AreaHolds();
      bytes := pages.frames[key].data[at..at + m];
      assert bytes == pages.frames[key].data[at..end][..m];
      at := at + m;
    }

    lemma {:induction false} NotEmpty()
      requires Attached() && Start(key.page, pages.ps) + at < dataEnd
      requires end == Min(|PageOf(Bytes(), key.page, pages.ps)|, dataEnd - Start(key.page, pages.ps))
      requires at == 0 || at < end
      ensures at < end
    {
      hide ContentOk, DirOk, QueuesOk, FrameOk;
    }

    // Where a slice begins and ends; size 0 stands for the rest of the file.
    function SliceBegin(offset: nat, fileSize: nat): nat {
      Min(fileSize, offset)
    }

    function SliceEnd(offset: nat, size: nat, fileSize: nat): nat {
      var begin := SliceBegin(offset, fileSize);
      begin + if size == 0 then fileSize - begin else Min(fileSize - begin, size)
    }

    // A slice that begins at the end of a file of whole pages.
    ghost predicate NoPageAt(offset: nat)
      requires Attached()
      reads this, pages
    {
      offset >= |Bytes()| && Start(PageNo(|Bytes()|, pages.ps), pages.ps) == |Bytes()|
    }

    // The get area moves to the slice, except that a slice without a page leaves the
    // old get area in place: what was left of it is delivered as if it were the slice.
    method Slice(offset: nat, size: nat)
      requires Attached()
      modifies this`key, this`at, this`end, this`nextPage, this`dataEnd
      modifies pages`frames, pages`fifo, pages`lru, pages`disk, pages`hist, pages`clock
      ensures Attached() && Bytes() == old(Bytes())
      ensures dataEnd == if size > 0 && offset + size <= |Bytes()| then offset + size else |Bytes()|
      ensures !NoPageAt(offset) ==> Valid() && Pos() == if offset <= |Bytes()| then offset else |Bytes()|
      ensures NoPageAt(offset) ==>
                && key == old(key) && at == old(at) && end == old(end)
                && dataEnd == |Bytes()| && nextPage == PageNo(|Bytes()|, pages.ps) + 1
    {
      hide ContentOk, DirOk, QueuesOk, FrameOk, Start, PageNo;
      var fileSize := pages.files[file].size;
      var begin := SliceBegin(offset, fileSize);
      PositionInPage(begin, pages.ps);
      var page := PageNo(begin, pages.ps);
      nextPage := page;
      dataEnd := SliceEnd(offset, size, fileSize);
      var _ := NextPage();
      at := at + (begin - Start(page, pages.ps));
    }

    // Reading a slice in one go gives the bytes of the file from its offset on, as many as
    // are wanted, up to the end of the slice: after `size` bytes, or with the file.
    method ReadSlice(offset: nat, size: nat, want: nat) returns (out: seq<Byte>)
      requires Attached() && !NoPageAt(offset) && offset <= |Bytes()|
      modifies this`key, this`at, this`end, this`nextPage, this`dataEnd
      modifies pages`frames, pages`fifo, pages`lru, pages`disk, pages`hist, pages`clock
      ensures Valid() && Bytes() == old(Bytes())
      ensures var left := |Bytes()| - offset;
              var most := if size > 0 && size <= left then size else left;
              out == Bytes()[offset..offset + if want <= most then want else most]
    {
      hide Valid, ContentOk, DirOk, QueuesOk, FrameOk, Start, PageNo;
      ghost var bytes := Bytes();
      Slice(offset, size);
      out := Xsgetn(want);
      assert Attached() && Bytes() == bytes by { Within(); }
    }

    // sbumpc: the next byte, or None at the end of the slice. The byte is taken only
    // when the get area still has one; after a change of pages it is delivered again
    // by the next call, for `uflow` forgets to advance.
    method Sbumpc() returns (b: Option<Byte>)
      requires Valid()
      modifies this`key, this`at, this`end, this`nextPage
      modifies pages`frames, pages`fifo, pages`lru, pages`disk, pages`hist, pages`clock
      ensures Valid()
      ensures b == if old(Pos()) < dataEnd then Some(Bytes()[old(Pos())]) else None
      ensures Pos() == if old(at) < old(end) then old(Pos()) + 1 else old(Pos())
      ensures b.Some? && old(at) == old(end) ==> at < end
    {
      hide ContentOk, DirOk, QueuesOk, FrameOk, Start, PageOf;
      if at < end {
        var bytes := Take(1);
        return Some(bytes[0]);
      }
      var more := Fill();
      if !more {
        return None;
      }
      AreaHolds();
      assert pages.frames[key].data[at..end][0] == Bytes()[Pos()];
      return Some(pages.frames[key].data[at]);
    }
  }

  // The failing state occurs in every file of more than one page: once the first page
  // is read, the first byte of the second page is delivered twice.
  method FirstByteTwice(buffer: FilePageBuffer, id: nat) returns (first: Option<Byte>, second: Option<Byte>)
    requires buffer.Valid() && 0 < buffer.ps && id in buffer.files
    requires buffer.ps < buffer.files[id].size < TWO64
    modifies buffer`frames, buffer`fifo, buffer`lru, buffer`disk, buffer`hist, buffer`clock
    ensures buffer.files[id].path in buffer.logical && buffer.ps < |buffer.logical[buffer.files[id].path]|
    ensures first == second == Some(buffer.logical[buffer.files[id].path][buffer.ps])
  {
    hide ContentOk, DirOk, QueuesOk, FrameOk;
    var stream := new InputFileStream(buffer, id);
    var page := stream.Xsgetn(buffer.ps);
    assert stream.key.page == 0 && stream.at == stream.end by {
      if stream.key.page > 0 { PagesApart(0, stream.key.page, buffer.ps); }
    }
    first := stream.Sbumpc();
    assert stream.Pos() == buffer.ps;
    second := stream.Sbumpc();
  }
}
