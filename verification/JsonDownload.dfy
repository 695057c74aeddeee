/** The collector of a downloaded document as the firmware runs it: a buffer on the heap that
    is allocated, grown and written to by the callback of the HTTP client. */
module JsonDownload {
  import opened Common
  import opened Download

  class DownloadInfo {
    var isError: bool
    var respCode: nat
    var jsonBuf: array?<bv8>
    var jsonBufSize: u32

    constructor ()
      ensures View() == START
    {
      isError, respCode, jsonBuf, jsonBufSize := false, OKAY, null, 0;
    }

    function View(): Info
      reads this, jsonBuf
    {
      Info(isError, respCode, if jsonBuf == null then None else Some(jsonBuf[..]), jsonBufSize)
    }

    ghost predicate Valid()
      reads this, jsonBuf
    {
      Wf(View())
    }

    method AllocateBuffer(part: Part, contentLength: u32)
      requires jsonBuf == null && !isError
      modifies this
      ensures View() == Allocate(old(View()), part, contentLength)
      ensures jsonBuf != null ==> fresh(jsonBuf)
    {
      if contentLength == 0 {
        jsonBufSize := AddU32(|part.data|, 1);
      } else {
        jsonBufSize := AddU32(contentLength, 1);
      }
      if Allocates(jsonBufSize, part.allocOk) {
        jsonBuf := new bv8[jsonBufSize](_ => 0);
        assert jsonBuf[..] == Filled(jsonBufSize, 0);
      } else {
        isError := true;
      }
    }

    /** A failed reallocation frees the buffer. */
    method GrowBuffer(part: Part)
      requires Valid() && jsonBuf != null && !isError
      modifies this
      ensures View() == Grow(old(View()), part)
      ensures jsonBuf != null ==> fresh(jsonBuf)
    {
      var was := jsonBuf;
      jsonBufSize := AddU32(jsonBufSize, |part.data|);
      if Allocates(jsonBufSize, part.allocOk) && jsonBufSize >= was.Length {
        var grown := new bv8[jsonBufSize](_ => part.junk);
        forall i | 0 <= i < was.Length {
          grown[i] := was[i];
        }
        jsonBuf := grown;
        assert jsonBuf[..] == old(jsonBuf[..]) + Filled(jsonBufSize - was.Length, part.junk);
      } else {
        isError, jsonBuf := true, null;
      }
    }

    /** Copies a part and the terminating NUL; what would not fit is an error. */
    method StorePart(part: Part, offset: u32)
      requires Valid() && jsonBuf != null && !isError
      modifies this, jsonBuf
      ensures View() == Store(old(View()), part, offset)
      ensures jsonBuf == null || jsonBuf == old(jsonBuf)
    {
      if offset >= jsonBufSize || AddU32(offset, |part.data|) >= jsonBufSize {
        isError, jsonBuf := true, null;
        return;
      }
      AddNoWrap(offset, |part.data|);
      forall i | 0 <= i < |part.data| {
        jsonBuf[offset + i] := part.data[i];
      }
      jsonBuf[offset + |part.data|] := 0;
      assert jsonBuf[..] == Overlaid(old(jsonBuf[..]), offset, part.data + [0]);
    }

    method OnRecvData(part: Part, offset: u32, contentLength: u32, code: nat) returns (goOn: bool)
      requires Valid()
      modifies this, jsonBuf
      ensures Valid() && (View(), goOn) == OnData(old(View()), part, offset, contentLength, code)
      ensures jsonBuf != old(jsonBuf) && jsonBuf != null ==> fresh(jsonBuf)
    {
      if isError { return false; }
      if Redirect(code) { return true; }
      respCode := code;
      if jsonBuf == null {
        AllocateBuffer(part, contentLength);
      } else if contentLength == 0 {
        GrowBuffer(part);
      }
      if isError { return false; }
      StorePart(part, offset);
      goOn := !isError;
    }
  }

  class DownloadClient {
    const info: DownloadInfo
    var contentLength: u32
    var offset: u32

    constructor ()
      ensures View() == Client(0, 0, START) && fresh(info) && info.jsonBuf == null
    {
      info := new DownloadInfo();
      contentLength, offset := 0, 0;
    }

    function View(): Client
      reads this, info, info.jsonBuf
    {
      Client(contentLength, offset, info.View())
    }

    method OnEvent(e: Event) returns (ok: bool)
      requires info.Valid()
      modifies this, info, info.jsonBuf
      ensures info.Valid() && (View(), ok) == Handle(old(View()), e)
      ensures info.jsonBuf != old(info.jsonBuf) && info.jsonBuf != null ==> fresh(info.jsonBuf)
    {
      match e {
        case Connected =>
          offset := 0;
        case ContentLength(n) =>
          offset, contentLength := 0, n;
        case Data(part, code) =>
          var goOn := info.OnRecvData(part, offset, contentLength, code);
          if !goOn { return false; }
          offset := AddU32(offset, |part.data|);
        case OtherEvent =>
      }
      ok := true;
    }

    /** A response without an error ends up in the buffer, then a NUL. */
    method ReceiveBody(parts: seq<Part>, code: nat)
      requires View() == Client(contentLength, 0, START) && !Redirect(code)
      modifies this, info, info.jsonBuf
      ensures View() == Body(Client(old(contentLength), 0, START), parts, code)
      ensures !info.isError && parts != [] ==>
                && info.jsonBuf != null && |Document(parts)| < info.jsonBuf.Length == info.jsonBufSize
                && info.jsonBuf[..|Document(parts)|] == Document(parts) && info.jsonBuf[|Document(parts)|] == 0
    {
      ghost var start := View();
      for i := 0 to |parts|
        invariant info.Valid() && View() == Body(start, parts[..i], code)
        invariant info.jsonBuf != null ==> fresh(info.jsonBuf)
      {
        TakeSnoc(parts, i);
        var _ := OnEvent(Data(parts[i], code));
        assert parts[..i + 1][i] == parts[i];
      }
      TakeAll(parts);
      DocumentCollected(parts, start.contentLength, code);
      assert info.jsonBuf != null ==> info.View().buf.value == info.jsonBuf[..];
    }
  }
}
