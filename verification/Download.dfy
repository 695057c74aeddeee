/** Collecting a downloaded document in a buffer: of the announced length, or grown with
    every part when no length was announced. */
module Download {
  import opened Common

  const OKAY: nat := 200
  /** No allocation of this size or more succeeds. */
  const ALLOC_LIMIT: nat := 0x8000_0000

  predicate Redirect(code: nat) { code == 301 || code == 302 }

  type Bytes = b: seq<bv8> | |b| < ALLOC_LIMIT witness []

  /** A part of the body; whether memory can be allocated for it, and what freshly added
      memory contains. */
  datatype Part = Part(data: Bytes, allocOk: bool, junk: bv8)

  datatype Info = Info(isError: bool, code: nat, buf: Option<seq<bv8>>, size: u32)

  const START: Info := Info(false, OKAY, None, 0)

  function Filled(n: nat, b: bv8): (r: seq<bv8>)
    ensures |r| == n && forall i :: 0 <= i < n ==> r[i] == b
  {
    seq(n, _ => b)
  }

  predicate Allocates(n: u32, ok: bool) {
    ok && n < ALLOC_LIMIT
  }

  /** The first part: the buffer is allocated, zeroed. */
  function Allocate(info: Info, part: Part, contentLength: u32): Info {
    var n := AddU32(if contentLength == 0 then |part.data| else contentLength, 1);
    if Allocates(n, part.allocOk) then info.(buf := Some(Filled(n, 0)), size := n)
    else info.(isError := true, size := n)
  }

  /** A further part, when no length was announced. */
  function Grow(info: Info, part: Part): Info
    requires info.buf.Some?
  {
    var n := AddU32(info.size, |part.data|);
    if Allocates(n, part.allocOk) && n >= |info.buf.value| then
      info.(buf := Some(info.buf.value + Filled(n - |info.buf.value|, part.junk)), size := n)
    else info.(isError := true, buf := None, size := n)
  }

  function Reserve(info: Info, part: Part, contentLength: u32): Info {
    if info.buf.None? then Allocate(info, part, contentLength)
    else if contentLength == 0 then Grow(info, part)
    else info
  }

  predicate Overflows(info: Info, part: Part, offset: u32) {
    offset >= info.size || AddU32(offset, |part.data|) >= info.size
  }

  function Store(info: Info, part: Part, offset: u32): Info
    requires info.buf.Some? && |info.buf.value| == info.size < ALLOC_LIMIT
  {
    if Overflows(info, part, offset) then info.(isError := true, buf := None)
    else info.(buf := Some(Overlaid(info.buf.value, offset, part.data + [0])))
  }

  ghost predicate Wf(info: Info) {
    info.buf.Some? ==> |info.buf.value| == info.size < ALLOC_LIMIT
  }

  /** The callback for a part; the second result tells the client to go on. */
  function OnData(info: Info, part: Part, offset: u32, contentLength: u32, code: nat): (r: (Info, bool))
    requires Wf(info)
    ensures Wf(r.0)
  {
    if info.isError then (info, false)
    else if Redirect(code) then (info, true)
    else
      var reserved := Reserve(info.(code := code), part, contentLength);
      if reserved.isError then (reserved, false)
      else
        var stored := Store(reserved, part, offset);
        (stored, !stored.isError)
  }

  // ---------------------------------------------------------------- events of the client

  /** What the event handler keeps beside the collected data. */
  datatype Client = Client(contentLength: u32, offset: u32, info: Info)

  datatype Event =
    | Connected
    | ContentLength(n: u32)
    | Data(part: Part, code: nat)
    | OtherEvent

  function Handle(c: Client, e: Event): (r: (Client, bool))
    requires Wf(c.info)
    ensures Wf(r.0.info)
  {
    match e
    case Connected => (c.(offset := 0), true)
    case ContentLength(n) => (c.(offset := 0, contentLength := n), true)
    case Data(part, code) =>
      var (info, ok) := OnData(c.info, part, c.offset, c.contentLength, code);
      if ok then (c.(info := info, offset := AddU32(c.offset, |part.data|)), true) else (c.(info := info), false)
    case OtherEvent => (c, true)
  }

  /** The body of one response, part by part. */
  function Body(c: Client, parts: seq<Part>, code: nat): (r: Client)
    requires Wf(c.info)
    ensures Wf(r.info)
  {
    if parts == [] then c
    else Handle(Body(c, parts[..|parts| - 1], code), Data(parts[|parts| - 1], code)).0
  }

  function Document(parts: seq<Part>): seq<bv8> {
    if parts == [] then [] else Document(parts[..|parts| - 1]) + parts[|parts| - 1].data
  }

  // ---------------------------------------------------------------- one response

  /** The number of bytes that the buffer must have after these parts. */
  function Needed(parts: seq<Part>, contentLength: u32): nat {
    1 + if contentLength == 0 then |Document(parts)| else contentLength
  }

  /** Memory suffices for every part, and an announced length is not exceeded: what it takes
      to collect the document. */
  ghost predicate Collectable(parts: seq<Part>, contentLength: u32) {
    parts != [] ==>
      var before, last := parts[..|parts| - 1], parts[|parts| - 1];
      Collectable(before, contentLength) && Fits(before, last, contentLength)
  }

  /** The document, then a NUL, in a buffer of the reserved size. */
  ghost predicate Holds(info: Info, parts: seq<Part>, contentLength: u32) {
    if parts == [] then info.buf == None
    else
      && info.buf.Some? && |info.buf.value| == info.size == Needed(parts, contentLength) < ALLOC_LIMIT
      && |Document(parts)| < info.size
      && info.buf.value[..|Document(parts)|] == Document(parts) && info.buf.value[|Document(parts)|] == 0
  }

  lemma StoreHolds(buf: seq<bv8>, doc: seq<bv8>, data: seq<bv8>)
    requires |doc| + |data| < |buf| && buf[..|doc|] == doc
    ensures var r := Overlaid(buf, |doc|, data + [0]);
            r[..|doc + data|] == doc + data && r[|doc + data|] == 0
  {
  }

  /** The conditions for one more part. */
  predicate Fits(parts: seq<Part>, part: Part, contentLength: u32) {
    && (parts == [] || contentLength == 0 ==> part.allocOk && Needed(parts + [part], contentLength) < ALLOC_LIMIT)
    && (contentLength != 0 ==> |Document(parts) + part.data| <= contentLength)
  }

  lemma DocumentSnoc(parts: seq<Part>, part: Part)
    ensures Document(parts + [part]) == Document(parts) + part.data
  {
    assert (parts + [part])[..|parts|] == parts;
  }

  /** What the buffer is like when memory was reserved for one more part. */
  ghost predicate Reserved(info: Info, parts: seq<Part>, part: Part, contentLength: u32) {
    && info.buf.Some? && |info.buf.value| == info.size == Needed(parts + [part], contentLength) < ALLOC_LIMIT
    && |Document(parts)| < info.size && info.buf.value[..|Document(parts)|] == Document(parts)
  }

  /** An announced length of 2^32 - 1 wraps around: no byte is reserved. */
  lemma AllocateHolds(info: Info, part: Part, contentLength: u32)
    requires !info.isError && info.buf.None?
    ensures var r := Allocate(info, part, contentLength);
            if part.allocOk && Needed([part], contentLength) < ALLOC_LIMIT
            then !r.isError && Reserved(r, [], part, contentLength) else r.isError || r.size == 0
  {
    DocumentSnoc([], part);
    assert [] + [part] == [part];
  }

  lemma GrowHolds(info: Info, parts: seq<Part>, part: Part)
    requires Wf(info) && !info.isError && parts != [] && Holds(info, parts, 0)
    ensures var r := Grow(info, part);
            if part.allocOk && Needed(parts + [part], 0) < ALLOC_LIMIT
            then !r.isError && Reserved(r, parts, part, 0) else r.isError
  {
    DocumentSnoc(parts, part);
    var n := |Document(parts)|;
    if !Grow(info, part).isError {
      assert Grow(info, part).buf.value[..n] == info.buf.value[..n];
    }
  }

  /** Reserving memory keeps the document and makes the size what is needed. */
  lemma ReserveHolds(info: Info, parts: seq<Part>, part: Part, contentLength: u32)
    requires Wf(info) && !info.isError && Holds(info, parts, contentLength)
    ensures var r := Reserve(info, part, contentLength);
            if parts == [] || contentLength == 0 ==> part.allocOk && Needed(parts + [part], contentLength) < ALLOC_LIMIT
            then !r.isError && Reserved(r, parts, part, contentLength) else r.isError || r.size == 0
  {
    if parts == [] {
      AllocateHolds(info, part, contentLength);
      assert [] + [part] == [part];
    } else if contentLength == 0 {
      GrowHolds(info, parts, part);
    }
  }

  lemma OverflowsIff(info: Info, part: Part, offset: u32)
    requires offset < info.size < ALLOC_LIMIT
    ensures Overflows(info, part, offset) <==> offset + |part.data| >= info.size
  {
    AddNoWrap(offset, |part.data|);
  }

  lemma StoreReserved(info: Info, parts: seq<Part>, part: Part, contentLength: u32)
    requires !info.isError && Reserved(info, parts, part, contentLength)
    ensures var r := Store(info, part, |Document(parts)|);
            if contentLength != 0 ==> |Document(parts) + part.data| <= contentLength
            then !r.isError && Holds(r, parts + [part], contentLength) else r.isError
  {
    DocumentSnoc(parts, part);
    var n := |Document(parts)|;
    OverflowsIff(info, part, n);
    if n + |part.data| < info.size {
      StoreHolds(info.buf.value, Document(parts), part.data);
      assert Store(info, part, n).buf == Some(Overlaid(info.buf.value, n, part.data + [0]));
    }
  }

  lemma StoreNothing(info: Info, part: Part, offset: u32)
    requires info.buf.Some? && |info.buf.value| == info.size == 0
    ensures Store(info, part, offset).isError
  {
  }

  /** One part, on top of the ones before it. */
  lemma DataHolds(info: Info, parts: seq<Part>, part: Part, contentLength: u32, code: nat)
    requires Wf(info) && !info.isError && !Redirect(code)
    requires Holds(info, parts, contentLength)
    ensures var (r, ok) := OnData(info, part, |Document(parts)|, contentLength, code);
            if Fits(parts, part, contentLength) then ok && !r.isError && Holds(r, parts + [part], contentLength)
            else !ok && r.isError
  {
    var coded := info.(code := code);
    ReserveHolds(coded, parts, part, contentLength);
    var reserved := Reserve(coded, part, contentLength);
    if !reserved.isError {
      if reserved.size == 0 {
        StoreNothing(reserved, part, |Document(parts)|);
      } else {
        StoreReserved(reserved, parts, part, contentLength);
      }
    }
  }

  /** The state of the client after some parts. */
  ghost predicate Collected(c: Client, parts: seq<Part>, contentLength: u32) {
    && c.contentLength == contentLength
    && (!c.info.isError <==> Collectable(parts, contentLength))
    && (!c.info.isError ==> c.offset == |Document(parts)| && Holds(c.info, parts, contentLength))
  }

  lemma HandleCollects(c: Client, parts: seq<Part>, part: Part, contentLength: u32, code: nat)
    requires Wf(c.info) && !Redirect(code) && Collected(c, parts, contentLength)
    ensures Collected(Handle(c, Data(part, code)).0, parts + [part], contentLength)
  {
    assert (parts + [part])[..|parts|] == parts;
    if !c.info.isError {
      DataHolds(c.info, parts, part, contentLength, code);
      DocumentSnoc(parts, part);
    }
  }

  /** MAIN RESULT. A response that starts at offset 0 is collected without an error exactly
      when memory suffices and an announced length is not exceeded; then the buffer holds the
      concatenation of the parts and a NUL. Without an announced length, or with one that is
      long enough, the contents are the same. */
  lemma {:induction false} DocumentCollected(parts: seq<Part>, contentLength: u32, code: nat)
    requires code != 301 && code != 302
    ensures Collected(Body(Client(contentLength, 0, START), parts, code), parts, contentLength)
  {
    if parts != [] {
      var before, last := parts[..|parts| - 1], parts[|parts| - 1];
      DocumentCollected(before, contentLength, code);
      assert parts == before + [last];
      HandleCollects(Body(Client(contentLength, 0, START), before, code), before, last, contentLength, code);
    }
  }

  /** What it takes to collect parts, seen all at once: with an announced length the buffer is
      allocated once, otherwise with every part. */
  predicate Room(parts: seq<Part>, contentLength: u32) {
    parts != [] ==>
      if contentLength == 0 then
        (forall i :: 0 <= i < |parts| ==> parts[i].allocOk) && |Document(parts)| + 1 < ALLOC_LIMIT
      else parts[0].allocOk && contentLength + 1 < ALLOC_LIMIT && |Document(parts)| <= contentLength
  }

  lemma RoomSnoc(parts: seq<Part>, part: Part, contentLength: u32)
    ensures Room(parts + [part], contentLength) <==> Room(parts, contentLength) && Fits(parts, part, contentLength)
  {
    DocumentSnoc(parts, part);
    assert (parts + [part])[|parts|] == part;
    assert forall i :: 0 <= i < |parts| ==> (parts + [part])[i] == parts[i];
  }

  lemma {:induction false} CollectableIff(parts: seq<Part>, contentLength: u32)
    ensures Collectable(parts, contentLength) <==> Room(parts, contentLength)
  {
    if parts != [] {
      CollectableIff(parts[..|parts| - 1], contentLength);
      RoomSnoc(parts[..|parts| - 1], parts[|parts| - 1], contentLength);
      assert parts == parts[..|parts| - 1] + [parts[|parts| - 1]];
    }
  }

  /** The length n announced by a redirection stays in force for a document that comes without a
      length of its own: the document is collected exactly when there is room for it under that
      length. So it is rejected when it is longer than n, although n says nothing about it,
      unless n is 0: then only memory matters. A length of its own replaces n. */
  lemma RedirectLengthStays(n: u32, m: u32, moved: Part, away: nat, parts: seq<Part>, code: nat)
    requires (away == 301 || away == 302) && code != 301 && code != 302
    ensures var c1 := Handle(Handle(Client(0, 0, START), Connected).0, ContentLength(n)).0;
            var c2 := Handle(Handle(c1, Data(moved, away)).0, Connected).0;
            && (!Body(c2, parts, code).info.isError <==> Room(parts, n))
            && (!Body(Handle(c2, ContentLength(m)).0, parts, code).info.isError <==> Room(parts, m))
    ensures 0 < n < |Document(parts)| ==> !Room(parts, n)
    ensures n == 0 ==>
              (Room(parts, n) <==> parts == []
                                   || (|Document(parts)| + 1 < ALLOC_LIMIT && forall p :: p in parts ==> p.allocOk))
  {
    DocumentCollected(parts, n, code);
    DocumentCollected(parts, m, code);
    CollectableIff(parts, n);
    CollectableIff(parts, m);
  }

  // ---------------------------------------------------------------- the result

  /** What the caller gets after the client has finished with a response code. */
  function Result(info: Info, respCode: nat): Info {
    var isError := info.isError || respCode != OKAY || info.code != OKAY || info.buf.None?;
    var code := if respCode != OKAY then respCode else info.code;
    info.(isError := isError, code := if isError && code == OKAY then 400 else code)
  }

  /** MAIN RESULT. A download ends without an error exactly when there was room for the parts
      that arrived and the codes are right; it delivers these parts. Whether they are the
      whole document is not checked: the buffer is full exactly when no length was announced
      or as much arrived as was announced. */
  lemma ResultIsDocument(parts: seq<Part>, contentLength: u32, code: nat, respCode: nat)
    requires code != 301 && code != 302
    ensures var info := Body(Client(contentLength, 0, START), parts, code).info;
            var r := Result(info, respCode);
            && (!r.isError <==> Room(parts, contentLength) && parts != [] && code == respCode == 200)
            && (!r.isError ==> r.code == 200 && Holds(r, parts, contentLength))
            && (!r.isError ==>
                  (|Document(parts)| + 1 == r.size <==> contentLength == 0 || |Document(parts)| == contentLength))
            && (r.isError ==>
                  r.code == if respCode != 200 then respCode else if parts != [] && code != 200 then code else 400)
  {
    DocumentCollected(parts, contentLength, code);
    CollectableIff(parts, contentLength);
    CodeIs(Client(contentLength, 0, START), parts, code);
  }

  /** The code is that of the response as soon as a part has arrived. */
  ghost predicate Coded(info: Info, code: nat, any: bool) {
    if any then info.code == code else !info.isError
  }

  lemma OnDataCode(info: Info, part: Part, offset: u32, contentLength: u32, code: nat, any: bool)
    requires Wf(info) && !Redirect(code) && Coded(info, code, any)
    ensures Coded(OnData(info, part, offset, contentLength, code).0, code, true)
  {
  }

  lemma {:induction false} CodeIs(c: Client, parts: seq<Part>, code: nat)
    requires Wf(c.info) && !Redirect(code) && !c.info.isError
    ensures Coded(Body(c, parts, code).info, code, parts != [])
  {
    if parts != [] {
      var before, last := parts[..|parts| - 1], parts[|parts| - 1];
      CodeIs(c, before, code);
      var b := Body(c, before, code);
      OnDataCode(b.info, last, b.offset, b.contentLength, code, before != []);
    }
  }
}
