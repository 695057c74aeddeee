/** The OTA writer as a function on sessions: arbitrary chunks of an image are re-blocked
    into writes of whole 16-byte blocks when the flash is encrypted. */
module OtaSession {
  import opened Common

  const BLOCK: nat := 16
  const MAGIC: bv8 := 0xE9
  const FILL: bv8 := 0xFF

  datatype Err =
    | OK | INVALID_ARG | INVALID_SIZE | INVALID_STATE | NOT_FOUND | NO_MEM
    | PARTITION_CONFLICT | ROLLBACK_INVALID_STATE | VALIDATE_FAILED | FLASH_FAILED

  /** A successful write to the partition. */
  datatype Write = Write(offset: nat, data: seq<bv8>)

  /** `buf` is the carry buffer, of which `partial` bytes wait; `log` are the successful
      writes since the partition was erased. */
  datatype Session = Session(size: nat, wrote: nat, partial: nat, buf: seq<bv8>, log: seq<Write>)

  function Start(size: nat): Session {
    Session(size, 0, 0, seq(BLOCK, _ => 0 as bv8), [])
  }

  /** Whether the flash takes a write: it may fail, and it refuses to write past the end. */
  predicate Takes(s: Session, data: seq<bv8>, ok: bool) {
    ok && s.wrote + |data| <= s.size
  }

  function Wrote(s: Session, data: seq<bv8>): Session {
    s.(wrote := s.wrote + |data|, log := s.log + [Write(s.wrote, data)])
  }

  predicate BadMagic(s: Session, chunk: seq<bv8>) {
    s.wrote == 0 && s.partial == 0 && chunk != [] && chunk[0] != MAGIC
  }

  function BulkWrite(s: Session, bulk: seq<bv8>, ok: bool): (Session, Err) {
    if Takes(s, bulk, ok) then (Wrote(s, bulk), OK) else (s, FLASH_FAILED)
  }

  /** Whole blocks go to the flash, the rest of the chunk to the carry buffer. */
  function WriteBlocks(s: Session, chunk: seq<bv8>, bulkOk: bool): (Session, Err)
    requires |s.buf| == BLOCK
  {
    var rest := |chunk| % BLOCK;
    var n := |chunk| - rest;
    BulkWrite(s.(partial := rest, buf := Overlaid(s.buf, 0, chunk[n..])), chunk[..n], bulkOk)
  }

  /** The carry buffer is filled up: nothing is lost, and nothing has to be flushed yet. */
  function Filled(s: Session, bytes: seq<bv8>): Session
    requires |s.buf| == BLOCK && s.partial + |bytes| <= BLOCK
  {
    s.(partial := s.partial + |bytes|, buf := Overlaid(s.buf, s.partial, bytes))
  }

  /** The carry buffer is written out and reset. */
  function Flushed(s: Session): Session {
    Wrote(s, s.buf).(partial := 0, buf := seq(BLOCK, _ => FILL))
  }

  /** The full carry buffer, then the rest of the chunk. */
  function FlushAndWrite(s: Session, rest: seq<bv8>, flushOk: bool, bulkOk: bool): (Session, Err)
    requires |s.buf| == BLOCK
  {
    if !Takes(s, s.buf, flushOk) then (s, FLASH_FAILED) else WriteBlocks(Flushed(s), rest, bulkOk)
  }

  /** A chunk behind waiting bytes: the carry buffer is filled first and flushed when full. */
  function WriteCarried(s: Session, chunk: seq<bv8>, flushOk: bool, bulkOk: bool): (Session, Err)
    requires |s.buf| == BLOCK && s.partial <= BLOCK
  {
    var n := Min(BLOCK - s.partial, |chunk|);
    var filled := Filled(s, chunk[..n]);
    if filled.partial != BLOCK then (filled, OK) else FlushAndWrite(filled, chunk[n..], flushOk, bulkOk)
  }

  /** One chunk of the image. */
  function WriteChunk(s: Session, encrypted: bool, chunk: seq<bv8>, flushOk: bool, bulkOk: bool): (Session, Err)
    requires |s.buf| == BLOCK && s.partial <= BLOCK
  {
    if BadMagic(s, chunk) then (s, VALIDATE_FAILED)
    else if !encrypted then BulkWrite(s, chunk, bulkOk)
    else if s.partial == 0 then WriteBlocks(s, chunk, bulkOk)
    else WriteCarried(s, chunk, flushOk, bulkOk)
  }

  /** Finishing: the carry buffer is written out and the image is verified. */
  function Finish(s: Session, tailOk: bool, memOk: bool, imageOk: bool): (Session, Err)
    requires |s.buf| == BLOCK
  {
    if s.size == 0 || s.wrote == 0 then (s, INVALID_ARG)
    else if s.partial > 0 && !Takes(s, s.buf, tailOk) then (s, INVALID_STATE)
    else
      var done := if s.partial > 0 then Wrote(s, s.buf).(partial := 0) else s;
      (done, if !memOk then NO_MEM else if !imageOk then VALIDATE_FAILED else OK)
  }

  // ---------------------------------------------------------------- all runs

  /** The writes cover [0, wrote) without gaps and without overlaps. */
  ghost predicate Tiles(log: seq<Write>, wrote: nat) {
    if log == [] then wrote == 0
    else
      var last := log[|log| - 1];
      last.offset + |last.data| == wrote && Tiles(log[..|log| - 1], last.offset)
  }

  /** The bytes written, in order. */
  ghost function Flat(log: seq<Write>): seq<bv8> {
    if log == [] then [] else Flat(log[..|log| - 1]) + log[|log| - 1].data
  }

  lemma TilesSnoc(log: seq<Write>, wrote: nat, data: seq<bv8>)
    requires Tiles(log, wrote)
    ensures Tiles(log + [Write(wrote, data)], wrote + |data|)
    ensures Flat(log + [Write(wrote, data)]) == Flat(log) + data
  {
    assert (log + [Write(wrote, data)])[..|log|] == log;
  }

  lemma {:induction false} FlatLength(log: seq<Write>, wrote: nat)
    requires Tiles(log, wrote)
    ensures |Flat(log)| == wrote
  {
    if log != [] {
      FlatLength(log[..|log| - 1], log[|log| - 1].offset);
    }
  }

  /** No offset is written twice: each write ends where, or before, the next one begins. */
  lemma {:induction false} WrittenOnce(log: seq<Write>, wrote: nat, i: nat, j: nat)
    requires Tiles(log, wrote) && i < j < |log|
    ensures log[i].offset + |log[i].data| <= log[j].offset
    ensures j == i + 1 ==> log[i].offset + |log[i].data| == log[j].offset
    ensures log[j].offset + |log[j].data| <= wrote
  {
    var b := log[..|log| - 1];
    if j == |log| - 1 {
      if i < |b| - 1 {
        WrittenOnce(b, log[j].offset, i, |b| - 1);
      }
    } else {
      WrittenOnce(b, log[|log| - 1].offset, i, j);
    }
  }

  ghost predicate Aligned(log: seq<Write>) {
    forall i :: 0 <= i < |log| ==> log[i].offset % BLOCK == 0 && |log[i].data| % BLOCK == 0
  }

  /** What every session satisfies, whatever fails. */
  ghost predicate Wf(s: Session, encrypted: bool) {
    && |s.buf| == BLOCK && s.partial <= BLOCK && s.wrote <= s.size
    && Tiles(s.log, s.wrote)
    && (if encrypted then s.wrote % BLOCK == 0 && Aligned(s.log) else s.partial == 0)
  }

  lemma WroteWf(s: Session, encrypted: bool, data: seq<bv8>)
    requires Wf(s, encrypted) && Takes(s, data, true) && (encrypted ==> |data| % BLOCK == 0)
    ensures Wf(Wrote(s, data), encrypted) && Flat(Wrote(s, data).log) == Flat(s.log) + data
  {
    TilesSnoc(s.log, s.wrote, data);
  }

  lemma WriteBlocksWf(s: Session, chunk: seq<bv8>, ok: bool)
    requires Wf(s, true) && s.partial == 0
    ensures Wf(WriteBlocks(s, chunk, ok).0, true)
  {
    var rest := |chunk| % BLOCK;
    var n := |chunk| - rest;
    var t := s.(partial := rest, buf := Overlaid(s.buf, 0, chunk[n..]));
    if Takes(t, chunk[..n], ok) {
      WroteWf(t, true, chunk[..n]);
    }
  }

  /** MAIN RESULT. Every write step, failed or not, keeps the session well formed: the
      successful writes tile [0, wrote), in whole blocks when the flash is encrypted, and
      at most one block waits. */
  lemma WriteChunkWf(s: Session, encrypted: bool, chunk: seq<bv8>, flushOk: bool, bulkOk: bool)
    requires Wf(s, encrypted)
    ensures Wf(WriteChunk(s, encrypted, chunk, flushOk, bulkOk).0, encrypted)
  {
    if BadMagic(s, chunk) {
    } else if !encrypted {
      if Takes(s, chunk, bulkOk) { WroteWf(s, false, chunk); }
    } else if s.partial == 0 {
      WriteBlocksWf(s, chunk, bulkOk);
    } else {
      var n := Min(BLOCK - s.partial, |chunk|);
      var filled := Filled(s, chunk[..n]);
      if filled.partial == BLOCK && Takes(filled, filled.buf, flushOk) {
        WroteWf(filled, true, filled.buf);
        WriteBlocksWf(Flushed(filled), chunk[n..], bulkOk);
      }
    }
  }

  lemma FinishWf(s: Session, encrypted: bool, tailOk: bool, memOk: bool, imageOk: bool)
    requires Wf(s, encrypted)
    ensures Wf(Finish(s, tailOk, memOk, imageOk).0, encrypted)
  {
    if s.partial > 0 && Takes(s, s.buf, tailOk) {
      WroteWf(s, encrypted, s.buf);
    }
  }

  // ---------------------------------------------------------------- runs without failures

  /** What the session has received: the flash, then the bytes that wait. */
  ghost function Stream(s: Session): seq<bv8>
    requires s.partial <= |s.buf|
  {
    Flat(s.log) + s.buf[..s.partial]
  }

  /** No write has failed: less than a block waits. */
  ghost predicate Sound(s: Session, encrypted: bool) {
    Wf(s, encrypted) && s.partial < BLOCK
  }

  /** The carry buffer after it took the end of a chunk. */
  lemma CarryHolds(buf: seq<bv8>, at: nat, bytes: seq<bv8>)
    requires at + |bytes| <= |buf|
    ensures Overlaid(buf, at, bytes)[..at + |bytes|] == buf[..at] + bytes
  {
  }

  lemma WriteBlocksStream(s: Session, chunk: seq<bv8>)
    requires Sound(s, true) && s.partial == 0
    ensures var (t, err) := WriteBlocks(s, chunk, true);
            err == OK ==> Sound(t, true) && Stream(t) == Stream(s) + chunk
  {
    WriteBlocksWf(s, chunk, true);
    var rest := |chunk| % BLOCK;
    var n := |chunk| - rest;
    CarryHolds(s.buf, 0, chunk[n..]);
    TilesSnoc(s.log, s.wrote, chunk[..n]);
    assert Stream(s) + chunk == (Flat(s.log) + chunk[..n]) + chunk[n..];
  }

  lemma FilledStream(s: Session, bytes: seq<bv8>)
    requires Sound(s, true) && s.partial + |bytes| <= BLOCK
    ensures Wf(Filled(s, bytes), true)
    ensures Stream(Filled(s, bytes)) == Stream(s) + bytes
  {
    CarryHolds(s.buf, s.partial, bytes);
  }

  lemma FlushedStream(s: Session)
    requires Wf(s, true) && s.partial == BLOCK && Takes(s, s.buf, true)
    ensures Sound(Flushed(s), true)
    ensures Stream(Flushed(s)) == Stream(s)
  {
    WroteWf(s, true, s.buf);
    assert s.buf[..BLOCK] == s.buf;
  }

  lemma PlainStream(s: Session, chunk: seq<bv8>)
    requires Sound(s, false)
    ensures var (t, err) := BulkWrite(s, chunk, true);
            err == OK ==> Sound(t, false) && t.size == s.size && Stream(t) == Stream(s) + chunk
  {
    if Takes(s, chunk, true) {
      WroteWf(s, false, chunk);
    }
  }

  /** MAIN RESULT. A chunk that is taken extends the received stream by exactly its bytes. */
  lemma ChunkStream(s: Session, encrypted: bool, chunk: seq<bv8>)
    requires Sound(s, encrypted)
    ensures var (t, err) := WriteChunk(s, encrypted, chunk, true, true);
            err == OK ==> Sound(t, encrypted) && t.size == s.size && Stream(t) == Stream(s) + chunk
  {
    if BadMagic(s, chunk) {
    } else if !encrypted {
      PlainStream(s, chunk);
    } else if s.partial == 0 {
      WriteBlocksStream(s, chunk);
    } else {
      CarryStream(s, chunk);
    }
  }

  lemma CarryStream(s: Session, chunk: seq<bv8>)
    requires Sound(s, true) && s.partial > 0
    ensures var (t, err) := WriteChunk(s, true, chunk, true, true);
            err == OK ==> Sound(t, true) && t.size == s.size && Stream(t) == Stream(s) + chunk
  {
    var n := Min(BLOCK - s.partial, |chunk|);
    var filled := Filled(s, chunk[..n]);
    FilledStream(s, chunk[..n]);
    assert chunk == chunk[..n] + chunk[n..];
    if filled.partial == BLOCK && Takes(filled, filled.buf, true) {
      FlushedStream(filled);
      WriteBlocksStream(Flushed(filled), chunk[n..]);
      assert Stream(s) + chunk == (Stream(s) + chunk[..n]) + chunk[n..];
    }
  }

  /** While no write has failed, the first byte of a chunk is checked exactly when the chunk
      is the first one that brings data: the check sees the first byte of the image. */
  lemma MagicChecksFirstByte(s: Session, encrypted: bool, chunk: seq<bv8>)
    requires Sound(s, encrypted)
    ensures BadMagic(s, chunk) <==> Stream(s) == [] && chunk != [] && chunk[0] != 0xE9
    ensures BadMagic(s, chunk) <==> WriteChunk(s, encrypted, chunk, true, true).1 == VALIDATE_FAILED
  {
    FlatLength(s.log, s.wrote);
  }

  ghost function Concat(chunks: seq<seq<bv8>>): seq<bv8> {
    if chunks == [] then [] else Concat(chunks[..|chunks| - 1]) + chunks[|chunks| - 1]
  }

  /** The session after a list of chunks, or none when one of them is not taken. */
  ghost function Receive(size: nat, encrypted: bool, chunks: seq<seq<bv8>>): (r: Option<Session>)
    ensures r.Some? ==> Sound(r.value, encrypted) && r.value.size == size
  {
    if chunks == [] then Some(Start(size))
    else
      var before := Receive(size, encrypted, chunks[..|chunks| - 1]);
      if before == None then None
      else
        var (s, err) := WriteChunk(before.value, encrypted, chunks[|chunks| - 1], true, true);
        ChunkStream(before.value, encrypted, chunks[|chunks| - 1]);
        if err == OK then Some(s) else None
  }

  /** MAIN RESULT. However an image is split, the flash followed by the waiting bytes is the
      concatenation of the chunks. */
  lemma {:induction false} ReceivedIsConcat(size: nat, encrypted: bool, chunks: seq<seq<bv8>>)
    requires Receive(size, encrypted, chunks).Some?
    ensures Stream(Receive(size, encrypted, chunks).value) == Concat(chunks)
  {
    if chunks != [] {
      ReceivedIsConcat(size, encrypted, chunks[..|chunks| - 1]);
      ChunkStream(Receive(size, encrypted, chunks[..|chunks| - 1]).value, encrypted, chunks[|chunks| - 1]);
    }
  }

  /** What the flash is asked for at once: an encrypted one takes whole blocks only. */
  function Whole(n: nat, encrypted: bool): nat {
    if encrypted then n - n % 16 else n
  }

  /** Whether the writes work that a chunk of the given length leads to, behind the bytes
      received before: on an encrypted flash it may lead to none at all. */
  predicate WritesWork(before: nat, length: nat, encrypted: bool, flushOk: bool, bulkOk: bool) {
    var waiting := if encrypted then before % BLOCK else 0;
    if waiting == 0 then bulkOk
    else waiting + length >= BLOCK ==> flushOk && bulkOk
  }

  /** The first byte of an image tells that it is one. */
  predicate Magical(image: seq<bv8>) {
    image != [] ==> image[0] == 0xE9
  }

  lemma WholeOf(s: Session, encrypted: bool)
    requires Sound(s, encrypted)
    ensures |Stream(s)| == s.wrote + s.partial && Whole(|Stream(s)|, encrypted) == s.wrote
  {
    FlatLength(s.log, s.wrote);
  }

  lemma WriteBlocksTaken(s: Session, chunk: seq<bv8>, bulkOk: bool)
    requires Wf(s, true) && s.partial == 0
    ensures WriteBlocks(s, chunk, bulkOk).1 == OK <==> bulkOk && Whole(s.wrote + |chunk|, true) <= s.size
  {
  }

  lemma WholeSum(whole: nat, rest: nat)
    requires whole % BLOCK == 0
    ensures Whole(whole + rest, true) == whole + Whole(rest, true)
  {
  }

  /** The carry buffer becomes full. */
  lemma FlushTaken(s: Session, rest: seq<bv8>, flushOk: bool, bulkOk: bool)
    requires Wf(s, true) && s.partial == BLOCK
    ensures FlushAndWrite(s, rest, flushOk, bulkOk).1 == OK <==>
              flushOk && bulkOk && Whole(s.wrote + BLOCK + |rest|, true) <= s.size
  {
    WholeSum(s.wrote + BLOCK, |rest|);
    if Takes(s, s.buf, flushOk) {
      WroteWf(s, true, s.buf);
      WriteBlocksTaken(Flushed(s), rest, bulkOk);
    }
  }

  lemma CarryTaken(s: Session, chunk: seq<bv8>, flushOk: bool, bulkOk: bool)
    requires Sound(s, true) && s.partial > 0
    ensures WriteCarried(s, chunk, flushOk, bulkOk).1 == OK <==>
              (s.partial + |chunk| >= BLOCK ==> flushOk && bulkOk)
              && Whole(s.wrote + s.partial + |chunk|, true) <= s.size
  {
    WholeSum(s.wrote, s.partial + |chunk|);
    if s.partial + |chunk| >= BLOCK {
      var n := BLOCK - s.partial;
      FlushTaken(Filled(s, chunk[..n]), chunk[n..], flushOk, bulkOk);
    }
  }

  /** A chunk is taken exactly when the image so far begins as an image does, the writes it
      leads to work, and the whole blocks so far fit into the partition. */
  lemma ChunkTaken(s: Session, encrypted: bool, chunk: seq<bv8>, flushOk: bool, bulkOk: bool)
    requires Sound(s, encrypted) && Magical(Stream(s))
    ensures var image := Stream(s) + chunk;
            WriteChunk(s, encrypted, chunk, flushOk, bulkOk).1 == OK <==>
              Magical(image) && WritesWork(|Stream(s)|, |chunk|, encrypted, flushOk, bulkOk)
              && Whole(|image|, encrypted) <= s.size
  {
    WholeOf(s, encrypted);
    MagicChecksFirstByte(s, encrypted, chunk);
    if encrypted && !BadMagic(s, chunk) {
      if s.partial == 0 {
        WriteBlocksTaken(s, chunk, bulkOk);
      } else {
        CarryTaken(s, chunk, flushOk, bulkOk);
      }
    }
  }

  /** MAIN RESULT. Whether an image is taken does not depend on the split: it is exactly when
      it begins as an image does and its whole blocks fit into the partition. */
  lemma {:induction false} ReceivedIff(size: nat, encrypted: bool, chunks: seq<seq<bv8>>)
    ensures Receive(size, encrypted, chunks).Some? <==>
              Magical(Concat(chunks)) && Whole(|Concat(chunks)|, encrypted) <= size
  {
    if chunks != [] {
      var before, chunk := chunks[..|chunks| - 1], chunks[|chunks| - 1];
      ReceivedIff(size, encrypted, before);
      WholeGrows(|Concat(before)|, |chunk|, encrypted);
      if Receive(size, encrypted, before).Some? {
        ReceivedIsConcat(size, encrypted, before);
        ChunkTaken(Receive(size, encrypted, before).value, encrypted, chunk, true, true);
      }
    }
  }

  lemma WholeGrows(n: nat, more: nat, encrypted: bool)
    ensures Whole(n, encrypted) <= Whole(n + more, encrypted)
  {
  }

  function RoundUp(n: nat): nat {
    (n + 15) / 16 * 16
  }

  lemma RoundUpIs(whole: nat, rest: nat)
    requires whole % BLOCK == 0 && rest < BLOCK
    ensures RoundUp(whole + rest) == if rest == 0 then whole else whole + BLOCK
  {
  }

  /** The length of a finished image on the flash. */
  function Total(image: seq<bv8>, encrypted: bool): nat {
    if encrypted then RoundUp(|image|) else |image|
  }

  /** What finishing does to a session that took everything it was given. */
  lemma FinishStream(r: Session, encrypted: bool, tailOk: bool, memOk: bool, imageOk: bool)
    requires Sound(r, encrypted)
    ensures var image := Stream(r);
            var (s, err) := Finish(r, tailOk, memOk, imageOk);
            && err == (if |image| < (if encrypted then 16 else 1) then INVALID_ARG
                       else if Total(image, encrypted) != |image| && !(tailOk && Total(image, encrypted) <= r.size)
                         then INVALID_STATE
                       else if !memOk then NO_MEM else if !imageOk then VALIDATE_FAILED else OK)
            && (err == OK ==> s.wrote == Total(image, encrypted) == |Flat(s.log)| && image <= Flat(s.log))
  {
    FlatLength(r.log, r.wrote);
    if encrypted {
      RoundUpIs(r.wrote, r.partial);
    }
    if r.partial > 0 {
      TilesSnoc(r.log, r.wrote, r.buf);
      assert Flat(r.log) + r.buf == Stream(r) + r.buf[r.partial..];
    }
  }

  /** MAIN RESULT. Finishing: it succeeds exactly when some data reached the flash, the last
      block fits and the image is verified; then the flash begins with the image, and its
      length is the image's, rounded up to whole blocks when the flash is encrypted. */
  lemma FinishedImage(size: nat, encrypted: bool, chunks: seq<seq<bv8>>, tailOk: bool, memOk: bool, imageOk: bool)
    requires Receive(size, encrypted, chunks).Some?
    ensures var image := Concat(chunks);
            var (s, err) := Finish(Receive(size, encrypted, chunks).value, tailOk, memOk, imageOk);
            && err == (if |image| < (if encrypted then 16 else 1) then INVALID_ARG
                       else if Total(image, encrypted) != |image| && !(tailOk && Total(image, encrypted) <= size)
                         then INVALID_STATE
                       else if !memOk then NO_MEM else if !imageOk then VALIDATE_FAILED else OK)
            && (err == OK ==> s.wrote == Total(image, encrypted) == |Flat(s.log)| && image <= Flat(s.log))
  {
    ReceivedIsConcat(size, encrypted, chunks);
    FinishStream(Receive(size, encrypted, chunks).value, encrypted, tailOk, memOk, imageOk);
  }

  lemma FinishedBytes(size: nat, encrypted: bool, chunks: seq<seq<bv8>>)
    requires Receive(size, encrypted, chunks).Some?
    ensures var (s, err) := Finish(Receive(size, encrypted, chunks).value, true, true, true);
            err == OK ==>
              Flat(s.log)[..Min(|Concat(chunks)|, |Flat(s.log)|)] == Concat(chunks)
              && s.wrote == Total(Concat(chunks), encrypted)
  {
    FinishedImage(size, encrypted, chunks, true, true, true);
  }

  /** MAIN RESULT. The result does not depend on the split, nor, on the bytes of the image,
      on the encryption. */
  lemma SplitDoesNotMatter(
    size: nat, encrypted: bool, encrypted': bool, chunks: seq<seq<bv8>>, chunks': seq<seq<bv8>>)
    requires Concat(chunks) == Concat(chunks')
    requires Receive(size, encrypted, chunks).Some? && Receive(size, encrypted', chunks').Some?
    ensures var image := Concat(chunks);
            var (s, err) := Finish(Receive(size, encrypted, chunks).value, true, true, true);
            var (s', err') := Finish(Receive(size, encrypted', chunks').value, true, true, true);
            err == OK && err' == OK ==>
              && Flat(s.log)[..Min(|image|, |Flat(s.log)|)] == Flat(s'.log)[..Min(|image|, |Flat(s'.log)|)] == image
              && (encrypted == encrypted' ==> s.wrote == s'.wrote)
  {
    FinishedBytes(size, encrypted, chunks);
    FinishedBytes(size, encrypted', chunks');
  }

  /** The carry buffer behind the waiting bytes is uniform. */
  ghost predicate Padded(s: Session, fill: bv8) {
    |s.buf| == BLOCK && s.partial <= BLOCK && forall i :: s.partial <= i < BLOCK ==> s.buf[i] == fill
  }

  /** What the last block will be filled up with after one more chunk: zeros turn into 0xFF
      when the carry buffer is flushed for the first time, and stay 0xFF. */
  function NextFill(s: Session, chunk: seq<bv8>, fill: bv8): bv8 {
    if s.partial > 0 && s.partial + |chunk| >= 16 then 0xFF else fill
  }

  lemma WriteBlocksPads(s: Session, chunk: seq<bv8>, fill: bv8)
    requires s.partial == 0 && Padded(s, fill)
    ensures Padded(WriteBlocks(s, chunk, true).0, fill)
  {
  }

  /** The bytes behind the image in its last block are 0x00 as long as the carry buffer was
      never flushed, and 0xFF from then on. */
  lemma PaddingAfterChunk(s: Session, chunk: seq<bv8>, fill: bv8)
    requires Sound(s, true) && Padded(s, fill)
    requires WriteChunk(s, true, chunk, true, true).1 == OK
    ensures Padded(WriteChunk(s, true, chunk, true, true).0, NextFill(s, chunk, fill))
  {
    if s.partial == 0 {
      WriteBlocksPads(s, chunk, fill);
    } else {
      var n := Min(BLOCK - s.partial, |chunk|);
      if s.partial + n == BLOCK {
        WriteBlocksPads(Flushed(Filled(s, chunk[..n])), chunk[n..], FILL);
      }
    }
  }

  /** What the last block of an image is filled up with: zeros, unless a chunk has completed a
      block that an earlier one had begun. */
  ghost function FillAfter(chunks: seq<seq<bv8>>): bv8 {
    if chunks == [] then 0x00
    else
      var before := chunks[..|chunks| - 1];
      var waiting := |Concat(before)| % 16;
      if waiting > 0 && waiting + |chunks[|chunks| - 1]| >= 16 then 0xFF else FillAfter(before)
  }

  lemma {:induction false} ReceivedPadded(size: nat, chunks: seq<seq<bv8>>)
    requires Receive(size, true, chunks).Some?
    ensures Padded(Receive(size, true, chunks).value, FillAfter(chunks))
  {
    if chunks != [] {
      var before, chunk := chunks[..|chunks| - 1], chunks[|chunks| - 1];
      var s := Receive(size, true, before).value;
      ReceivedPadded(size, before);
      ReceivedIsConcat(size, true, before);
      WholeOf(s, true);
      PaddingAfterChunk(s, chunk, FillAfter(before));
    }
  }

  /** MAIN RESULT. The whole contents that a finished image leaves on an encrypted flash: the
      image, and behind it in its last block zeros or 0xFF, as the split decides. */
  lemma FinishedContents(size: nat, chunks: seq<seq<bv8>>, tailOk: bool, memOk: bool, imageOk: bool)
    requires Receive(size, true, chunks).Some?
    requires Finish(Receive(size, true, chunks).value, tailOk, memOk, imageOk).1 == OK
    ensures var image := Concat(chunks);
            var s := Finish(Receive(size, true, chunks).value, tailOk, memOk, imageOk).0;
            && image <= Flat(s.log) && |Flat(s.log)| == RoundUp(|image|)
            && forall i :: |image| <= i < |Flat(s.log)| ==> Flat(s.log)[i] == FillAfter(chunks)
  {
    var r := Receive(size, true, chunks).value;
    FinishedImage(size, true, chunks, tailOk, memOk, imageOk);
    ReceivedPadded(size, chunks);
    ReceivedIsConcat(size, true, chunks);
    WholeOf(r, true);
    if r.partial > 0 {
      TilesSnoc(r.log, r.wrote, r.buf);
      FlatLength(r.log, r.wrote);
    }
  }

  // ---------------------------------------------------------------- runs with failures

  /** A chunk, and whether the flash takes the flush and the bulk write it leads to. */
  datatype Try = Try(chunk: seq<bv8>, flushOk: bool, bulkOk: bool)

  ghost function Tries(size: nat, encrypted: bool, tries: seq<Try>): (r: Session)
    ensures Wf(r, encrypted) && r.size == size
  {
    if tries == [] then Start(size)
    else
      var s, t := Tries(size, encrypted, tries[..|tries| - 1]), tries[|tries| - 1];
      WriteChunkWf(s, encrypted, t.chunk, t.flushOk, t.bulkOk);
      WriteChunk(s, encrypted, t.chunk, t.flushOk, t.bulkOk).0
  }

  /** MAIN RESULT. In any run, with any failures, no offset of the erased partition is
      programmed twice and none is left out, and an encrypted flash only sees whole blocks. */
  lemma NeverTwice(size: nat, encrypted: bool, tries: seq<Try>, i: nat, j: nat)
    requires i < j < |Tries(size, encrypted, tries).log|
    ensures var log := Tries(size, encrypted, tries).log;
            && log[i].offset + |log[i].data| <= log[j].offset
            && (j == i + 1 ==> log[i].offset + |log[i].data| == log[j].offset)
            && log[j].offset + |log[j].data| <= Tries(size, encrypted, tries).wrote <= size
            && (encrypted ==> log[j].offset % BLOCK == 0 && |log[j].data| % BLOCK == 0)
  {
    var s := Tries(size, encrypted, tries);
    WrittenOnce(s.log, s.wrote, i, j);
  }
}
