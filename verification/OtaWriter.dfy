/** The OTA writer as the firmware runs it: entries updated in place, found by handle. */
module OtaWriter {
  import opened Common
  import opened OtaSession
  import opened FlashChip

  /** The partition holds the written stream and is erased behind it. */
  ghost predicate Held(mem: seq<bv8>, s: Session) {
    s.wrote == |Flat(s.log)| <= |mem| && mem == Flat(s.log) + Fills(|mem| - s.wrote)
  }

  /** A write behind everything written so far lands unchanged on the flash. */
  lemma HeldAfterWrite(mem: seq<bv8>, s: Session, bytes: seq<bv8>)
    requires Held(mem, s) && Tiles(s.log, s.wrote) && s.wrote + |bytes| <= |mem|
    ensures Held(Programmed(mem, s.wrote, bytes), Wrote(s, bytes))
  {
    TilesSnoc(s.log, s.wrote, bytes);
    assert mem[s.wrote..s.wrote + |bytes|] == Fills(|bytes|);
    ErasedTakesValue(mem, s.wrote, bytes);
    assert mem[..s.wrote] == Flat(s.log);
    assert mem[s.wrote + |bytes|..] == Fills(|mem| - s.wrote - |bytes|);
  }

  class OtaEntry {
    const handle: u32
    const part: Partition
    const erasedSize: nat
    var wroteSize: nat
    var partialBytes: nat
    const partialData: array<bv8>
    /** The successful writes since the partition was erased. */
    ghost var log: seq<Write>

    constructor (part: Partition, handle: u32)
      ensures this.part == part && this.handle == handle && fresh(partialData)
      ensures erasedSize == part.size && View() == Start(part.size) && Valid(true) && Valid(false)
    {
      this.part := part;
      this.handle := handle;
      erasedSize := part.size;
      wroteSize, partialBytes, log := 0, 0, [];
      partialData := new bv8[BLOCK](_ => 0);
      new;
      assert partialData[..] == seq(BLOCK, _ => 0 as bv8);
    }

    ghost function View(): Session
      reads this, partialData
    {
      Session(erasedSize, wroteSize, partialBytes, partialData[..], log)
    }

    ghost predicate Valid(encrypted: bool)
      reads this, partialData
    {
      partialData.Length == BLOCK && erasedSize == part.size && Wf(View(), encrypted)
    }

    method CopyIn(at: nat, bytes: seq<bv8>)
      requires at + |bytes| <= partialData.Length
      modifies partialData
      ensures partialData[..] == Overlaid(old(partialData[..]), at, bytes)
    {
      forall i | 0 <= i < |bytes| {
        partialData[at + i] := bytes[i];
      }
    }

    /** Writes at the end of what has been written. */
    method Append(flash: Flash, bytes: seq<bv8>, works: bool) returns (err: Err)
      requires flash.Valid() && part in flash.content && erasedSize == part.size
      requires Tiles(log, wroteSize)
      modifies `wroteSize, `log, flash
      ensures flash.Valid() && part in flash.content
      ensures (View(), err) == BulkWrite(old(View()), bytes, works)
      ensures old(Held(flash.content[part], View())) ==> Held(flash.content[part], View())
      ensures flash.content == old(flash.content)[part := flash.content[part]]
    {
      ghost var s, mem := View(), flash.content[part];
      err := flash.Write(part, wroteSize, bytes, works);
      if err == OK {
        wroteSize, log := wroteSize + |bytes|, log + [Write(wroteSize, bytes)];
        if Held(mem, s) {
          HeldAfterWrite(mem, s, bytes);
        }
      }
    }

    /** Flushes the full carry buffer and resets it. */
    method Flush(flash: Flash, works: bool) returns (err: Err)
      requires flash.Valid() && part in flash.content && Valid(true) && partialBytes == BLOCK
      modifies this, partialData, flash
      ensures flash.Valid() && part in flash.content && Valid(true)
      ensures err == if Takes(old(View()), old(View()).buf, works) then OK else FLASH_FAILED
      ensures View() == if err != OK then old(View()) else Flushed(old(View()))
      ensures old(Held(flash.content[part], View())) ==> Held(flash.content[part], View())
      ensures flash.content == old(flash.content)[part := flash.content[part]]
    {
      ghost var s := View();
      if Takes(s, s.buf, works) {
        WroteWf(s, true, s.buf);
      }
      err := Append(flash, partialData[..], works);
      if err != OK { return; }
      partialBytes := 0;
      forall i | 0 <= i < BLOCK {
        partialData[i] := OtaSession.FILL;
      }
      assert partialData[..] == seq(BLOCK, _ => OtaSession.FILL);
    }

    /** Saves the part of a chunk behind its last whole block, and writes the rest. */
    method WriteWholeBlocks(flash: Flash, chunk: seq<bv8>, works: bool) returns (err: Err)
      requires flash.Valid() && part in flash.content && Valid(true) && partialBytes == 0
      modifies this, partialData, flash
      ensures flash.Valid() && part in flash.content
      ensures (View(), err) == WriteBlocks(old(View()), chunk, works)
      ensures old(Held(flash.content[part], View())) ==> Held(flash.content[part], View())
      ensures flash.content == old(flash.content)[part := flash.content[part]]
    {
      partialBytes := |chunk| % BLOCK;
      var remaining := |chunk| - partialBytes;
      if partialBytes != 0 {
        CopyIn(0, chunk[remaining..]);
      }
      assert partialData[..] == Overlaid(old(partialData[..]), 0, chunk[remaining..]);
      err := Append(flash, chunk[..remaining], works);
    }

    /** Moves bytes into the carry buffer. */
    method Fill(bytes: seq<bv8>)
      requires Valid(true) && partialBytes + |bytes| <= BLOCK
      modifies `partialBytes, partialData
      ensures Valid(true) && View() == Filled(old(View()), bytes)
    {
      CopyIn(partialBytes, bytes);
      partialBytes := partialBytes + |bytes|;
    }

    /** The full carry buffer, then the rest of the chunk. */
    method FlushAndWriteRest(flash: Flash, rest: seq<bv8>, flushOk: bool, bulkOk: bool) returns (err: Err)
      requires flash.Valid() && part in flash.content && Valid(true) && partialBytes == BLOCK
      modifies this, partialData, flash
      ensures flash.Valid() && part in flash.content
      ensures (View(), err) == FlushAndWrite(old(View()), rest, flushOk, bulkOk)
      ensures old(Held(flash.content[part], View())) ==> Held(flash.content[part], View())
      ensures flash.content == old(flash.content)[part := flash.content[part]]
    {
      err := Flush(flash, flushOk);
      if err == OK {
        err := WriteWholeBlocks(flash, rest, bulkOk);
      }
    }

    /** A chunk that starts while bytes wait in the carry buffer. */
    method WriteAfterCarry(flash: Flash, chunk: seq<bv8>, flushOk: bool, bulkOk: bool) returns (err: Err)
      requires flash.Valid() && part in flash.content && Valid(true) && partialBytes != 0
      modifies this, partialData, flash
      ensures flash.Valid() && part in flash.content
      ensures (View(), err) == WriteCarried(old(View()), chunk, flushOk, bulkOk)
      ensures old(Held(flash.content[part], View())) ==> Held(flash.content[part], View())
      ensures flash.content == old(flash.content)[part := flash.content[part]]
    {
      var n := Min(BLOCK - partialBytes, |chunk|);
      Fill(chunk[..n]);
      if partialBytes != BLOCK {
        return OK;
      }
      err := FlushAndWriteRest(flash, chunk[n..], flushOk, bulkOk);
    }

    /** One chunk of the image. */
    method WriteEntry(flash: Flash, encrypted: bool, chunk: seq<bv8>, flushOk: bool, bulkOk: bool) returns (err: Err)
      requires flash.Valid() && part in flash.content && Valid(encrypted) && erasedSize > 0
      modifies this, partialData, flash
      ensures flash.Valid() && part in flash.content && Valid(encrypted)
      ensures (View(), err) == WriteChunk(old(View()), encrypted, chunk, flushOk, bulkOk)
      ensures old(Held(flash.content[part], View())) ==> Held(flash.content[part], View())
      ensures flash.content == old(flash.content)[part := flash.content[part]]
    {
      WriteChunkWf(View(), encrypted, chunk, flushOk, bulkOk);
      if wroteSize == 0 && partialBytes == 0 && |chunk| > 0 && chunk[0] != MAGIC {
        return VALIDATE_FAILED;
      }
      if !encrypted {
        err := Append(flash, chunk, bulkOk);
      } else if partialBytes == 0 {
        err := WriteWholeBlocks(flash, chunk, bulkOk);
      } else {
        err := WriteAfterCarry(flash, chunk, flushOk, bulkOk);
      }
    }

    /** The end of the image: the last block, then the verification. */
    method FinishEntry(flash: Flash, encrypted: bool, tailOk: bool, memOk: bool, imageOk: bool) returns (err: Err)
      requires flash.Valid() && part in flash.content && Valid(encrypted)
      modifies this, flash
      ensures flash.Valid() && part in flash.content && Valid(encrypted)
      ensures (View(), err) == Finish(old(View()), tailOk, memOk, imageOk)
      ensures old(Held(flash.content[part], View())) ==> Held(flash.content[part], View())
      ensures flash.content == old(flash.content)[part := flash.content[part]]
    {
      FinishWf(View(), encrypted, tailOk, memOk, imageOk);
      if erasedSize == 0 || wroteSize == 0 {
        return INVALID_ARG;
      }
      if partialBytes > 0 {
        err := Append(flash, partialData[..], tailOk);
        if err != OK {
          return INVALID_STATE;
        }
        partialBytes := 0;
      }
      if !memOk {
        return NO_MEM;
      }
      err := if imageOk then OK else VALIDATE_FAILED;
    }
  }
}
