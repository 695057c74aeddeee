/** The OTA sessions of the firmware: begun, written to and ended through handles. */
module OtaOps {
  import opened Common
  import opened OtaSession
  import opened FlashChip
  import opened OtaWriter

  /** Why a session may not begin on a partition, before anything is erased. */
  function BeginRefusal(p: Option<Partition>, table: set<Partition>, running: Partition, pendingVerify: bool): (r: Err)
    ensures r == OK <==> p.Some? && p.value in table && p.value.kind == OtaApp && p.value != running && !pendingVerify
    ensures r == PARTITION_CONFLICT <==> p == Some(running) && running in table && running.kind == OtaApp
    ensures r == NOT_FOUND <==> p.Some? && p.value !in table
    ensures r == INVALID_ARG <==> p.None? || (p.value in table && p.value.kind != OtaApp)
    ensures r == ROLLBACK_INVALID_STATE <==>
              p.Some? && p.value in table && p.value.kind == OtaApp && p.value != running && pendingVerify
  {
    if p.None? then INVALID_ARG
    else if p.value !in table then NOT_FOUND
    else if p.value.kind != OtaApp then INVALID_ARG
    else if p.value == running then PARTITION_CONFLICT
    else if pendingVerify then ROLLBACK_INVALID_STATE
    else OK
  }

  class OtaTable {
    var entries: seq<OtaEntry>
    var lastHandle: u32

    ghost predicate Valid(encrypted: bool)
      reads this, entries, set e | e in entries :: e.partialData
    {
      && (forall i, j :: 0 <= i < j < |entries| ==>
            entries[i] != entries[j] && entries[i].partialData != entries[j].partialData)
      && (forall e :: e in entries ==> e.Valid(encrypted))
    }

    constructor ()
      ensures entries == [] && lastHandle == 0
    {
      entries, lastHandle := [], 0;
    }

    /** The first entry with the handle. */
    method Find(handle: u32) returns (found: Option<nat>)
      ensures found.Some? ==> found.value < |entries| && entries[found.value].handle == handle
                              && forall k :: 0 <= k < found.value ==> entries[k].handle != handle
      ensures found.None? ==> forall k :: 0 <= k < |entries| ==> entries[k].handle != handle
    {
      var i := 0;
      while i < |entries|
        invariant i <= |entries|
        invariant forall k :: 0 <= k < i ==> entries[k].handle != handle
      {
        if entries[i].handle == handle { return Some(i); }
        i := i + 1;
      }
      found := None;
    }

    /** Begins a session: the partition is erased and a new entry is put in front. */
    method Begin(
      flash: Flash, p: Option<Partition>, running: Partition, pendingVerify: bool,
      eraseFailAt: Option<nat>, memOk: bool, ghost encrypted: bool)
      returns (err: Err)
      requires Valid(encrypted) && flash.Valid()
      modifies this, flash
      ensures Valid(encrypted) && flash.Valid() && flash.content.Keys == old(flash.content.Keys)
      ensures BeginRefusal(p, old(flash.content.Keys), running, pendingVerify) != OK ==>
        && err == BeginRefusal(p, old(flash.content.Keys), running, pendingVerify)
        && flash.content == old(flash.content)
      ensures BeginRefusal(p, old(flash.content.Keys), running, pendingVerify) == OK ==>
        && flash.content == old(flash.content)[p.value := flash.content[p.value]]
        && var erased := EraseResult(old(flash.content[p.value]), p.value.size, eraseFailAt);
           flash.content[p.value] == erased.0
           && err == if erased.1 != OK then erased.1 else if memOk then OK else NO_MEM
      ensures err != OK ==> entries == old(entries) && lastHandle == old(lastHandle)
      ensures err == OK ==> p.Some? && |entries| > 0 && entries[1..] == old(entries)
                            && fresh(entries[0]) && fresh(entries[0].partialData)
                            && entries[0].part == p.value && entries[0].View() == Start(p.value.size)
                            && entries[0].handle == lastHandle == AddU32(old(lastHandle), 1)
    {
      err := BeginRefusal(p, flash.content.Keys, running, pendingVerify);
      if err != OK { return; }
      err := ErasePartition(flash, p.value, eraseFailAt);
      if err != OK { return; }
      if !memOk { return NO_MEM; }
      AddEntry(p.value, encrypted);
    }

    /** A new entry with the next handle is put in front. */
    method AddEntry(p: Partition, ghost encrypted: bool)
      requires Valid(encrypted)
      modifies this
      ensures Valid(encrypted)
      ensures |entries| > 0 && entries[1..] == old(entries) && fresh(entries[0]) && fresh(entries[0].partialData)
      ensures entries[0].part == p && entries[0].View() == Start(p.size)
      ensures entries[0].handle == lastHandle == AddU32(old(lastHandle), 1)
    {
      lastHandle := AddU32(lastHandle, 1);
      var entry := new OtaEntry(p, lastHandle);
      assert forall e :: e in entries ==> e != entry && e.partialData != entry.partialData && e.Valid(encrypted);
      assert forall e :: e in [entry] + entries ==> e == entry || e in entries;
      entries := [entry] + entries;
    }

    /** Writes a chunk to the session with the handle. */
    method Write(
      flash: Flash, handle: u32, encrypted: bool, chunk: Option<seq<bv8>>, flushOk: bool, bulkOk: bool)
      returns (err: Err, ghost at: nat)
      requires Valid(encrypted) && flash.Valid()
      requires forall e :: e in entries ==> e.part in flash.content && e.erasedSize > 0
      modifies entries, set e | e in entries :: e.partialData, flash
      ensures Valid(encrypted) && flash.Valid() && flash.content.Keys == old(flash.content.Keys)
      ensures at <= |entries| && forall k :: 0 <= k < at ==> entries[k].handle != handle
      ensures chunk.None? || at == |entries| ==>
        && err == INVALID_ARG && flash.content == old(flash.content)
        && forall e :: e in entries ==> e.View() == old(e.View())
      ensures chunk.Some? && at < |entries| ==>
        var e := entries[at];
        && e in old(entries) && old(e.Valid(encrypted)) && e.handle == handle
        && (e.View(), err) == WriteChunk(old(e.View()), encrypted, chunk.value, flushOk, bulkOk)
        && (old(Held(flash.content[e.part], e.View())) ==> Held(flash.content[e.part], e.View()))
        && flash.content == old(flash.content)[e.part := flash.content[e.part]]
        && forall k :: 0 <= k < |entries| && k != at ==> entries[k].View() == old(entries[k].View())
    {
      at := 0;
      if chunk.None? {
        return INVALID_ARG, 0;
      }
      var found := Find(handle);
      if found.None? {
        return INVALID_ARG, |entries|;
      }
      at := found.value;
      err := entries[found.value].WriteEntry(flash, encrypted, chunk.value, flushOk, bulkOk);
    }

    /** Ends the session with the handle; its entry is removed, whatever happens. */
    method End(flash: Flash, handle: u32, encrypted: bool, tailOk: bool, memOk: bool, imageOk: bool)
      returns (err: Err, ghost at: nat)
      requires Valid(encrypted) && flash.Valid()
      requires forall e :: e in entries ==> e.part in flash.content
      modifies this, entries, set e | e in entries :: e.partialData, flash
      ensures Valid(encrypted) && flash.Valid() && flash.content.Keys == old(flash.content.Keys)
      ensures at <= |old(entries)| && forall k :: 0 <= k < at ==> old(entries)[k].handle != handle
      ensures at == |old(entries)| ==>
        err == NOT_FOUND && flash.content == old(flash.content) && entries == old(entries)
      ensures at < |old(entries)| ==>
        var e := old(entries)[at];
        && e in old(entries) && old(e.Valid(encrypted)) && e.handle == handle && entries == Without(old(entries), at)
        && (e.View(), err) == Finish(old(e.View()), tailOk, memOk, imageOk)
        && (old(Held(flash.content[e.part], e.View())) ==> Held(flash.content[e.part], e.View()))
        && flash.content == old(flash.content)[e.part := flash.content[e.part]]
      ensures forall k :: 0 <= k < |old(entries)| && k != at ==> old(entries)[k].View() == old(entries[k].View())
    {
      var found := Find(handle);
      if found.None? {
        return NOT_FOUND, |entries|;
      }
      at := found.value;
      err := entries[found.value].FinishEntry(flash, encrypted, tailOk, memOk, imageOk);
      entries := Without(entries, found.value);
    }
  }
}
