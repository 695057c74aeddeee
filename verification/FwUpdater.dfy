/** The firmware update as the firmware runs it: callbacks that write to the flash, and the
    steps that stop at the first failure. */
module FwUpdater {
  import opened Common
  import opened OtaSession
  import opened FlashChip
  import opened OtaWriter
  import opened OtaOps
  import opened FwUpdate

  /** A download into a data partition: the place of the next write, and an error flag. */
  class DataDownload {
    const part: Partition
    var offset: nat
    var isError: bool
    ghost var log: seq<Write>

    constructor (part: Partition)
      ensures this.part == part && View() == Download(Start(part.size), false)
    {
      this.part := part;
      offset, isError, log := 0, false, [];
    }

    /** The carry buffer of a session is not used here. */
    ghost function View(): Download
      reads this
    {
      Download(Start(part.size).(wrote := offset, log := log), isError)
    }

    /** Writes at the place reached so far. */
    method Append(flash: Flash, bytes: seq<bv8>, works: bool) returns (err: Err)
      requires flash.Valid() && part in flash.content
      requires Tiles(log, offset) && Held(flash.content[part], View().s)
      modifies `offset, `log, flash
      ensures flash.Valid() && part in flash.content
      ensures (View().s, err) == BulkWrite(old(View().s), bytes, works)
      ensures Tiles(log, offset) && Held(flash.content[part], View().s)
      ensures flash.content == old(flash.content)[part := flash.content[part]]
    {
      ghost var s, mem := View().s, flash.content[part];
      err := flash.Write(part, offset, bytes, works);
      assert err == OK <==> Takes(s, bytes, works);
      if err == OK {
        TilesSnoc(log, offset, bytes);
        HeldAfterWrite(mem, s, bytes);
        offset, log := offset + |bytes|, log + [Write(offset, bytes)];
      }
    }

    method OnRecvData(flash: Flash, ev: Event) returns (goOn: bool)
      requires flash.Valid() && part in flash.content
      requires Tiles(log, offset) && Held(flash.content[part], View().s)
      modifies this, flash
      ensures flash.Valid() && part in flash.content
      ensures (View(), goOn) == OnData(old(View()), ev)
      ensures Tiles(log, offset) && Held(flash.content[part], View().s)
      ensures flash.content == old(flash.content)[part := flash.content[part]]
    {
      if isError { return false; }
      if ev.code != OKAY {
        isError := !Redirect(ev.code);
        return !isError;
      }
      var err := Append(flash, ev.data, ev.bulkOk);
      isError := err != OK;
      goOn := !isError;
    }
  }

  lemma HeldIsMemory(mem: seq<bv8>, s: Session)
    requires s.wrote <= s.size == |mem| && Tiles(s.log, s.wrote) && Held(mem, s)
    ensures mem == Memory(s)
  {
  }

  lemma FreshIsHeld(size: nat)
    ensures Held(Fills(size), Start(size))
  {
  }

  /** What a session does, given its last state. */
  lemma SessionIs(content: Content, app: Partition, env: OtaEnv, s: Session, err: Err)
    requires Sized(content) && app in content
    requires (s, err) == Finish(OtaEvents(app.size, env.encrypted, env.events).s, env.tailOk, env.memOk, env.imageOk)
    ensures s.wrote <= s.size && Tiles(s.log, s.wrote)
    ensures FwUpdate.RunSession(content, app, env)
      == (content[app := Memory(s)],
          err == OK && env.completed && !OtaEvents(app.size, env.encrypted, env.events).isError)
  {
    FinishWf(OtaEvents(app.size, env.encrypted, env.events).s, env.encrypted, env.tailOk, env.memOk, env.imageOk);
  }

  class Updater {
    const flash: Flash
    const ota: OtaTable
    var otaBoot: Partition
    var info: FlashInfo

    constructor (flash: Flash, info: FlashInfo)
      ensures this.flash == flash && this.info == info && otaBoot == info.boot
      ensures fresh(ota) && ota.entries == []
    {
      this.flash, this.info, otaBoot := flash, info, info.boot;
      ota := new OtaTable();
    }

    ghost function View(): Gateway
      reads this, flash
    {
      Gateway(flash.content, otaBoot, info)
    }

    ghost predicate Idle()
      reads this, flash, ota
    {
      flash.Valid() && Known(View()) && ota.entries == []
    }

    /** Downloads a file into a data partition. */
    method UpdatePartition(p: Partition, env: DataEnv) returns (ok: bool)
      requires flash.Valid() && Sized(flash.content) && p in flash.content
      modifies flash
      ensures flash.Valid() && (flash.content, ok) == UpdateData(old(flash.content), p, env)
    {
      if !env.urlOk { return false; }
      var err := ErasePartition(flash, p, env.eraseFailAt);
      if err != OK { return false; }
      var d := new DataDownload(p);
      FreshIsHeld(p.size);
      for i := 0 to |env.events|
        invariant flash.Valid() && p in flash.content
        invariant d.View() == DataEvents(p.size, env.events[..i])
        invariant Held(flash.content[p], d.View().s)
        invariant flash.content == old(flash.content)[p := flash.content[p]]
      {
        var goOn := d.OnRecvData(flash, env.events[i]);
        TakeSnoc(env.events, i);
      }
      TakeAll(env.events);
      HeldIsMemory(flash.content[p], d.View().s);
      ok := env.completed && !d.isError;
    }

    /** Downloads the app image through an OTA session, which is ended in any case. */
    method UpdateApp(env: OtaEnv) returns (ok: bool)
      requires flash.Valid() && Sized(flash.content) && ota.entries == []
      modifies flash, ota
      ensures flash.Valid() && (flash.content, ok) == UpdateOta(old(flash.content), info, env)
      ensures ota.entries == []
    {
      if !env.urlOk { return false; }
      var app := info.nextApp;
      var err := ota.Begin(flash, Some(app), info.running, env.pendingVerify, env.eraseFailAt, env.entryOk,
        env.encrypted);
      if err != OK { return false; }
      ok := RunSession(ota.entries[0], ota.lastHandle, env);
    }

    /** The session: download, then end, also after a failed download. */
    method RunSession(entry: OtaEntry, handle: u32, env: OtaEnv) returns (ok: bool)
      requires InSession(entry, handle, env.encrypted)
      requires Sized(flash.content) && entry.View() == Start(entry.part.size)
      requires flash.content[entry.part] == Fills(entry.part.size)
      modifies flash, ota, entry, entry.partialData
      ensures flash.Valid() && ota.entries == []
      ensures (flash.content, ok) == FwUpdate.RunSession(old(flash.content), entry.part, env)
    {
      var isError := DownloadApp(entry, handle, env);
      var err := EndSession(entry, handle, env);
      SessionIs(old(flash.content), entry.part, env, entry.View(), err);
      HeldIsMemory(flash.content[entry.part], entry.View());
      assert flash.content == old(flash.content)[entry.part := Memory(entry.View())];
      ok := err == OK && env.completed && !isError;
    }

    method EndSession(entry: OtaEntry, handle: u32, env: OtaEnv) returns (err: Err)
      requires InSession(entry, handle, env.encrypted)
      modifies flash, ota, entry, entry.partialData
      ensures flash.Valid() && ota.entries == [] && entry.part in flash.content
      ensures |old(entry.View()).buf| == BLOCK
      ensures (entry.View(), err) == Finish(old(entry.View()), env.tailOk, env.memOk, env.imageOk)
      ensures old(Held(flash.content[entry.part], entry.View())) ==> Held(flash.content[entry.part], entry.View())
      ensures flash.content == old(flash.content)[entry.part := flash.content[entry.part]]
    {
      assert ota.entries[0].handle == handle;
      ghost var at;
      err, at := ota.End(flash, handle, env.encrypted, env.tailOk, env.memOk, env.imageOk);
      assert at == 0;
    }

    ghost predicate InSession(entry: OtaEntry, handle: u32, encrypted: bool)
      reads this, flash, ota, ota.entries, set e | e in ota.entries :: e.partialData, entry, entry.partialData
    {
      && flash.Valid() && ota.Valid(encrypted) && ota.entries == [entry] && entry.handle == handle
      && entry.part in flash.content && entry.part.size > 0
    }

    method DownloadApp(entry: OtaEntry, handle: u32, env: OtaEnv) returns (isError: bool)
      requires InSession(entry, handle, env.encrypted)
      requires entry.View() == Start(entry.part.size) && flash.content[entry.part] == Fills(entry.part.size)
      modifies flash, entry, entry.partialData
      ensures InSession(entry, handle, env.encrypted)
      ensures Download(entry.View(), isError) == OtaEvents(entry.part.size, env.encrypted, env.events)
      ensures Held(flash.content[entry.part], entry.View())
      ensures flash.content == old(flash.content)[entry.part := flash.content[entry.part]]
    {
      isError := false;
      FreshIsHeld(entry.part.size);
      for i := 0 to |env.events|
        invariant InSession(entry, handle, env.encrypted)
        invariant Download(entry.View(), isError) == OtaEvents(entry.part.size, env.encrypted, env.events[..i])
        invariant Held(flash.content[entry.part], entry.View())
        invariant flash.content == old(flash.content)[entry.part := flash.content[entry.part]]
      {
        TakeSnoc(env.events, i);
        isError := OnOtaRecvData(entry, handle, env.encrypted, env.events[i], isError, env.events[..i]);
      }
      TakeAll(env.events);
    }

    /** The callback for a part of the file; `before` are the parts it has seen. */
    method OnOtaRecvData(
      entry: OtaEntry, handle: u32, encrypted: bool, ev: Event, wasError: bool, ghost before: seq<Event>)
      returns (isError: bool)
      requires InSession(entry, handle, encrypted)
      requires Download(entry.View(), wasError) == OtaEvents(entry.part.size, encrypted, before)
      requires Held(flash.content[entry.part], entry.View())
      modifies flash, entry, entry.partialData
      ensures InSession(entry, handle, encrypted)
      ensures Download(entry.View(), isError) == OtaEvents(entry.part.size, encrypted, before + [ev])
      ensures Held(flash.content[entry.part], entry.View())
      ensures flash.content == old(flash.content)[entry.part := flash.content[entry.part]]
    {
      assert (before + [ev])[..|before|] == before;
      if wasError { return true; }
      if ev.code != OKAY {
        return !Redirect(ev.code);
      }
      assert ota.entries[0].handle == handle;
      var err; ghost var at;
      err, at := ota.Write(flash, handle, encrypted, Some(ev.data), ev.flushOk, ev.bulkOk);
      assert at == 0;
      isError := err != OK;
    }

    /** The whole update. */
    method RunActions(env: Env) returns (ok: bool)
      requires Idle()
      modifies this, flash, ota
      ensures Idle() && (View(), ok) == DoActions(old(View()), env)
    {
      ok := UpdateApp(env.ota);
      if !ok { return; }
      ok := UpdatePartition(info.nextGwui, env.gwui);
      if !ok { return; }
      ok := UpdatePartition(info.nextNrf, env.nrf);
      if !ok { return; }
      if !env.setBootOk { return false; }
      otaBoot := info.nextApp;
      info := info.(boot := info.nextApp, isOta0 := !info.isOta0);
      ok := env.nrfFlashed;
    }
  }
}
