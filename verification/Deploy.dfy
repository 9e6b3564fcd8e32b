/** Apply and Rollback: a deployment of many fallible steps over the live file, the
    directories it refers to and the version table. */
module Deploy {
  import opened Wrappers
  import opened ErrorPages
  import opened Publish
  import opened References
  import opened Staging
  import opened Versions

  /** What every fallible call of one Apply answers, in the order of the calls. A live
      file that cannot be read counts as absent. */
  datatype ApplyCalls = ApplyCalls(
    render: Option<string>, stageOk: bool, checkOk: bool, checkOutput: string,
    readable: bool, backupOk: bool,
    pages: seq<ErrorPage>, pageCalls: PublishCalls,
    certs: seq<Certificate>, certCalls: PublishCalls,
    writeOk: bool, recordFault: bool,
    reloadOk: bool, reloadOutput: string, statusOk: bool, statusOutput: string,
    markFault: bool, restoreOk: bool,
    keep: int, trimFault: bool,
    actor: string, comment: string)

  datatype ApplyOutcome =
    | RenderFailed | StageFailed | CheckRejected | BackupFailed | PagesFailed | CertsFailed
    | WriteFailed | RecordFailed | ReloadRejected | AppliedAs(id: nat)

  /** The live file and the version table. */
  datatype Disk = Disk(config: Option<string>, table: Rows)

  predicate Checked(c: ApplyCalls) {
    c.render.Some? && c.stageOk && c.checkOk
  }

  /** The files of this Apply can all be written. */
  predicate Writable(c: ApplyCalls, pageDir: Listing, certDir: Listing) {
    && PagesWritable(pageDir, c.pages, c.pageCalls)
    && CertsWritable(certDir, c.certs, c.certCalls)
    && c.writeOk
  }

  /** The file that a failed reload can go back to. */
  function Previous(config: Option<string>, c: ApplyCalls): Option<string> {
    if c.readable then config else None
  }

  /** Apply gets as far as replacing the live file. */
  predicate Replaces(d: Disk, c: ApplyCalls, writable: bool) {
    Checked(c) && (Previous(d.config, c).Some? ==> c.backupOk) && writable
  }

  /** Apply gets as far as publishing. */
  predicate Starts(config: Option<string>, c: ApplyCalls) {
    Checked(c) && (Previous(config, c).Some? ==> c.backupOk)
  }

  predicate CameUp(c: ApplyCalls) {
    c.reloadOk && c.statusOk
  }

  /** The previous file is put back. */
  predicate Restores(d: Disk, c: ApplyCalls) {
    !c.recordFault && !CameUp(c) && Previous(d.config, c).Some? && c.restoreOk
  }

  /** The output kept with a failed version. */
  function FailureOutput(c: ApplyCalls): string {
    if c.reloadOk then Text.TrimSpace(c.reloadOutput + "\n" + c.statusOutput) else c.reloadOutput
  }

  function ConfigAfterApply(d: Disk, c: ApplyCalls, writable: bool): Option<string> {
    if Replaces(d, c, writable) && !Restores(d, c) then c.render else d.config
  }

  function TableAfterRecord(t: Rows, content: string, c: ApplyCalls): Rows {
    if c.recordFault then t
    else
      var added := t.Added(content, Applied, c.comment, c.actor, "");
      if CameUp(c) then (if c.trimFault then added else added.Trimmed(c.keep))
      else if c.markFault then added
      else added.Marked(t.nextId, Failed, FailureOutput(c))
  }

  function TableAfterApply(d: Disk, c: ApplyCalls, writable: bool): Rows {
    if c.render.Some? && c.stageOk && !c.checkOk && !c.recordFault then
      d.table.Added(c.render.value, Failed, c.comment, c.actor, c.checkOutput)
    else if !Replaces(d, c, writable) then d.table
    else TableAfterRecord(d.table, c.render.value, c)
  }

  function AfterApply(d: Disk, c: ApplyCalls, writable: bool): Disk {
    Disk(ConfigAfterApply(d, c, writable), TableAfterApply(d, c, writable))
  }

  datatype RollbackCalls = RollbackCalls(
    stageOk: bool, checkOk: bool, writeOk: bool, reloadOk: bool, recordFault: bool, markFault: bool, actor: string)

  datatype RollbackOutcome = NotFound | Unstaged | NoLongerValid | Unwritten | Unreloaded | Restored(id: Option<nat>)

  function RollbackComment(id: nat): string {
    "rollback to version " + Text.Dec(id)
  }

  function AfterRollback(d: Disk, id: nat, c: RollbackCalls): Disk {
    var v := d.table.Get(id);
    if v == None || !c.stageOk || !c.checkOk || !c.writeOk then d
    else if !c.reloadOk then d.(config := Some(v.value.content))
    else
      var added := if c.recordFault then d.table
                   else d.table.Added(v.value.content, Applied, RollbackComment(id), c.actor, "");
      Disk(Some(v.value.content), if c.markFault then added else added.Marked(id, RolledBack, ""))
  }

  /** The row of a reload that did not come up, as the store's answers leave it. */
  function RejectedRow(id: nat, c: ApplyCalls): (v: Version)
    requires c.render.Some?
    ensures v.id == id && v.content == c.render.value && v.comment == c.comment && v.author == c.actor
    ensures v.status == if c.markFault then Applied else Failed
    ensures c.markFault ==> v.error == ""
    ensures !c.markFault ==>
      var output := if c.reloadOk then Text.TrimSpace(c.reloadOutput + "\n" + c.statusOutput) else c.reloadOutput;
      v.error == if |output| <= 4000 then output else output[..4000]
  {
    if c.markFault then Version(id, c.render.value, Applied, c.comment, c.actor, "")
    else Version(id, c.render.value, Failed, c.comment, c.actor, Truncate(FailureOutput(c)))
  }

  lemma AfterApplyCases(d: Disk, c: ApplyCalls, writable: bool)
    ensures var after := AfterApply(d, c, writable);
      && (c.render == None || !c.stageOk ==> after == d)
      && (c.render.Some? && c.stageOk && !c.checkOk ==>
            after == if c.recordFault then d
                     else d.(table := d.table.Added(c.render.value, Failed, c.comment, c.actor, c.checkOutput)))
      && (Checked(c) && !Replaces(d, c, writable) ==> after == d)
      && (Replaces(d, c, writable) ==>
            after == Disk(if !c.recordFault && !CameUp(c) && Previous(d.config, c).Some? && c.restoreOk
                          then d.config else c.render,
                          TableAfterRecord(d.table, c.render.value, c)))
  {
    hide TableAfterRecord, CameUp;
  }

  /** The last keep rows, but never fewer than five if there are as many. */
  predicate NewestOf(kept: seq<Version>, all: seq<Version>, keep: int) {
    && |kept| == (if |all| <= 5 || |all| <= keep then |all| else if keep < 5 then 5 else keep)
    && kept == all[|all| - |kept|..]
  }

  /** What recording leaves in the table, row by row. */
  lemma RowsAfterRecord(t: Rows, c: ApplyCalls)
    requires t.Valid() && c.render.Some?
    ensures var after := TableAfterRecord(t, c.render.value, c);
            && (c.recordFault ==> after == t)
            && (!c.recordFault && !CameUp(c) ==> after.rows == t.rows + [RejectedRow(t.nextId, c)])
            && (!c.recordFault && CameUp(c) ==>
                  var all := t.rows + [Version(t.nextId, c.render.value, Applied, c.comment, c.actor, "")];
                  if c.trimFault then after.rows == all else NewestOf(after.rows, all, c.keep))
  {
    AddedThenMarked(t, c.render.value, c.comment, c.actor, FailureOutput(c));
    hide FailureOutput;
  }

  lemma RowsAfterRejection(t: Rows, c: ApplyCalls)
    requires c.render.Some?
    ensures t.Added(c.render.value, Failed, c.comment, c.actor, c.checkOutput).rows
         == t.rows + [Version(t.nextId, c.render.value, Failed, c.comment, c.actor,
                              if |c.checkOutput| <= 4000 then c.checkOutput else c.checkOutput[..4000])]
  {
  }

  class Deployer {
    const versions: VersionTable
    const pageDir: Directory
    const certDir: Directory
    var config: Option<string>

    ghost function AsDisk(): Disk
      reads this, versions
    {
      Disk(config, versions.state)
    }

    ghost predicate Valid()
      reads this, versions
    {
      pageDir != certDir && versions.state.Valid()
    }

    constructor (pages: Directory, certs: Directory, table: VersionTable, live: Option<string>)
      requires pages != certs && table.state.Valid()
      ensures Valid() && AsDisk() == Disk(live, table.state)
      ensures pageDir == pages && certDir == certs && versions == table
    {
      versions, pageDir, certDir, config := table, pages, certs, live;
    }

    /** Records the new file and asks for the reload; a reload that does not come up
        marks the version and puts the previous file back. */
    method Record(content: string, previous: Option<string>, c: ApplyCalls) returns (out: ApplyOutcome)
      requires Valid() && c.render == Some(content)
      modifies this, versions
      ensures Valid()
      ensures pageDir.entries == old(pageDir.entries) && certDir.entries == old(certDir.entries)
      ensures out == RecordFailed <==> c.recordFault
      ensures out == ReloadRejected <==> !c.recordFault && !CameUp(c)
      ensures out.AppliedAs? <==> !c.recordFault && CameUp(c)
      ensures out.AppliedAs? ==> out.id == old(versions.state.nextId)
      ensures config == if out == ReloadRejected && previous.Some? && c.restoreOk then previous else old(config)
      ensures versions.state == TableAfterRecord(old(versions.state), content, c)
      ensures out == RecordFailed ==> versions.state == old(versions.state)
      ensures out == ReloadRejected ==>
        versions.state.rows == old(versions.state.rows) + [RejectedRow(old(versions.state.nextId), c)]
      ensures out.AppliedAs? ==>
        var all := old(versions.state.rows)
          + [Version(old(versions.state.nextId), c.render.value, Applied, c.comment, c.actor, "")];
        if c.trimFault then versions.state.rows == all else NewestOf(versions.state.rows, all, c.keep)
    {
      hide Text.TrimSpace, LastApplied, Find, Without, Truncate, Rows.Valid, Rows.Get, Rows.LatestApplied,
           RejectedRow, Rows.Trimmed, Rows.Marked, Rows.Added, NewestOf;
      RowsAfterRecord(versions.state, c);
      var id := versions.AddVersion(content, Applied, c.comment, c.actor, "", c.recordFault);
      if id == None {
        return RecordFailed;
      }
      var up, output := c.reloadOk, c.reloadOutput;
      if up && !c.statusOk {
        up, output := false, Text.TrimSpace(c.reloadOutput + "\n" + c.statusOutput);
      }
      if !up {
        versions.MarkVersion(id.value, Failed, output, c.markFault);
        if previous.Some? && c.restoreOk {
          config := previous;
        }
        return ReloadRejected;
      }
      versions.TrimVersions(c.keep, c.trimFault);
      out := AppliedAs(id.value);
    }

    /** Save & Apply. */
    method Apply(c: ApplyCalls) returns (out: ApplyOutcome)
      requires Valid()
      modifies this, versions, pageDir, certDir
      ensures Valid()
      ensures AsDisk() == AfterApply(old(AsDisk()), c, old(Writable(c, pageDir.entries, certDir.entries)))
      // what comes of it
      ensures out == RenderFailed <==> c.render == None
      ensures out == StageFailed <==> c.render.Some? && !c.stageOk
      ensures out == CheckRejected <==> c.render.Some? && c.stageOk && !c.checkOk
      ensures out == BackupFailed <==>
        c.render.Some? && c.stageOk && c.checkOk && c.readable && old(config).Some? && !c.backupOk
      ensures out == PagesFailed <==>
        Starts(old(config), c) && !old(PagesWritable(pageDir.entries, c.pages, c.pageCalls))
      ensures out == CertsFailed <==>
        && Starts(old(config), c) && old(PagesWritable(pageDir.entries, c.pages, c.pageCalls))
        && !old(CertsWritable(certDir.entries, c.certs, c.certCalls))
      ensures out == WriteFailed <==>
        && Starts(old(config), c) && old(PagesWritable(pageDir.entries, c.pages, c.pageCalls))
        && old(CertsWritable(certDir.entries, c.certs, c.certCalls)) && !c.writeOk
      ensures out == RecordFailed <==>
        Replaces(old(AsDisk()), c, old(Writable(c, pageDir.entries, certDir.entries))) && c.recordFault
      ensures out == ReloadRejected <==>
        Replaces(old(AsDisk()), c, old(Writable(c, pageDir.entries, certDir.entries))) && !c.recordFault && !CameUp(c)
      ensures out.AppliedAs? <==>
        Replaces(old(AsDisk()), c, old(Writable(c, pageDir.entries, certDir.entries))) && !c.recordFault && CameUp(c)
      ensures out.AppliedAs? ==> out.id == old(versions.state.nextId)
      // what the directories hold then
      ensures out in {RenderFailed, StageFailed, CheckRejected, BackupFailed} ==>
        pageDir.entries == old(pageDir.entries)
      ensures out in {RenderFailed, StageFailed, CheckRejected, BackupFailed, PagesFailed} ==>
        certDir.entries == old(certDir.entries)
      ensures out == PagesFailed ==>
        exists k :: 0 <= k <= |c.pages| && pageDir.entries == Overlay(old(pageDir.entries), PageFiles(c.pages[..k]))
      ensures out == CertsFailed ==>
        exists k :: 0 <= k <= |c.certs| && certDir.entries == Overlay(old(certDir.entries), CertFiles(c.certs[..k]))
      ensures out in {CertsFailed, WriteFailed, RecordFailed, ReloadRejected} || out.AppliedAs? ==>
        Published(old(pageDir.entries), pageDir.entries, PAGE_SUFFIX, PageFiles(c.pages), c.pageCalls.stuck)
      ensures out in {WriteFailed, RecordFailed, ReloadRejected} || out.AppliedAs? ==>
        Published(old(certDir.entries), certDir.entries, CERT_SUFFIX, CertFiles(c.certs), c.certCalls.stuck)
      // the version table
      ensures out == CheckRejected && !c.recordFault ==>
        versions.state.rows == old(versions.state.rows)
          + [Version(old(versions.state.nextId), c.render.value, Failed, c.comment, c.actor,
                     if |c.checkOutput| <= 4000 then c.checkOutput else c.checkOutput[..4000])]
      ensures out == ReloadRejected ==>
        versions.state.rows == old(versions.state.rows) + [RejectedRow(old(versions.state.nextId), c)]
      ensures out.AppliedAs? ==>
        var all := old(versions.state.rows)
          + [Version(old(versions.state.nextId), c.render.value, Applied, c.comment, c.actor, "")];
        if c.trimFault then versions.state.rows == all else NewestOf(versions.state.rows, all, c.keep)
      ensures !(out == CheckRejected && !c.recordFault) && out != ReloadRejected && !out.AppliedAs? ==>
        versions.state == old(versions.state)
      // the live file
      ensures out in {RenderFailed, StageFailed, CheckRejected, BackupFailed, PagesFailed, CertsFailed, WriteFailed} ==>
        config == old(config)
      ensures out == RecordFailed || out.AppliedAs? ==> config == c.render
      ensures out == ReloadRejected ==>
        config == if Previous(old(config), c).Some? && c.restoreOk then old(config) else c.render
    {
      hide PagesWritable, CertsWritable, Published, PageFiles, CertFiles, TableAfterRecord, LastApplied, Find,
           Without, Truncate, Rows.Valid, Rows.Get, Rows.LatestApplied, Rows.Added, Rows.Marked, Rows.Trimmed,
           RejectedRow, NewestOf, AfterApply, ConfigAfterApply, TableAfterApply, Overlay, FailureOutput, CameUp;
      AfterApplyCases(AsDisk(), c, Writable(c, pageDir.entries, certDir.entries));
      var stopped := Prepare(c);
      if stopped.Some? {
        if c.render.Some? {
          RowsAfterRejection(old(versions.state), c);
        }
        return stopped.value;
      }
      var previous := Previous(config, c);
      var failed := Replace(c.render.value, c);
      if failed.Some? {
        return failed.value;
      }
      out := Record(c.render.value, previous, c);
    }

    /** Render, stage, check and back up: says where Apply stopped before it changed
        anything but the version table. */
    method Prepare(c: ApplyCalls) returns (stopped: Option<ApplyOutcome>)
      requires versions.state.Valid()
      modifies versions
      ensures versions.state.Valid()
      ensures stopped == Some(RenderFailed) <==> c.render == None
      ensures stopped == Some(StageFailed) <==> c.render.Some? && !c.stageOk
      ensures stopped == Some(CheckRejected) <==> c.render.Some? && c.stageOk && !c.checkOk
      ensures stopped == Some(BackupFailed) <==>
        c.render.Some? && c.stageOk && c.checkOk && Previous(config, c).Some? && !c.backupOk
      ensures stopped in {None, Some(RenderFailed), Some(StageFailed), Some(CheckRejected), Some(BackupFailed)}
      ensures versions.state ==
        if stopped == Some(CheckRejected) && !c.recordFault
        then old(versions.state).Added(c.render.value, Failed, c.comment, c.actor, c.checkOutput)
        else old(versions.state)
    {
      hide Previous, LastApplied, Find, Truncate, Rows.Valid, Rows.Get, Rows.LatestApplied, Rows.Added;
      stopped := None;
      if c.render == None {
        return Some(RenderFailed);
      }
      var content := c.render.value;
      if !c.stageOk {
        return Some(StageFailed);
      }
      if !c.checkOk {
        var rejected := versions.AddVersion(content, Failed, c.comment, c.actor, c.checkOutput, c.recordFault);
        return Some(CheckRejected);
      }
      if Previous(config, c).Some? && !c.backupOk {
        return Some(BackupFailed);
      }
    }

    /** Publishes the supporting files, then the file itself; says where it stopped. */
    method Replace(content: string, c: ApplyCalls) returns (failed: Option<ApplyOutcome>)
      requires pageDir != certDir
      modifies this, pageDir, certDir
      ensures failed == Some(PagesFailed) <==> !old(PagesWritable(pageDir.entries, c.pages, c.pageCalls))
      ensures failed == Some(CertsFailed) <==>
        && old(PagesWritable(pageDir.entries, c.pages, c.pageCalls))
        && !old(CertsWritable(certDir.entries, c.certs, c.certCalls))
      ensures failed == Some(WriteFailed) <==>
        && old(PagesWritable(pageDir.entries, c.pages, c.pageCalls))
        && old(CertsWritable(certDir.entries, c.certs, c.certCalls)) && !c.writeOk
      ensures failed in {None, Some(PagesFailed), Some(CertsFailed), Some(WriteFailed)}
      ensures config == if failed == None then Some(content) else old(config)
      ensures failed == Some(PagesFailed) ==> certDir.entries == old(certDir.entries)
      ensures failed == Some(PagesFailed) ==>
        exists k :: 0 <= k <= |c.pages| && pageDir.entries == Overlay(old(pageDir.entries), PageFiles(c.pages[..k]))
      ensures failed == Some(CertsFailed) ==>
        exists k :: 0 <= k <= |c.certs| && certDir.entries == Overlay(old(certDir.entries), CertFiles(c.certs[..k]))
      ensures failed != Some(PagesFailed) ==>
        Published(old(pageDir.entries), pageDir.entries, PAGE_SUFFIX, PageFiles(c.pages), c.pageCalls.stuck)
      ensures failed == None || failed == Some(WriteFailed) ==>
        Published(old(certDir.entries), certDir.entries, CERT_SUFFIX, CertFiles(c.certs), c.certCalls.stuck)
    {
      hide *;
      failed := None;
      var pagesOk := pageDir.WriteErrorPages(c.pages, c.pageCalls);
      if !pagesOk {
        return Some(PagesFailed);
      }
      var certsOk := certDir.WriteCertificates(c.certs, c.certCalls);
      if !certsOk {
        return Some(CertsFailed);
      }
      if !c.writeOk {
        return Some(WriteFailed);
      }
      config := Some(content);
    }

    /** Save & Apply of the rows: the text is rendered from what is published, so once
        it is live its references resolve. */
    method ApplyRows(site: Site, pagePath: string, certPath: string, calls: ApplyCalls)
      returns (out: ApplyOutcome, tokens: seq<Token>, c: ApplyCalls)
      requires Valid()
      modifies this, versions, pageDir, certDir
      ensures Valid()
      ensures Renders(tokens, site, calls.pages, calls.certs) && RenderedFrom(tokens, calls.pages, calls.certs)
      ensures c == if calls.render == None then calls
                   else calls.(render := Some(Rendered(tokens, pagePath, certPath)))
      ensures AsDisk() == AfterApply(old(AsDisk()), c, old(Writable(c, pageDir.entries, certDir.entries)))
      ensures out == RecordFailed || out.AppliedAs? ==>
        && config == Some(Rendered(tokens, pagePath, certPath))
        && Resolves(tokens, pageDir.entries, certDir.entries)
    {
      hide *;
      tokens := RenderText(site, calls.pages, calls.certs);
      c := if calls.render == None then calls else calls.(render := Some(Rendered(tokens, pagePath, certPath)));
      out := Apply(c);
      if out == RecordFailed || out.AppliedAs? {
        StartsRendered(old(config), c);
        PublishedResolves(
          tokens, c.pages, c.certs, old(pageDir.entries), pageDir.entries, old(certDir.entries), certDir.entries,
          c.pageCalls.stuck, c.certCalls.stuck);
      }
    }

    method Rollback(id: nat, c: RollbackCalls) returns (out: RollbackOutcome)
      requires Valid()
      modifies this, versions
      ensures Valid()
      ensures AsDisk() == AfterRollback(old(AsDisk()), id, c)
      // what comes of it
      ensures out == NotFound <==> old(versions.state).Get(id) == None
      ensures out == Unstaged <==> old(versions.state).Get(id).Some? && !c.stageOk
      ensures out == NoLongerValid <==> old(versions.state).Get(id).Some? && c.stageOk && !c.checkOk
      ensures out == Unwritten <==> old(versions.state).Get(id).Some? && c.stageOk && c.checkOk && !c.writeOk
      ensures out == Unreloaded <==>
        old(versions.state).Get(id).Some? && c.stageOk && c.checkOk && c.writeOk && !c.reloadOk
      ensures out.Restored? <==>
        old(versions.state).Get(id).Some? && c.stageOk && c.checkOk && c.writeOk && c.reloadOk
      ensures out.Restored? ==> out.id == if c.recordFault then None else Some(old(versions.state.nextId))
      // the live file
      ensures config == if out == Unreloaded || out.Restored? then Some(old(versions.state).Get(id).value.content)
                        else old(config)
      // the version table: a new applied row, and the old one marked
      ensures !out.Restored? ==> versions.state == old(versions.state)
      ensures out.Restored? && !c.recordFault ==>
        versions.state.rows[|old(versions.state.rows)|..]
        == [Version(old(versions.state.nextId), config.value, Applied,
                    "rollback to version " + Text.Dec(id), c.actor, "")]
      ensures out.Restored? && c.recordFault ==> |versions.state.rows| == |old(versions.state.rows)|
      ensures out.Restored? ==>
        forall k :: 0 <= k < |old(versions.state.rows)| ==>
          versions.state.rows[k] ==
            if old(versions.state.rows)[k].id == id && !c.markFault
            then old(versions.state.rows)[k].(status := RolledBack, error := "") else old(versions.state.rows)[k]
    {
      hide LastApplied, Find, Without, Rows.LatestApplied, Rows.Added, Rows.Marked, Rows.Valid, Truncate;
      FoundEarlier(versions.state, id);
      RowsAfterRollback(versions.state, id, c);
      var v := versions.state.Get(id);
      if v == None {
        return NotFound;
      }
      if !c.stageOk {
        return Unstaged;
      }
      if !c.checkOk {
        return NoLongerValid;
      }
      if !c.writeOk {
        return Unwritten;
      }
      config := Some(v.value.content);
      if !c.reloadOk {
        return Unreloaded;
      }
      var newId := versions.AddVersion(v.value.content, Applied, RollbackComment(id), c.actor, "", c.recordFault);
      versions.MarkVersion(id, RolledBack, "", c.markFault);
      out := Restored(newId);
    }
  }

  /** What a rollback leaves in the table, row by row. */
  lemma RowsAfterRollback(t: Rows, id: nat, c: RollbackCalls)
    requires t.Valid() && (t.Get(id).Some? ==> id < t.nextId)
    ensures t.Get(id).Some? && c.stageOk && c.checkOk && c.writeOk && c.reloadOk ==>
      var v, rows := t.Get(id).value, AfterRollback(Disk(None, t), id, c).table.rows;
      && |rows| == |t.rows| + (if c.recordFault then 0 else 1)
      && (!c.recordFault ==>
            rows[|t.rows|..]
            == [Version(t.nextId, v.content, Applied, "rollback to version " + Text.Dec(id), c.actor, "")])
      && forall k :: 0 <= k < |t.rows| ==>
           rows[k] == if t.rows[k].id == id && !c.markFault then t.rows[k].(status := RolledBack, error := "")
                      else t.rows[k]
  {
    hide Find, Text.Dec;
  }

  lemma FoundEarlier(t: Rows, id: nat)
    requires t.Valid()
    ensures t.Get(id).Some? ==> id < t.nextId
  {
    hide Find;
  }

  lemma StartsRendered(config: Option<string>, c: ApplyCalls)
    ensures Starts(config, c) ==> c.render.Some?
  {
  }

  // ---- the log and the live file

  /** Whenever some version counts as applied, the newest one is the live file. */
  predicate Agrees(d: Disk) {
    d.table.LatestApplied().Some? ==> d.config == Some(d.table.LatestApplied().value.content)
  }

  /** The log's idea of the live file is this text, or it has none. */
  predicate Expects(t: Rows, content: string) {
    t.LatestApplied().Some? ==> t.LatestApplied().value.content == content
  }

  /** The answers with which an Apply leaves log and file apart: the file was replaced
      and stays, unrecorded or marked failed, though the log expects another text; or
      it was put back but the new version still counts as applied. */
  predicate ApplyParts(d: Disk, c: ApplyCalls, writable: bool) {
    && Replaces(d, c, writable)
    && (|| (c.recordFault && !Expects(d.table, c.render.value))
        || (!c.recordFault && !CameUp(c) && c.markFault && Restores(d, c) && d.config != c.render)
        || (!c.recordFault && !CameUp(c) && !c.markFault && !Restores(d, c) && !Expects(d.table, c.render.value)))
  }

  lemma FailedRowChangesNothing(t: Rows, content: string, comment: string, author: string, error: string)
    ensures t.Added(content, Failed, comment, author, error).LatestApplied() == t.LatestApplied()
  {
    AddedLatest(t, content, Failed, comment, author, error);
  }

  /** From agreement, an Apply with any answers keeps it exactly unless it parts them. */
  lemma ApplyAgreement(d: Disk, c: ApplyCalls, writable: bool)
    requires d.table.Valid() && Agrees(d)
    ensures Agrees(AfterApply(d, c, writable)) <==> !ApplyParts(d, c, writable)
    ensures AfterApply(d, c, writable).table.Valid()
  {
    hide Text.TrimSpace, LastApplied;
    if c.render.Some? {
      var content := c.render.value;
      var added := d.table.Added(content, Applied, c.comment, c.actor, "");
      FailedRowChangesNothing(d.table, content, c.comment, c.actor, c.checkOutput);
      FailedRowChangesNothing(d.table, content, c.comment, c.actor, FailureOutput(c));
      AddedLatest(d.table, content, Applied, c.comment, c.actor, "");
      AddedThenMarked(d.table, content, c.comment, c.actor, FailureOutput(c));
      TrimmedKeepsNewest(added, c.keep);
      AddedValid(d.table, content, Failed, c.comment, c.actor, c.checkOutput);
      AddedValid(d.table, content, Applied, c.comment, c.actor, "");
      TrimmedValid(added, c.keep);
      MarkedValid(added, d.table.nextId, Failed, FailureOutput(c));
    }
  }

  /** The answers with which a Rollback leaves log and file apart. */
  predicate RollbackParts(d: Disk, id: nat, c: RollbackCalls) {
    var v := d.table.Get(id);
    && v.Some? && c.stageOk && c.checkOk && c.writeOk
    && (|| (!c.reloadOk && !Expects(d.table, v.value.content))
        || (c.reloadOk && c.recordFault
            && !Expects(if c.markFault then d.table else d.table.Marked(id, RolledBack, ""), v.value.content)))
  }

  /** From agreement, a Rollback with any answers keeps it exactly unless it parts them. */
  lemma RollbackAgreement(d: Disk, id: nat, c: RollbackCalls)
    requires d.table.Valid() && Agrees(d)
    ensures Agrees(AfterRollback(d, id, c)) <==> !RollbackParts(d, id, c)
    ensures AfterRollback(d, id, c).table.Valid()
  {
    hide LastApplied, RollbackComment;
    var v := d.table.Get(id);
    if v.Some? {
      var added := d.table.Added(v.value.content, Applied, RollbackComment(id), c.actor, "");
      AddedLatest(d.table, v.value.content, Applied, RollbackComment(id), c.actor, "");
      MarkedLatest(added, id, RolledBack, "");
      assert added.rows[|d.table.rows|].id == d.table.nextId != id;
      AddedValid(d.table, v.value.content, Applied, RollbackComment(id), c.actor, "");
      MarkedValid(added, id, RolledBack, "");
      MarkedValid(d.table, id, RolledBack, "");
    }
  }

  // ---- whole runs

  datatype Op = DoApply(calls: ApplyCalls, writable: bool) | DoRollback(id: nat, answers: RollbackCalls)

  function AfterOp(d: Disk, op: Op): Disk {
    match op
    case DoApply(c, writable) => AfterApply(d, c, writable)
    case DoRollback(id, c) => AfterRollback(d, id, c)
  }

  /** The version table never fails, a failed reload can be undone because the live
      file was read and can be written back, and a rollback's
      own reload succeeds; renders, checks, writes and reloads of Apply may fail. */
  predicate StoreWorks(op: Op) {
    match op
    case DoApply(c, _) => c.readable && !c.recordFault && !c.markFault && c.restoreOk
    case DoRollback(_, c) => c.reloadOk && !c.recordFault
  }

  function AfterOps(d: Disk, ops: seq<Op>): Disk
    decreases |ops|
  {
    if ops == [] then d else AfterOps(AfterOp(d, ops[0]), ops[1..])
  }

  /** Over every run of applies and rollbacks the log keeps agreeing with the file. */
  lemma {:induction false} RunsAgree(d: Disk, ops: seq<Op>)
    requires d.table.Valid() && Agrees(d)
    requires forall i :: 0 <= i < |ops| ==> StoreWorks(ops[i])
    ensures Agrees(AfterOps(d, ops)) && AfterOps(d, ops).table.Valid()
    decreases |ops|
  {
    if ops != [] {
      assert StoreWorks(ops[0]);
      StepAgrees(d, ops[0]);
      RunsAgree(AfterOp(d, ops[0]), ops[1..]);
    }
  }

  lemma StepAgrees(d: Disk, op: Op)
    requires d.table.Valid() && Agrees(d) && StoreWorks(op)
    ensures Agrees(AfterOp(d, op)) && AfterOp(d, op).table.Valid()
  {
    match op
    case DoApply(c, writable) =>
      ApplyAgreement(d, c, writable);
    case DoRollback(id, c) =>
      RollbackAgreement(d, id, c);
  }

  /** Installations start with an empty table, which agrees with any live file. */
  lemma EmptyTableAgrees(config: Option<string>, ops: seq<Op>)
    requires forall i :: 0 <= i < |ops| ==> StoreWorks(ops[i])
    ensures Agrees(AfterOps(Disk(config, Rows([], 1)), ops))
  {
    RunsAgree(Disk(config, Rows([], 1)), ops);
  }

  // ---- what a failed deployment leaves behind

  /** A rejected reload that could be undone leaves the live file as it was and adds
      one failed row; nothing else of the log changes. */
  lemma RejectedReloadIsUndone(d: Disk, c: ApplyCalls, writable: bool)
    requires d.table.Valid() && Replaces(d, c, writable) && Restores(d, c) && !c.markFault
    ensures AfterApply(d, c, writable)
         == d.(table := d.table.Added(c.render.value, Failed, c.comment, c.actor, FailureOutput(c)))
  {
    AddedThenMarked(d.table, c.render.value, c.comment, c.actor, FailureOutput(c));
  }

  /** A file that had its reference before still has it after publishing. */
  predicate Survives(name: string, suffix: string, files: seq<Artifact>, stuck: set<string>) {
    name in Names(files) || !Text.HasSuffix(name, suffix) || name in stuck
  }

  /** The live file may stay or be put back while the directories have moved on, after
      a write that failed or a rejected reload: its references resolve if and only if
      each is to a page or certificate of the failed deployment, or to a file that
      publishing does not remove. */
  lemma RestoredResolves(
      tokens: seq<Token>, pages: seq<ErrorPage>, certs: seq<Certificate>,
      pages0: Listing, pages1: Listing, certs0: Listing, certs1: Listing,
      stuckPages: set<string>, stuckCerts: set<string>)
    requires Resolves(tokens, pages0, certs0)
    requires Published(pages0, pages1, PAGE_SUFFIX, PageFiles(pages), stuckPages)
    requires Published(certs0, certs1, CERT_SUFFIX, CertFiles(certs), stuckCerts)
    ensures Resolves(tokens, pages1, certs1) <==>
      && (forall name :: PageRef(name) in tokens ==> Survives(name, PAGE_SUFFIX, PageFiles(pages), stuckPages))
      && (forall name :: CertRef(name) in tokens ==> Survives(name, CERT_SUFFIX, CertFiles(certs), stuckCerts))
  {
    hide PageFiles, CertFiles, Names, LastContent, Text.HasSuffix;
    forall name | PageRef(name) in tokens
      ensures (name in pages1 && pages1[name].File?) <==> Survives(name, PAGE_SUFFIX, PageFiles(pages), stuckPages)
    {
      LastContentNames(PageFiles(pages), name);
    }
    forall name | CertRef(name) in tokens
      ensures (name in certs1 && certs1[name].File?) <==> Survives(name, CERT_SUFFIX, CertFiles(certs), stuckCerts)
    {
      LastContentNames(CertFiles(certs), name);
    }
    ResolvesByName(tokens, pages1, certs1);
  }

  /** An Apply that fails while it writes pages breaks no reference of the live file. */
  lemma PagesFailedResolves(tokens: seq<Token>, files: seq<Artifact>, pages: Listing, certs: Listing)
    requires Resolves(tokens, pages, certs)
    ensures Resolves(tokens, Overlay(pages, files), certs)
  {
    hide Overlay, LastContent;
    forall name | PageRef(name) in tokens ensures name in Overlay(pages, files) && Overlay(pages, files)[name].File? {
      OverlayAt(pages, files, name);
    }
    ResolvesByName(tokens, pages, certs);
    ResolvesByName(tokens, Overlay(pages, files), certs);
  }

  /** One that fails while it writes certificates has published its pages already: the
      live file's references resolve if and only if each page reference survives that. */
  lemma CertsFailedResolves(
      tokens: seq<Token>, pages: seq<ErrorPage>, files: seq<Artifact>,
      pages0: Listing, pages1: Listing, certs0: Listing, stuckPages: set<string>)
    requires Resolves(tokens, pages0, certs0)
    requires Published(pages0, pages1, PAGE_SUFFIX, PageFiles(pages), stuckPages)
    ensures Resolves(tokens, pages1, Overlay(certs0, files)) <==>
      forall name :: PageRef(name) in tokens ==> Survives(name, PAGE_SUFFIX, PageFiles(pages), stuckPages)
  {
    hide PageFiles, Names, LastContent, Overlay, Text.HasSuffix;
    ResolvesByName(tokens, pages0, certs0);
    ResolvesByName(tokens, pages1, Overlay(certs0, files));
    forall name | PageRef(name) in tokens
      ensures (name in pages1 && pages1[name].File?) <==> Survives(name, PAGE_SUFFIX, PageFiles(pages), stuckPages)
    {
      LastContentNames(PageFiles(pages), name);
    }
    forall name | CertRef(name) in tokens ensures name in Overlay(certs0, files) && Overlay(certs0, files)[name].File? {
      OverlayAt(certs0, files, name);
    }
  }

  lemma ResolvesByName(tokens: seq<Token>, pages: Listing, certs: Listing)
    ensures Resolves(tokens, pages, certs) <==>
      && (forall name :: PageRef(name) in tokens ==> name in pages && pages[name].File?)
      && (forall name :: CertRef(name) in tokens ==> name in certs && certs[name].File?)
  {
  }

  /** Every Apply that no longer has a page the live file names, and whose reload is
      rejected, puts that file back with its reference dangling. */
  method RestoredFileMayDangle(page: string, body: string, c: ApplyCalls) returns (d: Deployer, out: ApplyOutcome)
    requires Checked(c) && c.readable && c.backupOk && Writable(c, map[page := File(body)], map[])
    requires !c.recordFault && !CameUp(c) && c.restoreOk
    requires !Survives(page, PAGE_SUFFIX, PageFiles(c.pages), c.pageCalls.stuck)
    ensures out == ReloadRejected && d.config == Some(Rendered([PageRef(page)], "errors", "certs"))
    ensures Resolves([PageRef(page)], map[page := File(body)], map[])
    ensures !Resolves([PageRef(page)], d.pageDir.entries, d.certDir.entries)
  {
    hide Survives, PagesWritable, CertsWritable, Published, PageFiles, CertFiles, Rendered;
    var tokens := [PageRef(page)];
    var pages := new Directory(map[page := File(body)]);
    var certs := new Directory(map[]);
    var table := new VersionTable();
    d := new Deployer(pages, certs, table, Some(Rendered(tokens, "errors", "certs")));
    out := d.Apply(c);
    RestoredResolves(tokens, c.pages, c.certs, map[page := File(body)], d.pageDir.entries, map[], d.certDir.entries,
                     c.pageCalls.stuck, c.certCalls.stuck);
    assert tokens[0] in tokens;
  }

  /** Every Apply that no longer has a page the live file names, and that gets past
      its pages but not as far as the file, leaves that file with its reference dangling. */
  method UnreplacedFileMayDangle(page: string, body: string, c: ApplyCalls) returns (d: Deployer, out: ApplyOutcome)
    requires Checked(c) && c.readable && c.backupOk && PagesWritable(map[page := File(body)], c.pages, c.pageCalls)
    requires !CertsWritable(map[], c.certs, c.certCalls) || !c.writeOk
    requires !Survives(page, PAGE_SUFFIX, PageFiles(c.pages), c.pageCalls.stuck)
    ensures out == if CertsWritable(map[], c.certs, c.certCalls) then WriteFailed else CertsFailed
    ensures d.config == Some(Rendered([PageRef(page)], "errors", "certs"))
    ensures Resolves([PageRef(page)], map[page := File(body)], map[])
    ensures !Resolves([PageRef(page)], d.pageDir.entries, d.certDir.entries)
  {
    hide Survives, PagesWritable, CertsWritable, Published, PageFiles, CertFiles, Rendered, Overlay;
    var tokens, before := [PageRef(page)], map[page := File(body)];
    var pages := new Directory(before);
    var certs := new Directory(map[]);
    var table := new VersionTable();
    d := new Deployer(pages, certs, table, Some(Rendered(tokens, "errors", "certs")));
    out := d.Apply(c);
    assert tokens[0] in tokens;
    if out == CertsFailed {
      var k :| 0 <= k <= |c.certs| && d.certDir.entries == Overlay(map[], CertFiles(c.certs[..k]));
      CertsFailedResolves(tokens, c.pages, CertFiles(c.certs[..k]), before, d.pageDir.entries, map[],
                          c.pageCalls.stuck);
    } else {
      RestoredResolves(tokens, c.pages, c.certs, before, d.pageDir.entries, map[], d.certDir.entries,
                       c.pageCalls.stuck, c.certCalls.stuck);
    }
  }

  // ---- answers that part the log and the live file

  const SMOOTH := PublishCalls(true, map[], true, {})

  /** An Apply of the text "new" in which nothing goes wrong. */
  function SmoothApply(): ApplyCalls {
    ApplyCalls(Some("new"), true, true, "", true, true, [], SMOOTH, [], SMOOTH, true, false,
               true, "", true, "", false, true, 30, false, "admin", "")
  }

  function SmoothRollback(): RollbackCalls {
    RollbackCalls(true, true, true, true, false, false, "admin")
  }

  function OldVersion(): Version {
    Version(1, "old", Applied, "", "admin", "")
  }

  function NewVersion(): Version {
    Version(2, "new", Applied, "", "admin", "")
  }

  function OldDisk(): Disk {
    Disk(Some("old"), Rows([OldVersion()], 2))
  }

  lemma OldDiskExpects()
    ensures OldDisk().table.Valid() && Agrees(OldDisk()) && !Expects(OldDisk().table, "new")
    ensures OldDisk().config != SmoothApply().render
  {
    assert OldDisk().table.LatestApplied() == Some(OldVersion());
    assert "old"[0] != "new"[0];
  }

  /** Each way of ApplyParts happens: the version is not recorded; it is not marked
      although the file was put back; the file could not be put back, or not be read. */
  lemma ApplyCanPart()
    ensures
      var d, c := OldDisk(), SmoothApply();
      && Agrees(d) && Agrees(AfterApply(d, c, true))
      && !Agrees(AfterApply(d, c.(recordFault := true), true))
      && !Agrees(AfterApply(d, c.(reloadOk := false, markFault := true), true))
      && !Agrees(AfterApply(d, c.(reloadOk := false, restoreOk := false), true))
      && !Agrees(AfterApply(d, c.(reloadOk := false, readable := false), true))
  {
    hide AfterApply, Agrees, Expects, Rows.Valid;
    var d, c := OldDisk(), SmoothApply();
    OldDiskExpects();
    ApplyAgreement(d, c, true);
    ApplyAgreement(d, c.(recordFault := true), true);
    ApplyAgreement(d, c.(reloadOk := false, markFault := true), true);
    ApplyAgreement(d, c.(reloadOk := false, restoreOk := false), true);
    ApplyAgreement(d, c.(reloadOk := false, readable := false), true);
  }

  /** Both ways of RollbackParts happen: its reload fails, or its version is not recorded. */
  lemma RollbackCanPart()
    ensures
      var d, c := Disk(Some("new"), Rows([OldVersion(), NewVersion()], 3)), SmoothRollback();
      && Agrees(d) && Agrees(AfterRollback(d, 1, c))
      && !Agrees(AfterRollback(d, 1, c.(reloadOk := false)))
      && !Agrees(AfterRollback(d, 1, c.(recordFault := true)))
  {
    var d, c := Disk(Some("new"), Rows([OldVersion(), NewVersion()], 3)), SmoothRollback();
    assert d.table.LatestApplied() == Some(NewVersion());
    MarkedLatest(d.table, 1, RolledBack, "");
    hide LastApplied, AfterRollback;
    RollbackAgreement(d, 1, c);
    RollbackAgreement(d, 1, c.(reloadOk := false));
    RollbackAgreement(d, 1, c.(recordFault := true));
  }
}
