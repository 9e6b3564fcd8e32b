/** Save & Apply under the supervisor: what a nil error says about the processes. */
module EndToEnd {
  import opened Wrappers
  import opened ShowProc
  import opened WaitHealthy
  import opened Versions
  import opened Deploy
  import Reload

  /** The reload that Apply asks for is the supervisor's, over a master socket, and its
      baseline was read. */
  ghost predicate UnderSupervisor(c: ApplyCalls, r: Reload.Calls) {
    && (c.reloadOk <==> exists k: nat :: Reload.Succeeds(r, k))
    && (r.running ==> r.baseline.Proc?)
    && forall k :: 0 <= k < |r.polls| ==> r.polls[k].reading != NoSocket
  }

  /** Supervisor and deployer share the configuration path: the host found the file
      that Apply wrote, and no earlier reload was still booting on an older one. */
  ghost predicate SamePath(r: Reload.Calls, run: Reload.Run, content: string) {
    && Reload.RunOf(r, run)
    && run.hosts[run.base].file == content
    && (r.running ==> Reload.Quiescent(run.hosts[run.base]))
  }

  /** After an Apply without error, the live file, the newest applied version and a
      current worker at the poll that ended the reload hold exactly the rendered text. */
  lemma AppliedMeansServing(d: Disk, c: ApplyCalls, writable: bool, r: Reload.Calls, run: Reload.Run)
    returns (k: nat, w: Reload.Worker)
    requires d.table.Valid()
    requires Replaces(d, c, writable) && !c.recordFault && CameUp(c)
    requires UnderSupervisor(c, r) && SamePath(r, run, c.render.value)
    ensures Reload.Succeeds(r, k) && k < |run.at|
    ensures w in run.hosts[run.at[k]].current && Some(w.config) == c.render
    ensures AfterApply(d, c, writable).config == c.render
    ensures var latest := AfterApply(d, c, writable).table.LatestApplied();
            latest.Some? && latest.value.id == d.table.nextId && Some(latest.value.content) == c.render
  {
    AppliedIsLatest(d, c, writable);
    hide AfterApply, Replaces, Rows.Valid, Rows.LatestApplied, Reload.RunOf, Reload.Quiescent;
    k :| Reload.Succeeds(r, k);
    HealthyReads(r, k);
    AtEveryPoll(r, run);
    w := Reload.SuccessMeansNewWorkerOnFile(r, run, k);
  }

  lemma AppliedIsLatest(d: Disk, c: ApplyCalls, writable: bool)
    requires d.table.Valid()
    requires Replaces(d, c, writable) && !c.recordFault && CameUp(c)
    ensures AfterApply(d, c, writable).config == c.render
    ensures var latest := AfterApply(d, c, writable).table.LatestApplied();
            latest.Some? && latest.value.id == d.table.nextId && Some(latest.value.content) == c.render
  {
    hide LastApplied;
    var added := d.table.Added(c.render.value, Applied, c.comment, c.actor, "");
    AddedLatest(d.table, c.render.value, Applied, c.comment, c.actor, "");
    TrimmedKeepsNewest(added, c.keep);
  }

  lemma HealthyReads(r: Reload.Calls, k: nat)
    requires Reload.Succeeds(r, k) && forall j :: 0 <= j < |r.polls| ==> r.polls[j].reading != NoSocket
    ensures k < |r.polls| && r.polls[k].reading.Proc?
  {
  }

  lemma AtEveryPoll(r: Reload.Calls, run: Reload.Run)
    requires Reload.RunOf(r, run)
    ensures |run.at| == |r.polls| && run.base < |run.hosts|
    ensures forall k :: 0 <= k < |run.at| ==> run.at[k] < |run.hosts|
  {
  }

  // ---- a first Apply that comes up

  function Booting(): Reload.Host {
    Reload.Host(Form(true, true, true), "new", Process(35, "master", 0, "1s", "3.2"), 0, Some("new"), 0, [], [])
  }

  function Serving(): Reload.Host {
    Booting().(booting := None, current := [Reload.Worker(Process(119, "worker", 0, "1s", "3.2"), "new")])
  }

  function FirstStart(): Reload.Calls {
    Reload.Calls(false, true, Unreadable, true, 0, [
      Poll(true, Reload.HostReading(Serving()), 0, 0, 0, true, false),
      Poll(true, Reload.HostReading(Serving()), 3000, 3000, 3000, true, false)])
  }

  function FirstRun(): Reload.Run {
    Reload.Run([Booting(), Serving()], 0, [1, 1])
  }

  lemma ServingPlain()
    ensures PlainTable(Reload.TableOf(Serving()))
  {
    var t := Reload.TableOf(Serving());
    assert PlainProcess(t.master) && PlainProcess(t.current[0]);
    hide PlainProcess;
  }

  lemma FirstStartSucceeds()
    ensures Reload.Succeeds(FirstStart(), 1)
  {
    hide PlainTable, Parsed, Printed;
    ServingPlain();
    var h := Serving();
    ParseInvertsPrint(Reload.TableOf(h));
    var pids := Pids(Reload.Processes(h.current));
    assert Reload.HostReading(h).st.pids == pids && Reload.HostReading(h).st.current == 1;
    assert pids[0] in pids && Overlap(pids, pids);
    hide Reload.HostReading, Pids, Overlap;
    var w, polls := Reload.WaitOf(FirstStart()), FirstStart().polls;
    assert w.Fresh(polls[0]) == pids;
    assert w.Sighting(polls, 0).0 == [];
    assert w.Sighting(polls, 1) == (pids, 0);
    assert w.Sighting(polls, 2) == w.Sighting(polls, 1);
    assert w.VerdictAt(polls, 0) == Waiting;
  }

  lemma FirstRunIsRun()
    ensures Reload.RunOf(FirstStart(), FirstRun())
  {
    hide PlainTable, Parsed, Printed;
    ServingPlain();
    var w := Serving().current[0];
    assert w in Serving().current && Reload.Keeps(Booting().current + [w], Serving().current);
    assert Reload.ForksFrom(Booting(), Serving());
    assert Reload.Next(FirstRun().hosts[0], FirstRun().hosts[1]);
  }

  /** What AppliedMeansServing asks for happens: the first Apply on an empty host. */
  lemma FirstApplyServes()
    ensures
      var d, c := Disk(None, Rows([], 1)), SmoothApply();
      && Replaces(d, c, true) && !c.recordFault && CameUp(c)
      && UnderSupervisor(c, FirstStart()) && SamePath(FirstStart(), FirstRun(), c.render.value)
  {
    hide Reload.RunOf, Reload.Succeeds, Reload.HostReading;
    FirstStartSucceeds();
    FirstRunIsRun();
    assert Reload.HostReading(Serving()).Proc? by {
      ReadingIsTable();
    }
  }

  lemma ReadingIsTable()
    ensures Reload.HostReading(Serving()).Proc?
  {
    hide Parsed, Printed;
  }
}
