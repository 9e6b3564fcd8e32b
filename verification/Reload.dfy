/** A reload against the master and its workers: what the supervisor reports about
    an environment that forks, retires and loses workers while it is watched. */
module Reload {
  import opened Wrappers
  import opened Text
  import opened ShowProc
  import opened WaitHealthy

  // ---- the supervisor's side

  /** The answers one Reload gets from the outside: whether the master was running,
      whether starting it or signalling it worked, the baseline reading, the clock
      when the wait begins and everything the wait sees. */
  datatype Calls = Calls(
    running: bool, startOk: bool, baseline: Reading, killOk: bool, clock: int, polls: seq<Poll>)

  datatype Outcome = StartFailed | SignalFailed | Waited(verdict: Verdict, polls: nat)

  /** A failed baseline read leaves the zero state in its place. */
  function BaselineOf(r: Reading): ProcState {
    if r.Proc? then r.st else NO_STATE
  }

  function WaitOf(c: Calls): Wait {
    if c.running then Wait(BaselineOf(c.baseline), true, c.clock) else Wait(NO_STATE, false, c.clock)
  }

  /** The reload ends without error, at poll k. */
  ghost predicate Succeeds(c: Calls, k: nat) {
    (if c.running then c.killOk else c.startOk) && WaitOf(c).StopsAt(c.polls, k, Healthy)
  }

  method ReloadMaster(c: Calls) returns (out: Outcome)
    ensures out.Waited? && out.verdict == Healthy <==> exists k: nat :: Succeeds(c, k)
    ensures out == StartFailed <==> !c.running && !c.startOk
    ensures out == SignalFailed <==> c.running && !c.killOk
    ensures out.Waited? && out.verdict != Waiting ==>
      out.polls > 0 && WaitOf(c).StopsAt(c.polls, out.polls - 1, out.verdict)
    ensures out.Waited? && out.verdict == Waiting ==>
      forall j :: 0 <= j < |c.polls| ==> WaitOf(c).VerdictAt(c.polls, j) == Waiting
  {
    if !c.running {
      if !c.startOk {
        return StartFailed;
      }
      var v, n := WaitForWorker(Wait(NO_STATE, false, c.clock), c.polls);
      assert v == Healthy ==> Succeeds(c, n - 1);
      return Waited(v, n);
    }
    var baseline := BaselineOf(c.baseline);
    if !c.killOk {
      return SignalFailed;
    }
    var v, n := WaitForWorker(Wait(baseline, true, c.clock), c.polls);
    assert v == Healthy ==> Succeeds(c, n - 1);
    out := Waited(v, n);
  }

  // ---- the environment's side

  datatype Worker = Worker(process: Process, config: string)

  /** The configuration file, the master with the reload signals it has yet to act
      on and the configuration it is booting a worker with, and its workers. */
  datatype Host = Host(
    form: Form, file: string, master: Process, pending: nat, booting: Option<string>,
    failed: Counter, current: seq<Worker>, retired: seq<Worker>)

  /** Only some of the workers listed before are listed now. */
  predicate Keeps(before: seq<Worker>, after: seq<Worker>) {
    forall w :: w in after ==> w in before
  }

  /** One step of the environment. Nobody edits the file, and a retired worker never
      becomes current again; anything may die, and any failure may be counted. */
  predicate Next(h: Host, h': Host) {
    && h'.file == h.file
    && h'.failed >= h.failed
    && (|| (h'.booting == h.booting && Keeps(h.current, h'.current))   // signal, death, retirement
        || (h.pending > 0 && h'.booting == Some(h.file) && Keeps(h.current, h'.current))   // re-exec
        || (h.booting.Some? && h'.booting == None && ForksFrom(h, h'))
        || (h'.booting == None && Keeps(h.current, h'.current)))   // boot failure
  }

  predicate ForksFrom(h: Host, h': Host) {
    exists w :: w in h'.current && h.booting == Some(w.config) && Keeps(h.current + [w], h'.current)
  }

  function Processes(ws: seq<Worker>): (ps: seq<Process>)
    ensures |ps| == |ws| && forall k :: 0 <= k < |ws| ==> ps[k] == ws[k].process
  {
    seq(|ws|, k requires 0 <= k < |ws| => ws[k].process)
  }

  function TableOf(h: Host): Table {
    Table(h.form, h.master, h.failed, Processes(h.current), Processes(h.retired), [])
  }

  /** A reading, when it succeeds, is the parsed text of the table the host prints. */
  predicate Reads(r: Reading, h: Host) {
    r.Proc? ==> PlainTable(TableOf(h)) && r.st == Parsed(Printed(TableOf(h)))
  }

  /** A run of the host during one reload: where the baseline was read or the master
      was started, and where each poll read the table. */
  datatype Run = Run(hosts: seq<Host>, base: nat, at: seq<nat>)

  ghost predicate RunOf(c: Calls, run: Run) {
    && (forall i :: 0 < i < |run.hosts| ==> Next(run.hosts[i - 1], run.hosts[i]))
    && run.base < |run.hosts|
    && |run.at| == |c.polls|
    && (forall k :: 0 <= k < |run.at| ==> run.base <= run.at[k] < |run.hosts|)
    && (forall k :: 0 <= k < |run.at| ==> Reads(c.polls[k].reading, run.hosts[run.at[k]]))
    && (if c.running then Reads(c.baseline, run.hosts[run.base]) else JustStarted(run.hosts[run.base]))
  }

  /** A master that has just been started is booting the file it found. */
  predicate JustStarted(h: Host) {
    h.current == [] && h.booting == Some(h.file)
  }

  /** No earlier reload is still booting a worker on an older file. */
  predicate Quiescent(h: Host) {
    h.booting.Some? ==> h.booting.value == h.file
  }

  // ---- soundness

  /** Every current worker is known, or runs the file. */
  predicate OnFileOrKnown(h: Host, known: seq<int>) {
    && (h.booting.Some? ==> h.booting.value == h.file)
    && forall w :: w in h.current ==> w.process.pid in known || w.config == h.file
  }

  lemma NextKeepsFile(h: Host, h': Host, known: seq<int>)
    requires Next(h, h') && OnFileOrKnown(h, known)
    ensures OnFileOrKnown(h', known)
  {
    if h.booting.Some? && h'.booting == None && ForksFrom(h, h') {
      var n :| n in h'.current && h.booting == Some(n.config) && Keeps(h.current + [n], h'.current);
      forall w | w in h'.current ensures w.process.pid in known || w.config == h'.file {
        assert w in h.current + [n];
      }
    }
  }

  lemma {:induction false} RunKeepsFile(c: Calls, run: Run, known: seq<int>, i: nat)
    requires RunOf(c, run) && OnFileOrKnown(run.hosts[run.base], known)
    requires run.base <= i < |run.hosts|
    ensures OnFileOrKnown(run.hosts[i], known) && run.hosts[i].file == run.hosts[run.base].file
    decreases i
  {
    if i > run.base {
      RunKeepsFile(c, run, known, i - 1);
      NextKeepsFile(run.hosts[i - 1], run.hosts[i], known);
    }
  }

  lemma {:induction false} PidsOf(ws: seq<Worker>, p: int)
    ensures p in Pids(Processes(ws)) <==> exists w :: w in ws && w.process.pid == p
  {
    if ws != [] {
      PidsOf(ws[1..], p);
      assert Processes(ws)[1..] == Processes(ws[1..]);
      assert ws == [ws[0]] + ws[1..];
    }
  }

  lemma ReadingPids(r: Reading, h: Host, p: int)
    requires r.Proc? && Reads(r, h)
    ensures p in r.st.pids <==> exists w :: w in h.current && w.process.pid == p
  {
    ParseInvertsPrint(TableOf(h));
    hide Parsed, Printed, PlainTable;
    PidsOf(h.current, p);
  }

  /** If a reload whose baseline read succeeded reports success from a reading of the
      master CLI, then at that reading some current worker runs exactly the file. */
  lemma SuccessMeansNewWorkerOnFile(c: Calls, run: Run, k: nat) returns (w: Worker)
    requires RunOf(c, run)
    requires c.running ==> c.baseline.Proc? && Quiescent(run.hosts[run.base])
    requires k < |c.polls| && c.polls[k].reading.Proc? && WaitOf(c).StopsAt(c.polls, k, Healthy)
    ensures w in run.hosts[run.at[k]].current && w.config == run.hosts[run.base].file
  {
    var base, last := run.hosts[run.base], run.hosts[run.at[k]];
    var known := WaitOf(c).baseline.pids;
    KnownCoversBase(c, run);
    RunKeepsFile(c, run, known, run.at[k]);
    var p := NovelAt(WaitOf(c), c.polls, k);
    ReadingPids(c.polls[k].reading, last, p);
    w :| w in last.current && w.process.pid == p;
  }

  lemma KnownCoversBase(c: Calls, run: Run)
    requires RunOf(c, run)
    requires c.running ==> c.baseline.Proc? && Quiescent(run.hosts[run.base])
    ensures OnFileOrKnown(run.hosts[run.base], WaitOf(c).baseline.pids)
  {
    var base := run.hosts[run.base];
    if c.running {
      forall w | w in base.current ensures w.process.pid in WaitOf(c).baseline.pids {
        ReadingPids(c.baseline, base, w.process.pid);
      }
    }
  }

  /** A successful wait ends on a pid that the baseline did not have. */
  lemma NovelAt(w: Wait, polls: seq<Poll>, k: nat) returns (p: int)
    requires k < |polls| && polls[k].reading.Proc? && w.StopsAt(polls, k, Healthy)
    requires !w.expectReload ==> w.baseline.pids == []
    ensures p in polls[k].reading.st.pids && p !in w.baseline.pids
  {
    SuccessConfirms(w, polls, k);
    var s :| 0 <= s <= k && w.SettledFrom(polls, s, k);
    FreshHeld(w, polls[s]);
    var novel := w.Fresh(polls[s]);
    assert s < k ==> w.Survives(polls, s, k);
    var i :| 0 <= i < |novel| && novel[i] in polls[k].reading.st.pids;
    p := novel[i];
    assert p in novel;
  }

  // ---- why the baseline read matters

  /** The reload reports success from a reading of the master CLI at poll k. */
  ghost predicate ConfirmedAt(c: Calls, k: nat) {
    k < |c.polls| && c.polls[k].reading.Proc? && WaitOf(c).StopsAt(c.polls, k, Healthy)
  }

  /** A reload of a running master whose baseline reading is b, seen over a run of a
      host on which no earlier reload is still booting. */
  ghost predicate Observed(b: Reading, c: Calls, run: Run) {
    c.running && c.baseline == b && RunOf(c, run) && Quiescent(run.hosts[run.base])
  }

  /** At poll k some current worker runs the file. */
  ghost predicate OnFile(run: Run, k: nat) {
    && k < |run.at| && run.at[k] < |run.hosts| && run.base < |run.hosts|
    && exists w :: w in run.hosts[run.at[k]].current && w.config == run.hosts[run.base].file
  }

  predicate StartsAt(run: Run, h: Host) {
    run.base < |run.hosts| && run.hosts[run.base] == h
  }

  /** Whenever a reload with this baseline reading is confirmed, a worker runs the file. */
  ghost predicate Reliable(b: Reading) {
    forall c, run, k: nat :: Observed(b, c, run) && ConfirmedAt(c, k) ==> OnFile(run, k)
  }

  function HostReading(h: Host): Reading {
    Proc(Parsed(Printed(TableOf(h))))
  }

  /** Two readings of a table that does not change, more than the settle time apart. */
  function IdleCalls(h: Host, b: Reading): Calls {
    Calls(true, true, b, true, 0, [
      Poll(true, HostReading(h), 0, 0, 0, true, false),
      Poll(true, HostReading(h), 3000, 3000, 3000, true, false)])
  }

  function IdleRun(h: Host): Run {
    Run([h], 0, [0, 0])
  }

  lemma HostReadingIs(h: Host)
    requires PlainTable(TableOf(h))
    ensures HostReading(h).st.failed == h.failed
    ensures HostReading(h).st.pids == Pids(Processes(h.current))
    ensures h.current != [] ==> HostReading(h).st.pids != []
  {
    hide PlainTable, Parsed, Printed;
    ParseInvertsPrint(TableOf(h));
    assert h.current != [] ==> Processes(h.current) != [];
  }

  /** A baseline without any worker makes every listed worker look new: nothing at all
      needs to happen for success. */
  lemma IdleConfirms(h: Host, b: Reading)
    requires PlainTable(TableOf(h)) && h.current != []
    requires BaselineOf(b).pids == [] && h.failed <= BaselineOf(b).failed
    ensures ConfirmedAt(IdleCalls(h, b), 1)
  {
    hide PlainTable, Parsed, Printed, Processes;
    HostReadingIs(h);
    var c := IdleCalls(h, b);
    var w, polls, pids := WaitOf(c), c.polls, HostReading(h).st.pids;
    var novel := NewPids(pids, []);
    assert pids[0] in novel;
    assert Overlap(novel, pids) by {
      assert novel[0] in novel && novel[0] in pids;
    }
    hide HostReading, Overlap;
    assert w.Fresh(polls[0]) == novel;
    assert w.Sighting(polls, 0).0 == [];
    assert w.Sighting(polls, 1) == (novel, 0);
    assert w.Sighting(polls, 2) == w.Sighting(polls, 1);
    assert w.VerdictAt(polls, 0) == Waiting;
    assert w.VerdictAt(polls, 1) == Healthy;
  }

  lemma IdleReloadSucceeds(h: Host, b: Reading)
    requires !b.Proc? && PlainTable(TableOf(h)) && h.current != [] && h.failed == 0
    ensures RunOf(IdleCalls(h, b), IdleRun(h)) && ConfirmedAt(IdleCalls(h, b), 1)
  {
    hide PlainTable, Parsed, Printed, ConfirmedAt;
    IdleConfirms(h, b);
  }

  /** The reply to the baseline query, when the line goes quiet behind the third line. */
  function CutReading(h: Host): Reading {
    Proc(Parsed(Join(TableLines(TableOf(h))[..3], "\n")))
  }

  /** A baseline that was cut short is no better than none: it counts as read, and any
      host with a worker confirms the reload without a single change. */
  lemma CutBaselineIsUnsound(h: Host)
    requires PlainTable(TableOf(h)) && h.current != []
    ensures BaselineOf(CutReading(h)).pids == [] && ConfirmedAt(IdleCalls(h, CutReading(h)), 1)
  {
    hide PlainTable, Parsed, ConfirmedAt, TableLines;
    ParseTop(TableOf(h));
    IdleConfirms(h, CutReading(h));
  }

  lemma {:induction false} FailuresStay(c: Calls, run: Run, i: nat)
    requires RunOf(c, run) && run.base <= i < |run.hosts|
    ensures run.hosts[i].failed >= run.hosts[run.base].failed
    decreases i
  {
    if i > run.base {
      FailuresStay(c, run, i - 1);
      assert Next(run.hosts[i - 1], run.hosts[i]);
    }
  }

  /** And when some reload had failed before, an unread baseline makes every later
      reading look like a new failure. */
  lemma OldFailureCondemns(b: Reading, c: Calls, run: Run, k: nat)
    requires !b.Proc? && Observed(b, c, run) && run.hosts[run.base].failed > 0
    ensures !ConfirmedAt(c, k)
  {
    hide Parsed, Printed, PlainTable;
    if k < |c.polls| && c.polls[k].reading.Proc? {
      var h := run.hosts[run.at[k]];
      FailuresStay(c, run, run.at[k]);
      ParseInvertsPrint(TableOf(h));
      assert c.polls[k].reading.st.failed == h.failed > 0;
      assert WaitOf(c).VerdictAt(c.polls, k) != Healthy;
    }
  }

  /** With an unread baseline, on every host with a worker: a reload can be confirmed
      if and only if no earlier reload failed, whether or not a worker runs the file. */
  lemma UnreadBaseline(h: Host, b: Reading)
    requires !b.Proc? && PlainTable(TableOf(h)) && h.current != [] && Quiescent(h)
    ensures (exists c, run, k: nat :: Observed(b, c, run) && StartsAt(run, h) && ConfirmedAt(c, k))
       <==> h.failed == 0
  {
    hide PlainTable, RunOf, ConfirmedAt;
    if h.failed == 0 {
      IdleReloadSucceeds(h, b);
      assert Observed(b, IdleCalls(h, b), IdleRun(h)) && StartsAt(IdleRun(h), h);
    } else {
      forall c, run, k: nat | Observed(b, c, run) && StartsAt(run, h) ensures !ConfirmedAt(c, k) {
        OldFailureCondemns(b, c, run, k);
      }
    }
  }

  function StaleHost(): Host {
    Host(Form(true, false, false), "new", Process(35, "master", 1, "5m", "3.2"),
         0, None, 0, [Worker(Process(119, "worker", 0, "1m", "3.2"), "previous")], [])
  }

  lemma StaleHostPlain()
    ensures PlainTable(TableOf(StaleHost()))
  {
    StaleWords();
    hide PlainWord;
    var t := TableOf(StaleHost());
    assert PlainProcess(t.master) && PlainProcess(t.current[0]);
    hide PlainProcess;
  }

  lemma StaleWords()
    ensures PlainWord("master") && PlainWord("worker") && PlainWord("5m") && PlainWord("1m") && PlainWord("3.2")
  {
  }

  /** With a failed baseline read the reload can report success although the only
      worker still runs the previous file. */
  lemma FailedBaselineReadIsUnsound(b: Reading)
    requires !b.Proc?
    ensures var c, run := IdleCalls(StaleHost(), b), IdleRun(StaleHost());
            Observed(b, c, run) && ConfirmedAt(c, 1) && !OnFile(run, 1)
  {
    hide PlainTable, ConfirmedAt, HostReading;
    StaleHostPlain();
    IdleReloadSucceeds(StaleHost(), b);
    var w := Worker(Process(119, "worker", 0, "1m", "3.2"), "previous");
    assert StaleHost().current == [w] && "previous"[0] != "new"[0];
  }

  /** A reload of a running master can be relied on if and only if its baseline was read. */
  lemma BaselineReadDecides(b: Reading)
    requires b != NoSocket
    ensures Reliable(b) <==> b.Proc?
  {
    hide RunOf, ConfirmedAt, OnFile, Observed;
    if b.Proc? {
      forall c, run, k: nat | Observed(b, c, run) && ConfirmedAt(c, k) ensures OnFile(run, k) {
        ConfirmedIsOnFile(b, c, run, k);
      }
    } else {
      FailedBaselineReadIsUnsound(b);
    }
  }

  lemma ConfirmedIsOnFile(b: Reading, c: Calls, run: Run, k: nat)
    requires b.Proc? && Observed(b, c, run) && ConfirmedAt(c, k)
    ensures OnFile(run, k)
  {
    var w := SuccessMeansNewWorkerOnFile(c, run, k);
  }
}
