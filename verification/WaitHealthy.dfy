/** The poll loop that decides whether a start or reload really produced a serving
    worker, over an arbitrary trace of readings and clock values. */
module WaitHealthy {
  import opened ShowProc

  // Milliseconds.
  const SETTLE := 2500
  const TIMEOUT := 15000
  const RETRY := 200

  datatype Reading = Proc(st: ProcState) | NoSocket | Unreadable

  /** What one turn of the loop sees: whether the master lives, what the master CLI
      answers, the clock each time it is read, whether the master still lives after
      the settle sleep, and whether the caller gave up during the retry pause. */
  datatype Poll = Poll(
    running: bool, reading: Reading,
    sightClock: int, settleClock: int, deadlineClock: int,
    runningAfterSettle: bool, cancelled: bool)

  datatype Verdict =
    Waiting | Healthy | NotRunning | ReloadFailed | WorkerLost | TimedOut | Unconfirmed | Cancelled

  // ---- process id sets

  function NewPids(pids: seq<int>, known: seq<int>): (r: seq<int>)
    ensures forall p :: p in r <==> p in pids && p !in known
  {
    if pids == [] then []
    else (if pids[0] in known then [] else [pids[0]]) + NewPids(pids[1..], known)
  }

  predicate Overlap(a: seq<int>, b: seq<int>) {
    exists i :: 0 <= i < |a| && a[i] in b
  }

  /** The lookup map both set operations build first. */
  method Known(pids: seq<int>) returns (known: set<int>)
    ensures forall p :: p in known <==> p in pids
  {
    known := {};
    for i := 0 to |pids|
      invariant forall k :: 0 <= k < i ==> pids[k] in known
      invariant forall p :: p in known ==> p in pids
    {
      known := known + {pids[i]};
    }
  }

  method NewWorkersSince(st: ProcState, baseline: ProcState) returns (novel: seq<int>)
    ensures novel == NewPids(st.pids, baseline.pids)
  {
    var known := Known(baseline.pids);
    novel := [];
    for i := 0 to |st.pids|
      invariant novel == NewPids(st.pids[..i], baseline.pids)
    {
      assert st.pids[..i + 1] == st.pids[..i] + [st.pids[i]];
      NewPidsSnoc(st.pids[..i], st.pids[i], baseline.pids);
      if st.pids[i] !in known {
        novel := novel + [st.pids[i]];
      }
    }
    assert st.pids[..|st.pids|] == st.pids;
  }

  lemma {:induction false} NewPidsSnoc(pids: seq<int>, pid: int, known: seq<int>)
    ensures NewPids(pids + [pid], known) == NewPids(pids, known) + (if pid in known then [] else [pid])
  {
    if pids != [] {
      assert (pids + [pid])[1..] == pids[1..] + [pid];
      NewPidsSnoc(pids[1..], pid, known);
    }
  }

  method ContainsAny(st: ProcState, pids: seq<int>) returns (found: bool)
    ensures found <==> Overlap(pids, st.pids)
  {
    var live := Known(st.pids);
    for i := 0 to |pids|
      invariant forall k :: 0 <= k < i ==> pids[k] !in st.pids
    {
      var pid := pids[i];
      assert pid in live <==> pid in st.pids;
      if pid in live {
        return true;
      }
    }
    found := false;
  }

  // ---- what a trace says, without the loop's variables

  /** What the loop was started with. */
  datatype Wait = Wait(baseline: ProcState, expectReload: bool, start: int) {

    /** The pids a reading puts under observation. */
    function Fresh(poll: Poll): seq<int> {
      if !poll.reading.Proc? then []
      else if expectReload then NewPids(poll.reading.st.pids, baseline.pids)
      else if poll.reading.st.current > 0 then poll.reading.st.pids
      else []
    }

    predicate Failed(poll: Poll) {
      poll.reading.Proc? && poll.reading.st.failed > baseline.failed
    }

    /** s is the first of the polls to sight a new worker. */
    predicate FirstSight(polls: seq<Poll>, s: nat) {
      && s < |polls|
      && Fresh(polls[s]) != []
      && forall j :: 0 <= j < s ==> Fresh(polls[j]) == []
    }

    predicate Survives(polls: seq<Poll>, s: nat, j: nat)
      requires s < |polls| && j < |polls|
    {
      polls[j].reading.Proc? ==> Overlap(Fresh(polls[s]), polls[j].reading.st.pids)
    }

    predicate Settled(polls: seq<Poll>, s: nat, j: nat)
      requires s < |polls| && j < |polls|
    {
      polls[j].reading.Proc? && polls[j].settleClock > polls[s].sightClock + SETTLE
    }

    predicate Retried(poll: Poll) {
      poll.deadlineClock <= start + TIMEOUT && !poll.cancelled
    }

    /** A worker sighted at s settled at k, and every reading between still held it. */
    ghost predicate SettledFrom(polls: seq<Poll>, s: nat, k: nat)
      requires s <= k < |polls|
    {
      && FirstSight(polls, s)
      && (forall j :: s < j <= k ==> Survives(polls, s, j))
      && Settled(polls, s, k)
      && (forall j :: s <= j < k ==> !Settled(polls, s, j))
    }

    /** Nothing went wrong up to poll k. */
    ghost predicate Undisturbed(polls: seq<Poll>, k: nat)
      requires k < |polls|
    {
      && (forall j :: 0 <= j <= k ==> polls[j].running && polls[j].reading != NoSocket && !Failed(polls[j]))
      && (forall j :: 0 <= j < k ==> Retried(polls[j]))
    }

    /** The reload is confirmed at poll k: a sighted worker was still current more
        than the settle time later, and nothing went wrong on the way. */
    ghost predicate Confirmed(polls: seq<Poll>, k: nat) {
      && k < |polls|
      && Undisturbed(polls, k)
      && exists s :: 0 <= s <= k && SettledFrom(polls, s, k)
    }

    /** A worker sighted before poll k is still current there. */
    predicate StillThere(polls: seq<Poll>, k: nat)
      requires k < |polls|
    {
      forall s :: 0 <= s < k && FirstSight(polls, s) ==> Survives(polls, s, k)
    }

    /** A worker sighted at or before poll k has settled there. */
    ghost predicate HasSettled(polls: seq<Poll>, k: nat)
      requires k < |polls|
    {
      exists s :: 0 <= s <= k && FirstSight(polls, s) && Settled(polls, s, k)
    }

    /** At poll k nothing has gone wrong and nothing is decided yet. */
    ghost predicate Open(polls: seq<Poll>, k: nat)
      requires k < |polls|
    {
      && polls[k].running && polls[k].reading != NoSocket && !Failed(polls[k])
      && StillThere(polls, k) && !HasSettled(polls, k)
    }

    // ---- the verdict of one poll, given what was sighted before it

    function Retry(poll: Poll): Verdict {
      if poll.deadlineClock > start + TIMEOUT then
        if poll.reading.Unreadable? then Unconfirmed else TimedOut
      else if poll.cancelled then Cancelled
      else Waiting
    }

    function Judge(poll: Poll, novel: seq<int>, sighted: int): Verdict {
      if !poll.running then NotRunning
      else match poll.reading
        case NoSocket => if poll.runningAfterSettle then Healthy else NotRunning
        case Unreadable => Retry(poll)
        case Proc(st) =>
          if st.failed > baseline.failed then ReloadFailed
          else if novel != [] && !Overlap(novel, st.pids) then WorkerLost
          else if novel != [] && poll.settleClock > sighted + SETTLE then Healthy
          else Retry(poll)
    }

    /** What the loop has under observation once it has taken in the first n polls. */
    function Sighting(polls: seq<Poll>, n: nat): (seq<int>, int)
      requires n <= |polls|
    {
      if n == 0 then ([], 0)
      else
        var before := Sighting(polls, n - 1);
        if before.0 != [] then before else (Fresh(polls[n - 1]), polls[n - 1].sightClock)
    }

    function VerdictAt(polls: seq<Poll>, k: nat): Verdict
      requires k < |polls|
    {
      var (novel, sighted) := Sighting(polls, k + 1);
      Judge(polls[k], novel, sighted)
    }

    /** The loop stops at poll k with this verdict. */
    ghost predicate StopsAt(polls: seq<Poll>, k: nat, v: Verdict) {
      && k < |polls| && v != Waiting && VerdictAt(polls, k) == v
      && forall j :: 0 <= j < k ==> VerdictAt(polls, j) == Waiting
    }
  }

  /** The loop, and from the readings alone which verdict it returns when. */
  method WaitForWorker(w: Wait, polls: seq<Poll>) returns (v: Verdict, n: nat)
    ensures v != Waiting ==> n > 0 && w.StopsAt(polls, n - 1, v)
    ensures v == Waiting ==> n == |polls| && forall j :: 0 <= j < n ==> w.VerdictAt(polls, j) == Waiting
    ensures n <= |polls| && forall j :: 0 <= j < (if v == Waiting then n else n - 1) ==>
      w.Open(polls, j) && polls[j].deadlineClock <= w.start + 15000 && !polls[j].cancelled
    ensures v != Waiting && !polls[n - 1].running ==> v == NotRunning
    ensures v != Waiting && polls[n - 1].running && polls[n - 1].reading == NoSocket ==>
      v == if polls[n - 1].runningAfterSettle then Healthy else NotRunning
    ensures v != Waiting && polls[n - 1].running && w.Failed(polls[n - 1]) ==> v == ReloadFailed
    ensures v != Waiting && polls[n - 1].running && polls[n - 1].reading.Proc? && !w.Failed(polls[n - 1]) ==>
      && (v == WorkerLost <==> !w.StillThere(polls, n - 1))
      && (v == Healthy <==> w.StillThere(polls, n - 1) && w.HasSettled(polls, n - 1))
    ensures v != Waiting && w.Open(polls, n - 1) ==>
      v == if polls[n - 1].deadlineClock <= w.start + 15000 then Cancelled
           else if polls[n - 1].reading.Unreadable? then Unconfirmed else TimedOut
    ensures v == Cancelled ==> polls[n - 1].cancelled
  {
    hide Wait.Open, Wait.StillThere, Wait.HasSettled;
    var deadline := w.start + TIMEOUT;
    var novel: seq<int> := [];
    var settled := SETTLE;
    n := 0;
    while n < |polls|
      invariant 0 <= n <= |polls|
      invariant novel == w.Sighting(polls, n).0
      invariant novel != [] ==> settled == w.Sighting(polls, n).1 + SETTLE
      invariant forall j :: 0 <= j < n ==> w.VerdictAt(polls, j) == Waiting
      invariant forall j :: 0 <= j < n ==>
        w.Open(polls, j) && polls[j].deadlineClock <= w.start + 15000 && !polls[j].cancelled
    {
      var poll := polls[n];
      n := n + 1;
      PollMeans(w, polls, n - 1);
      if !poll.running {
        return NotRunning, n;
      }
      match poll.reading {
        case NoSocket =>
          v := if poll.runningAfterSettle then Healthy else NotRunning;
          return;
        case Unreadable =>
        case Proc(st) =>
          if st.failed > w.baseline.failed {
            return ReloadFailed, n;
          }
          if novel == [] {
            if !w.expectReload && st.current > 0 {
              novel := st.pids;
              settled := poll.sightClock + SETTLE;
            } else if w.expectReload {
              var since := NewWorkersSince(st, w.baseline);
              if since != [] {
                novel := since;
                settled := poll.sightClock + SETTLE;
              }
            }
            assert novel != [] ==> Overlap(novel, st.pids) by {
              if novel != [] {
                assert novel[0] in novel && novel[0] in st.pids;
              }
            }
          } else {
            var held := ContainsAny(st, novel);
            if !held {
              return WorkerLost, n;
            }
          }
          if novel != [] && poll.settleClock > settled {
            return Healthy, n;
          }
      }
      if poll.deadlineClock > deadline {
        v := if poll.reading.Unreadable? then Unconfirmed else TimedOut;
        return;
      }
      if poll.cancelled {
        return Cancelled, n;
      }
    }
    v := Waiting;
  }

  // ---- what each verdict means

  /** The verdict of one poll, from the readings. */
  lemma PollMeans(w: Wait, polls: seq<Poll>, k: nat)
    requires k < |polls|
    ensures var poll, v := polls[k], w.VerdictAt(polls, k);
      && (!poll.running ==> v == NotRunning)
      && (poll.running && poll.reading == NoSocket ==> v == if poll.runningAfterSettle then Healthy else NotRunning)
      && (poll.running && w.Failed(poll) ==> v == ReloadFailed)
      && (poll.running && poll.reading.Proc? && !w.Failed(poll) ==>
            && (v == WorkerLost <==> !w.StillThere(polls, k))
            && (v == Healthy <==> w.StillThere(polls, k) && w.HasSettled(polls, k)))
      && (w.Open(polls, k) ==>
            v == if poll.deadlineClock > w.start + 15000 then
                   if poll.reading.Unreadable? then Unconfirmed else TimedOut
                 else if poll.cancelled then Cancelled else Waiting)
      && (v == Waiting ==> w.Open(polls, k) && poll.deadlineClock <= w.start + 15000 && !poll.cancelled)
  {
    SightMeans(w, polls, k);
    hide Wait.StillThere, Wait.HasSettled, Wait.Sighting;
  }

  /** What is under observation at poll k. */
  lemma SightMeans(w: Wait, polls: seq<Poll>, k: nat)
    requires k < |polls|
    ensures var (novel, sighted) := w.Sighting(polls, k + 1);
      && (polls[k].reading.Proc? ==>
            && (w.StillThere(polls, k) <==> novel == [] || Overlap(novel, polls[k].reading.st.pids))
            && (w.HasSettled(polls, k) <==> novel != [] && polls[k].settleClock > sighted + 2500))
      && (!polls[k].reading.Proc? ==> w.StillThere(polls, k) && !w.HasSettled(polls, k))
  {
    hide Overlap;
    SightingAt(w, polls, k + 1);
    if w.Sighting(polls, k + 1).0 != [] {
      var s :| 0 <= s < k + 1 && w.FirstSight(polls, s)
            && w.Sighting(polls, k + 1) == (w.Fresh(polls[s]), polls[s].sightClock);
      FreshHeld(w, polls[s]);
      assert forall r: nat :: w.FirstSight(polls, r) ==> r == s;
    }
  }

  // ---- what success means

  lemma {:induction false} SightingAt(w: Wait, polls: seq<Poll>, n: nat)
    requires n <= |polls|
    ensures w.Sighting(polls, n).0 == [] ==> forall j :: 0 <= j < n ==> w.Fresh(polls[j]) == []
    ensures w.Sighting(polls, n).0 != [] ==>
      exists s :: 0 <= s < n && w.FirstSight(polls, s)
               && w.Sighting(polls, n) == (w.Fresh(polls[s]), polls[s].sightClock)
  {
    if n > 0 {
      SightingAt(w, polls, n - 1);
      if w.Sighting(polls, n - 1).0 == [] && w.Sighting(polls, n).0 != [] {
        assert w.FirstSight(polls, n - 1);
      }
    }
  }

  lemma {:induction false} SightingFrom(w: Wait, polls: seq<Poll>, s: nat, n: nat)
    requires w.FirstSight(polls, s) && s < n <= |polls|
    ensures w.Sighting(polls, n) == (w.Fresh(polls[s]), polls[s].sightClock)
  {
    SightingAt(w, polls, n - 1);
    if n - 1 > s {
      SightingFrom(w, polls, s, n - 1);
    }
  }

  lemma {:induction false} SightingBefore(w: Wait, polls: seq<Poll>, s: nat, n: nat)
    requires w.FirstSight(polls, s) && n <= s
    ensures w.Sighting(polls, n).0 == []
  {
    if n > 0 {
      SightingBefore(w, polls, s, n - 1);
    }
  }

  lemma FreshHeld(w: Wait, poll: Poll)
    requires w.Fresh(poll) != []
    ensures poll.reading.Proc? && Overlap(w.Fresh(poll), poll.reading.st.pids)
  {
    var p := w.Fresh(poll)[0];
    assert p in poll.reading.st.pids;
  }

  /** The loop succeeds at a reading of the process table exactly when the reload
      is confirmed there. */
  lemma SuccessIsConfirmation(w: Wait, polls: seq<Poll>, k: nat)
    requires k < |polls| && polls[k].reading.Proc?
    ensures w.StopsAt(polls, k, Healthy) <==> w.Confirmed(polls, k)
  {
    if w.StopsAt(polls, k, Healthy) {
      SuccessConfirms(w, polls, k);
    }
    if w.Confirmed(polls, k) {
      ConfirmationSucceeds(w, polls, k);
    }
  }

  lemma SuccessConfirms(w: Wait, polls: seq<Poll>, k: nat)
    requires k < |polls| && polls[k].reading.Proc? && w.StopsAt(polls, k, Healthy)
    ensures w.Confirmed(polls, k)
  {
    SightingAt(w, polls, k + 1);
    var s :| 0 <= s < k + 1 && w.FirstSight(polls, s)
          && w.Sighting(polls, k + 1) == (w.Fresh(polls[s]), polls[s].sightClock);
    forall j | s < j <= k ensures w.Survives(polls, s, j) {
      assert w.VerdictAt(polls, j) == Waiting || j == k;
      SightingFrom(w, polls, s, j + 1);
    }
    forall j | s <= j < k ensures !w.Settled(polls, s, j) {
      assert w.VerdictAt(polls, j) == Waiting;
      SightingFrom(w, polls, s, j + 1);
    }
    assert w.SettledFrom(polls, s, k);
    forall j | 0 <= j < k ensures w.Retried(polls[j]) {
      assert w.VerdictAt(polls, j) == Waiting;
    }
    forall j | 0 <= j <= k
      ensures polls[j].running && polls[j].reading != NoSocket && !w.Failed(polls[j])
    {
      assert w.VerdictAt(polls, j) == Waiting || j == k;
    }
  }

  lemma ConfirmationSucceeds(w: Wait, polls: seq<Poll>, k: nat)
    requires w.Confirmed(polls, k)
    ensures w.StopsAt(polls, k, Healthy)
  {
    var s :| 0 <= s <= k && w.SettledFrom(polls, s, k);
    FreshHeld(w, polls[s]);
    SightingFrom(w, polls, s, k + 1);
    assert s < k ==> w.Survives(polls, s, k);
    forall j | 0 <= j < k ensures w.VerdictAt(polls, j) == Waiting {
      assert w.Retried(polls[j]);
      if j < s {
        SightingBefore(w, polls, s, j + 1);
      } else {
        SightingFrom(w, polls, s, j + 1);
        assert s < j ==> w.Survives(polls, s, j);
        assert !w.Settled(polls, s, j);
      }
    }
  }

  /** The clock is read once per poll. */
  predicate OneClock(polls: seq<Poll>) {
    forall j :: 0 <= j < |polls| ==> polls[j].sightClock == polls[j].settleClock == polls[j].deadlineClock
  }

  /** With a master socket and one clock reading per poll, a successful reload saw a
      set of pids that the baseline did not have, and a strictly later reading, more
      than the settle time after, still holds one of them, as does every successful
      reading in between; none of them counts a further failed reload. */
  lemma SuccessOutlivesSettle(w: Wait, polls: seq<Poll>, k: nat) returns (s: nat, novel: seq<int>)
    requires OneClock(polls) && k < |polls| && w.expectReload
    requires polls[k].reading.Proc? && w.StopsAt(polls, k, Healthy)
    ensures s < k < |polls| && polls[s].reading.Proc? && polls[k].sightClock > polls[s].sightClock + 2500
    ensures novel != []
    ensures forall p :: p in novel ==> p in polls[s].reading.st.pids && p !in w.baseline.pids
    ensures forall j :: s <= j <= k && polls[j].reading.Proc? ==> Overlap(novel, polls[j].reading.st.pids)
    ensures forall j :: 0 <= j <= k && polls[j].reading.Proc? ==> polls[j].reading.st.failed <= w.baseline.failed
  {
    SuccessConfirms(w, polls, k);
    hide *;
    s, novel := SightingOf(w, polls, k);
  }

  lemma SightingOf(w: Wait, polls: seq<Poll>, k: nat) returns (s: nat, novel: seq<int>)
    requires OneClock(polls) && w.expectReload && w.Confirmed(polls, k)
    ensures s < k < |polls| && polls[s].reading.Proc?
    ensures polls[k].sightClock > polls[s].sightClock + SETTLE
    ensures novel != []
    ensures forall p :: p in novel ==> p in polls[s].reading.st.pids && p !in w.baseline.pids
    ensures forall j :: s <= j <= k && polls[j].reading.Proc? ==> Overlap(novel, polls[j].reading.st.pids)
    ensures forall j :: 0 <= j <= k && polls[j].reading.Proc? ==> polls[j].reading.st.failed <= w.baseline.failed
  {
    hide Overlap;
    s :| 0 <= s <= k && w.SettledFrom(polls, s, k);
    novel := w.Fresh(polls[s]);
    FreshHeld(w, polls[s]);
    assert forall p :: p in novel ==> p in polls[s].reading.st.pids && p !in w.baseline.pids;
    hide Wait.Fresh;
    forall j | s <= j <= k && polls[j].reading.Proc?
      ensures Overlap(novel, polls[j].reading.st.pids)
    {
      assert j > s ==> w.Survives(polls, s, j);
    }
    forall j | 0 <= j <= k && polls[j].reading.Proc?
      ensures polls[j].reading.st.failed <= w.baseline.failed
    {
      assert !w.Failed(polls[j]);
    }
  }

  /** Each retry pauses for at least the retry interval. */
  predicate ClockAdvances(w: Wait, polls: seq<Poll>) {
    && (|polls| > 0 ==> polls[0].deadlineClock >= w.start)
    && forall j :: 0 < j < |polls| ==> polls[j].deadlineClock >= polls[j - 1].deadlineClock + 200
  }

  lemma {:induction false} ClockAt(w: Wait, polls: seq<Poll>, j: nat)
    requires ClockAdvances(w, polls) && j < |polls|
    ensures polls[j].deadlineClock >= w.start + RETRY * j
  {
    if j > 0 {
      ClockAt(w, polls, j - 1);
    }
  }

  /** The deadline bounds the loop: it never takes more than 77 polls. */
  lemma StopsByDeadline(w: Wait, polls: seq<Poll>)
    requires ClockAdvances(w, polls) && |polls| > 76
    ensures exists k: nat, v :: k <= 76 && w.StopsAt(polls, k, v)
  {
    var n := TIMEOUT / RETRY + 1;
    ClockAt(w, polls, n);
    assert w.VerdictAt(polls, n) != Waiting;
    var k := FirstStop(w, polls, n);
    assert w.StopsAt(polls, k, w.VerdictAt(polls, k));
  }

  lemma {:induction false} FirstStop(w: Wait, polls: seq<Poll>, n: nat) returns (k: nat)
    requires n < |polls| && w.VerdictAt(polls, n) != Waiting
    ensures k <= n && w.VerdictAt(polls, k) != Waiting
    ensures forall j :: 0 <= j < k ==> w.VerdictAt(polls, j) == Waiting
  {
    k := n;
    if j :| 0 <= j < n && w.VerdictAt(polls, j) != Waiting {
      k := FirstStop(w, polls, j);
    }
  }
}
