/** Process supervision as a state machine: any number of threads interleave Start,
    Reload, Restart and Shutdown with the watchers that reap the children. Every step
    is one action of the code: taking a lock, one test, one assignment. */
module Supervisor {
  import opened Wrappers

  /** Where the goroutine that watches a child stands. */
  datatype Watcher = Unborn | InWait | Closing | Locking | Recording | Done

  /** A child process: whether it still runs, whether Wait has reaped it, and how
      often its exit channel has been closed. */
  datatype Child = Child(alive: bool, reaped: bool, closes: nat, watcher: Watcher)

  // What a thread does once the start section is over.
  datatype After = Leave | Confirm | ConfirmReload

  /** The next action of a thread. */
  datatype Pc =
    | Idle
    // startLocked: s.mu is taken at StartLock and held until StartUnlock
    | StartLock(after: After)
    | StartTest(after: After)
    | StartSpawn(after: After)
    | StartPublish(after: After, child: nat)
    | StartUnlock(after: After, ok: bool)
    // Reload: s.reloadMu is taken first and held to the end
    | ReloadEnter
    | ReloadLock
    | ReloadTest
    | ReloadUnlock(child: nat)
    | ReloadSignal(child: nat)
    | Waiting(reload: bool)
    | Returning
    // stop: s.mu is held from StopTest to StopUnlock
    | StopLock(restart: bool)
    | StopTest(restart: bool)
    | StopUnlock(restart: bool, target: Option<nat>)
    | StopAwait(restart: bool, child: nat)
    | StopReturn(restart: bool, ok: bool)   // stop has returned to Restart or Shutdown

  datatype Holder = Free | Thread(t: nat) | Watch(c: nat)

  /** The supervisor's fields and the children it has started. */
  datatype Shared = Shared(
    mu: Holder, reloadMu: Option<nat>, cmd: Option<nat>, stopped: bool, children: seq<Child>)

  datatype State = State(shared: Shared, threads: seq<Pc>)

  predicate Init(s: State) {
    && s.shared.mu == Free && s.shared.reloadMu == None
    && s.shared.cmd == None && s.shared.children == []
    && forall t :: 0 <= t < |s.threads| ==> s.threads[t] == Idle
  }

  /** runningLocked: a command has been recorded and its exit channel is open. */
  predicate Running(s: Shared) {
    s.cmd.Some? && s.cmd.value < |s.children| && s.children[s.cmd.value].closes == 0
  }

  predicate HoldsMu(pc: Pc) {
    pc.StartTest? || pc.StartSpawn? || pc.StartPublish? || pc.StartUnlock?
    || pc.ReloadTest? || pc.ReloadUnlock? || pc.StopTest? || pc.StopUnlock?
  }

  predicate HoldsReloadMu(pc: Pc) {
    match pc
    case StartLock(after) => after == ConfirmReload
    case StartTest(after) => after == ConfirmReload
    case StartSpawn(after) => after == ConfirmReload
    case StartPublish(after, _) => after == ConfirmReload
    case StartUnlock(after, _) => after == ConfirmReload
    case Waiting(reload) => reload
    case _ => pc.ReloadLock? || pc.ReloadTest? || pc.ReloadUnlock? || pc.ReloadSignal? || pc.Returning?
  }

  function AfterStart(after: After, ok: bool): Pc {
    match after
    case Leave => Idle
    case Confirm => if ok then Waiting(false) else Idle
    case ConfirmReload => if ok then Waiting(true) else Returning
  }

  /** One action of thread t, which stands at pc before and at pc' after. */
  predicate Act(s: Shared, t: nat, pc: Pc, s': Shared, pc': Pc) {
    match pc
    case Idle =>
      s' == s && pc' in {StartLock(Leave), ReloadEnter, StopLock(true), StopLock(false)}
    case StartLock(after) =>
      s.mu == Free && s' == s.(mu := Thread(t)) && pc' == StartTest(after)
    case StartTest(after) =>
      && s' == s
      && if Running(s) then pc' == StartUnlock(after, true)
         else pc' in {StartUnlock(after, false), StartSpawn(after)}   // no binary or no file, or go on
    case StartSpawn(after) =>
      || (s' == s && pc' == StartUnlock(after, false))
      || (&& s' == s.(children := s.children + [Child(true, false, 0, Unborn)])
          && pc' == StartPublish(after, |s.children|))
    case StartPublish(after, child) =>
      && child < |s.children|
      && s' == s.(cmd := Some(child), stopped := false,
                  children := s.children[child := s.children[child].(watcher := InWait)])
      && pc' == StartUnlock(after, true)
    case StartUnlock(after, ok) =>
      s' == s.(mu := Free) && pc' == AfterStart(after, ok)
    case ReloadEnter =>
      s.reloadMu == None && s' == s.(reloadMu := Some(t)) && pc' == ReloadLock
    case ReloadLock =>
      s.mu == Free && s' == s.(mu := Thread(t)) && pc' == ReloadTest
    case ReloadTest =>
      s' == s && pc' == if Running(s) then ReloadUnlock(s.cmd.value) else StartTest(ConfirmReload)
    case ReloadUnlock(child) =>
      s' == s.(mu := Free) && pc' == ReloadSignal(child)
    case ReloadSignal(_) =>
      s' == s && pc' in {Waiting(true), Returning}
    case Waiting(reload) =>
      s' == s && pc' == if reload then Returning else Idle
    case Returning =>
      s' == s.(reloadMu := None) && pc' == Idle
    case StopLock(restart) =>
      s.mu == Free && s' == s.(mu := Thread(t)) && pc' == StopTest(restart)
    case StopTest(restart) =>
      if Running(s) then s' == s.(stopped := true) && pc' == StopUnlock(restart, s.cmd)
      else s' == s && pc' == StopUnlock(restart, None)
    case StopUnlock(restart, target) =>
      && s' == s.(mu := Free)
      && pc' == if target.Some? then StopAwait(restart, target.value) else StopReturn(restart, true)
    case StopAwait(restart, child) =>
      && s' == s
      && (|| pc' == StopReturn(restart, false)   // neither the soft stop nor the kill was confirmed in time
          || (child < |s.children| && s.children[child].closes > 0 && pc' == StopReturn(restart, true)))
    case StopReturn(restart, ok) =>
      s' == s && pc' == if restart && ok then StartLock(Confirm) else Idle
  }

  predicate ThreadStep(s: State, t: nat, s': State) {
    && t < |s.threads| == |s'.threads|
    && (forall u :: 0 <= u < |s.threads| && u != t ==> s'.threads[u] == s.threads[u])
    && Act(s.shared, t, s.threads[t], s'.shared, s'.threads[t])
  }

  /** One action of child c itself, or of the goroutine that watches it. */
  predicate WatcherAct(s: Shared, c: nat, s': Shared) {
    && c < |s.children|
    && var child := s.children[c];
       || (child.alive && s' == s.(children := s.children[c := child.(alive := false)]))
       || match child.watcher
         case InWait =>
           !child.alive && s' == s.(children := s.children[c := child.(reaped := true, watcher := Closing)])
         case Closing =>
           s' == s.(children := s.children[c := child.(closes := child.closes + 1, watcher := Locking)])
         case Locking =>
           s.mu == Free && s' == s.(mu := Watch(c), children := s.children[c := child.(watcher := Recording)])
         case Recording =>
           s' == s.(mu := Free, children := s.children[c := child.(watcher := Done)])
         case _ => false
  }

  ghost predicate Step(s: State, s': State) {
    || (exists t: nat :: ThreadStep(s, t, s'))
    || (s'.threads == s.threads && exists c: nat :: WatcherAct(s.shared, c, s'.shared))
  }

  // ---- what every step keeps

  /** The mutexes are held by exactly the threads and watchers inside them. */
  predicate Locked(s: State) {
    && (forall t :: 0 <= t < |s.threads| ==> (HoldsMu(s.threads[t]) <==> s.shared.mu == Thread(t)))
    && (forall t :: 0 <= t < |s.threads| ==> (HoldsReloadMu(s.threads[t]) <==> s.shared.reloadMu == Some(t)))
    && (s.shared.mu.Thread? ==> s.shared.mu.t < |s.threads|)
    && (s.shared.mu.Watch? ==> s.shared.mu.c < |s.shared.children|)
    && (s.shared.reloadMu.Some? ==> s.shared.reloadMu.value < |s.threads|)
  }

  predicate WatchedChild(s: Shared, c: nat)
    requires c < |s.children|
  {
    var child := s.children[c];
    && (child.reaped <==> child.watcher in {Closing, Locking, Recording, Done})
    && (child.reaped ==> !child.alive)
    && child.closes == (if child.watcher in {Locking, Recording, Done} then 1 else 0)
    && (child.watcher == Recording <==> s.mu == Watch(c))
  }

  /** The child a thread has started and not recorded yet. */
  function Unrecorded(pc: Pc): Option<nat> {
    if pc.StartPublish? then Some(pc.child) else None
  }

  /** Every child that is not reaped is the recorded one, or the one being recorded. */
  predicate Accounted(s: Shared, unrecorded: Option<nat>) {
    && (forall c :: 0 <= c < |s.children| ==> WatchedChild(s, c))
    && (s.cmd.Some? ==> s.cmd.value < |s.children| && s.children[s.cmd.value].watcher != Unborn)
    && (forall c :: 0 <= c < |s.children| && !s.children[c].reaped ==> s.cmd == Some(c) || unrecorded == Some(c))
  }

  function HolderUnrecorded(s: State): Option<nat> {
    if s.shared.mu.Thread? && s.shared.mu.t < |s.threads| then Unrecorded(s.threads[s.shared.mu.t]) else None
  }

  predicate Knows(s: Shared, pc: Pc) {
    match pc
    case StartSpawn(_) => !Running(s)
    case StartPublish(_, c) => !Running(s) && c < |s.children| && s.children[c].watcher == Unborn
    case StartUnlock(_, ok) => if ok then s.cmd.Some? else !Running(s)
    case Waiting(_) => s.cmd.Some?
    case ReloadUnlock(c) => s.cmd == Some(c)
    case ReloadSignal(c) => c < |s.children| && s.cmd.Some?
    case StopUnlock(_, target) => target.Some? ==> s.stopped && s.cmd == target
    case StopAwait(_, c) => c < |s.children| && s.children[c].watcher != Unborn
    case _ => true
  }

  predicate Inv(s: State) {
    && Locked(s)
    && Accounted(s.shared, HolderUnrecorded(s))
    && forall t :: 0 <= t < |s.threads| ==> Knows(s.shared, s.threads[t])
  }

  lemma ActLocks(s: Shared, t: nat, pc: Pc, s': Shared, pc': Pc)
    requires Act(s, t, pc, s', pc')
    requires HoldsMu(pc) <==> s.mu == Thread(t)
    requires HoldsReloadMu(pc) <==> s.reloadMu == Some(t)
    ensures HoldsMu(pc') <==> s'.mu == Thread(t)
    ensures HoldsReloadMu(pc') <==> s'.reloadMu == Some(t)
    ensures s'.mu == s.mu || (s.mu == Free && s'.mu == Thread(t)) || (s.mu == Thread(t) && s'.mu == Free)
    ensures s'.reloadMu == s.reloadMu || (s.reloadMu == None && s'.reloadMu == Some(t))
         || (s.reloadMu == Some(t) && s'.reloadMu == None)
  {
    hide Act, HoldsMu, HoldsReloadMu;
    ActMu(s, t, pc, s', pc');
    ActReloadMu(s, t, pc, s', pc');
  }

  lemma ActMu(s: Shared, t: nat, pc: Pc, s': Shared, pc': Pc)
    requires Act(s, t, pc, s', pc')
    requires HoldsMu(pc) <==> s.mu == Thread(t)
    ensures HoldsMu(pc') <==> s'.mu == Thread(t)
    ensures s'.mu == s.mu || (s.mu == Free && s'.mu == Thread(t)) || (s.mu == Thread(t) && s'.mu == Free)
  {
    hide HoldsReloadMu;
  }

  lemma ActReloadMu(s: Shared, t: nat, pc: Pc, s': Shared, pc': Pc)
    requires Act(s, t, pc, s', pc')
    requires HoldsReloadMu(pc) <==> s.reloadMu == Some(t)
    ensures HoldsReloadMu(pc') <==> s'.reloadMu == Some(t)
    ensures s'.reloadMu == s.reloadMu || (s.reloadMu == None && s'.reloadMu == Some(t))
         || (s.reloadMu == Some(t) && s'.reloadMu == None)
  {
    hide HoldsMu;
  }

  /** Outside the mutex a thread leaves the recorded command and the children alone. */
  lemma ActOutside(s: Shared, t: nat, pc: Pc, s': Shared, pc': Pc)
    requires Act(s, t, pc, s', pc') && !HoldsMu(pc) && Knows(s, pc)
    requires forall c :: 0 <= c < |s.children| ==> WatchedChild(s, c)
    ensures s'.children == s.children && s'.cmd == s.cmd && s'.stopped == s.stopped && Unrecorded(pc') == None
    ensures Knows(s', pc')
  {
    assert pc.StopAwait? && pc.child < |s.children| ==> WatchedChild(s, pc.child);
  }

  lemma ActInside(s: Shared, t: nat, pc: Pc, s': Shared, pc': Pc)
    requires Act(s, t, pc, s', pc') && HoldsMu(pc) && s.mu == Thread(t)
    requires Accounted(s, Unrecorded(pc)) && Knows(s, pc)
    ensures Accounted(s', Unrecorded(pc')) && Knows(s', pc')
    ensures |s'.children| >= |s.children| && (s.cmd.Some? ==> s'.cmd.Some?)
    ensures forall c :: 0 <= c < |s.children| ==> s'.children[c].reaped == s.children[c].reaped
    ensures forall c :: 0 <= c < |s.children| && s.children[c].watcher != Unborn ==> s'.children[c].watcher != Unborn
  {
    forall c | 0 <= c < |s'.children| ensures WatchedChild(s', c) {
      assert c < |s.children| ==> WatchedChild(s, c);
    }
    if pc.StartSpawn? || pc.StartPublish? {
      ActStarts(s, t, pc, s', pc');
    } else {
      assert s'.children == s.children && s'.cmd == s.cmd;
      assert Unrecorded(pc) == Unrecorded(pc') == None;
      assert Knows(s', pc') by { ActKnows(s, t, pc, s', pc'); }
    }
  }

  lemma ActKnows(s: Shared, t: nat, pc: Pc, s': Shared, pc': Pc)
    requires Act(s, t, pc, s', pc') && HoldsMu(pc) && !pc.StartSpawn? && !pc.StartPublish?
    requires Accounted(s, Unrecorded(pc)) && Knows(s, pc)
    ensures Knows(s', pc')
  {
    hide WatchedChild;
  }

  lemma ActStarts(s: Shared, t: nat, pc: Pc, s': Shared, pc': Pc)
    requires Act(s, t, pc, s', pc') && s.mu == Thread(t) && (pc.StartSpawn? || pc.StartPublish?)
    requires Accounted(s, Unrecorded(pc)) && Knows(s, pc)
    ensures s'.cmd.Some? ==> s'.cmd.value < |s'.children| && s'.children[s'.cmd.value].watcher != Unborn
    ensures forall c :: 0 <= c < |s'.children| && !s'.children[c].reaped ==>
      s'.cmd == Some(c) || Unrecorded(pc') == Some(c)
    ensures Knows(s', pc')
    ensures |s'.children| >= |s.children|
    ensures forall c :: 0 <= c < |s.children| ==> s'.children[c].reaped == s.children[c].reaped
    ensures forall c :: 0 <= c < |s.children| && s.children[c].watcher != Unborn ==> s'.children[c].watcher != Unborn
  {
    assert s.cmd.Some? ==> WatchedChild(s, s.cmd.value);
  }

  lemma ThreadStepKeepsInv(s: State, t: nat, s': State)
    requires Inv(s) && ThreadStep(s, t, s')
    ensures Inv(s')
  {
    var pc, pc' := s.threads[t], s'.threads[t];
    assert Knows(s.shared, pc);
    assert HoldsMu(pc) <==> s.shared.mu == Thread(t);
    assert HoldsReloadMu(pc) <==> s.shared.reloadMu == Some(t);
    ActLocks(s.shared, t, pc, s'.shared, pc');
    if HoldsMu(pc) {
      ActInside(s.shared, t, pc, s'.shared, pc');
    } else {
      ActOutside(s.shared, t, pc, s'.shared, pc');
    }
    hide Act, Knows, HoldsMu, HoldsReloadMu, WatchedChild;
    assert Locked(s');
    ThreadStepKeepsRest(s, t, s');
  }

  lemma ThreadStepKeepsRest(s: State, t: nat, s': State)
    requires Inv(s) && ThreadStep(s, t, s') && Locked(s')
    requires HoldsMu(s.threads[t]) ==> Accounted(s'.shared, Unrecorded(s'.threads[t]))
    requires !HoldsMu(s.threads[t]) ==>
      && s'.shared.children == s.shared.children && s'.shared.cmd == s.shared.cmd
      && s'.shared.stopped == s.shared.stopped && Unrecorded(s'.threads[t]) == None
    requires s.shared.cmd.Some? ==> s'.shared.cmd.Some?
    requires Knows(s'.shared, s'.threads[t])
    requires |s'.shared.children| >= |s.shared.children|
    requires forall c :: 0 <= c < |s.shared.children| ==>
      s'.shared.children[c].reaped == s.shared.children[c].reaped
    requires forall c :: 0 <= c < |s.shared.children| && s.shared.children[c].watcher != Unborn ==>
      s'.shared.children[c].watcher != Unborn
    requires s'.shared.mu == s.shared.mu || (s.shared.mu == Free && s'.shared.mu == Thread(t))
          || (s.shared.mu == Thread(t) && s'.shared.mu == Free)
    ensures Inv(s')
  {
    hide Act, HoldsReloadMu;
    forall u | 0 <= u < |s'.threads| ensures Knows(s'.shared, s'.threads[u]) {
      if u != t {
        assert Knows(s.shared, s.threads[u]);
        assert HoldsMu(s.threads[u]) <==> s.shared.mu == Thread(u);
      }
    }
    assert HoldsMu(s.threads[t]) <==> s.shared.mu == Thread(t);
    assert HoldsMu(s'.threads[t]) <==> s'.shared.mu == Thread(t);
    if !HoldsMu(s.threads[t]) {
      forall c | 0 <= c < |s'.shared.children| ensures WatchedChild(s'.shared, c) {
        assert WatchedChild(s.shared, c);
      }
    }
  }

  lemma WatcherKeepsInv(s: State, c: nat, s': State)
    requires Inv(s) && s'.threads == s.threads && WatcherAct(s.shared, c, s'.shared)
    ensures Inv(s')
  {
    var a, b := s.shared, s'.shared;
    assert WatchedChild(a, c);
    assert |b.children| == |a.children| && b.cmd == a.cmd && b.reloadMu == a.reloadMu;
    assert forall d :: 0 <= d < |a.children| && d != c ==> b.children[d] == a.children[d];
    forall d | 0 <= d < |b.children| ensures WatchedChild(b, d) {
      assert WatchedChild(a, d);
    }
    WatcherKeepsKnowledge(s, c, s');
    WatcherKeepsLocks(s, c, s');
    hide Knows, Locked, HoldsMu, HoldsReloadMu;
    assert a.mu == b.mu || HolderUnrecorded(s) == HolderUnrecorded(s') == None;
  }

  lemma WatcherKeepsLocks(s: State, c: nat, s': State)
    requires Inv(s) && s'.threads == s.threads && WatcherAct(s.shared, c, s'.shared)
    ensures Locked(s')
  {
    hide Knows, HoldsMu, HoldsReloadMu;
    var a, b := s.shared, s'.shared;
    assert WatchedChild(a, c);
    assert |b.children| == |a.children| && b.reloadMu == a.reloadMu;
    assert a.mu == b.mu || (a.mu == Free && b.mu == Watch(c)) || (a.mu == Watch(c) && b.mu == Free);
  }

  lemma WatcherKeepsKnowledge(s: State, c: nat, s': State)
    requires Inv(s) && s'.threads == s.threads && WatcherAct(s.shared, c, s'.shared)
    ensures forall u :: 0 <= u < |s'.threads| ==> Knows(s'.shared, s'.threads[u])
  {
    hide Locked;
    var a, b := s.shared, s'.shared;
    assert WatchedChild(a, c);
    assert forall d :: 0 <= d < |a.children| && d != c ==> b.children[d] == a.children[d];
    forall u | 0 <= u < |s'.threads| ensures Knows(b, s'.threads[u]) {
      assert Knows(a, s.threads[u]);
    }
  }

  lemma InitHolds(s: State)
    requires Init(s)
    ensures Inv(s)
  {
  }

  /** Every step of every thread, watcher and child keeps the invariant. */
  lemma StepKeepsInv(s: State, s': State)
    requires Inv(s) && Step(s, s')
    ensures Inv(s')
  {
    hide Inv;
    if t: nat :| ThreadStep(s, t, s') {
      ThreadStepKeepsInv(s, t, s');
    } else {
      var c: nat :| WatcherAct(s.shared, c, s'.shared);
      WatcherKeepsInv(s, c, s');
    }
  }

  ghost predicate Run(states: seq<State>) {
    && states != [] && Init(states[0])
    && forall i :: 0 < i < |states| ==> Step(states[i - 1], states[i])
  }

  lemma {:induction false} RunKeepsInv(states: seq<State>, i: nat)
    requires Run(states) && i < |states|
    ensures Inv(states[i])
  {
    hide Inv, Step;
    if i == 0 {
      InitHolds(states[0]);
    } else {
      RunKeepsInv(states, i - 1);
      StepKeepsInv(states[i - 1], states[i]);
    }
  }

  // ---- safety of every run

  function Children(states: seq<State>, i: nat): seq<Child>
    requires i < |states|
  {
    states[i].shared.children
  }

  /** At no point of any run do two children live, or wait to be reaped. */
  lemma AtMostOneChild(states: seq<State>, i: nat, c: nat, d: nat)
    requires Run(states) && i < |states|
    requires c < d < |Children(states, i)|
    ensures Children(states, i)[c].reaped || Children(states, i)[d].reaped
  {
    RunKeepsInv(states, i);
    var s := states[i];
    if s.shared.mu.Thread? {
      assert Knows(s.shared, s.threads[s.shared.mu.t]);
      assert s.shared.cmd.Some? ==> WatchedChild(s.shared, s.shared.cmd.value);
    }
  }

  /** A new child is started only once every earlier child has been reaped. */
  lemma StartsAfterReaping(states: seq<State>, i: nat, c: nat)
    requires Run(states) && i + 1 < |states| && c < |Children(states, i)|
    requires |Children(states, i + 1)| > |Children(states, i)|
    ensures Children(states, i)[c].reaped
  {
    RunKeepsInv(states, i);
    var s, s' := states[i], states[i + 1];
    assert Step(s, s');
    var t: nat :| ThreadStep(s, t, s');
    assert Knows(s.shared, s.threads[t]);
    assert HoldsMu(s.threads[t]) <==> s.shared.mu == Thread(t);
    assert s.threads[t].StartSpawn?;
    assert s.shared.cmd.Some? ==> WatchedChild(s.shared, s.shared.cmd.value);
  }

  /** Each exit channel is closed at most once, and only after its child is reaped. */
  lemma ChannelsCloseOnce(states: seq<State>, i: nat, c: nat)
    requires Run(states) && i < |states| && c < |Children(states, i)|
    ensures Children(states, i)[c].closes <= if Children(states, i)[c].reaped then 1 else 0
  {
    RunKeepsInv(states, i);
    assert WatchedChild(states[i].shared, c);
  }

  /** At most one thread is between entering Reload and returning from it, so two
      reloads never signal the master or judge it at the same time. */
  lemma OneReloadAtATime(states: seq<State>, i: nat, t: nat, u: nat)
    requires Run(states) && i < |states| && t < |states[i].threads| && u < |states[i].threads|
    requires HoldsReloadMu(states[i].threads[t]) && HoldsReloadMu(states[i].threads[u])
    ensures t == u
  {
    RunKeepsInv(states, i);
  }

  // ---- what stopping means

  /** The child has been reaped and its exit channel is closed. */
  predicate Gone(s: Shared, c: nat) {
    c < |s.children| && s.children[c].reaped && s.children[c].closes > 0
  }

  /** Thread t is still between its test and the end of the wait for child c. */
  predicate Stopping(s: State, t: nat, c: nat) {
    && t < |s.threads| && c < |s.shared.children|
    && match s.threads[t]
       case StopTest(_) => s.shared.mu == Thread(t) && s.shared.cmd == Some(c)
       case StopUnlock(_, target) => target == Some(c)
       case StopAwait(_, child) => child == c
       case StopReturn(_, ok) => !ok
       case Idle => true
       case _ => false
  }

  lemma StepKeepsGone(s: State, s': State, c: nat)
    requires Inv(s) && Inv(s') && Step(s, s') && Gone(s.shared, c)
    ensures Gone(s'.shared, c)
  {
    hide Act, WatcherAct, Knows, Locked;
    if t: nat :| ThreadStep(s, t, s') {
      ClosesStay(s, t, s', c);
    } else {
      var d: nat :| WatcherAct(s.shared, d, s'.shared);
      ClosesGrow(s.shared, d, s'.shared, c);
    }
    assert WatchedChild(s'.shared, c);
  }

  lemma ClosesGrow(s: Shared, d: nat, s': Shared, c: nat)
    requires WatcherAct(s, d, s') && c < |s.children|
    ensures c < |s'.children| && s'.children[c].closes >= s.children[c].closes
  {
  }

  lemma ClosesStay(s: State, t: nat, s': State, c: nat)
    requires Inv(s) && ThreadStep(s, t, s') && c < |s.shared.children|
    ensures c < |s'.shared.children| && s'.shared.children[c].closes == s.shared.children[c].closes
  {
    assert Knows(s.shared, s.threads[t]);
  }

  /** From its test on, a stopping thread waits for its child until that is gone or the
      wait has failed; only a failed wait, or one that is over, ends in Idle. */
  lemma StepKeepsStopping(s: State, s': State, t: nat, c: nat)
    requires Inv(s) && Inv(s') && Step(s, s') && Stopping(s, t, c) && s.threads[t] != Idle
    ensures Gone(s'.shared, c) || Stopping(s', t, c)
  {
    if u: nat :| ThreadStep(s, u, s') {
      ClosesStay(s, u, s', c);
      assert WatchedChild(s.shared, c) && WatchedChild(s'.shared, c);
      if u == t {
        StopperActs(s, t, s', c);
      } else {
        OthersWait(s, u, s', t, c);
      }
    } else {
      var d: nat :| WatcherAct(s.shared, d, s'.shared);
      assert |s'.shared.children| == |s.shared.children|;
      WatcherLeavesStopper(s, d, s', t, c);
    }
  }

  lemma StopperActs(s: State, t: nat, s': State, c: nat)
    requires ThreadStep(s, t, s') && Stopping(s, t, c) && s.threads[t] != Idle
    requires WatchedChild(s.shared, c) && c < |s'.shared.children|
    requires s'.shared.children[c].closes == s.shared.children[c].closes && WatchedChild(s'.shared, c)
    ensures Gone(s'.shared, c) || Stopping(s', t, c)
  {
  }

  lemma OthersWait(s: State, u: nat, s': State, t: nat, c: nat)
    requires Inv(s) && ThreadStep(s, u, s') && u != t && Stopping(s, t, c) && c < |s'.shared.children|
    ensures Stopping(s', t, c)
  {
    assert HoldsMu(s.threads[u]) <==> s.shared.mu == Thread(u);
    if !HoldsMu(s.threads[u]) {
      assert Knows(s.shared, s.threads[u]);
      ActOutside(s.shared, u, s.threads[u], s'.shared, s'.threads[u]);
    }
    if s.threads[t].StopTest? {
      ActLocks(s.shared, u, s.threads[u], s'.shared, s'.threads[u]);
    }
  }

  lemma WatcherLeavesStopper(s: State, d: nat, s': State, t: nat, c: nat)
    requires Inv(s) && WatcherAct(s.shared, d, s'.shared) && s'.threads == s.threads && Stopping(s, t, c)
    requires |s'.shared.children| == |s.shared.children|
    ensures Stopping(s', t, c)
  {
    assert WatchedChild(s.shared, d);
  }

  /** Thread t entered stop at i while child c ran, and has not left it since. */
  ghost predicate StopsFrom(states: seq<State>, t: nat, i: nat, j: nat, c: nat) {
    && Run(states) && i < j < |states|
    && (forall k :: i <= k <= j ==> t < |states[k].threads|)
    && states[i].threads[t].StopTest? && Running(states[i].shared) && states[i].shared.cmd == Some(c)
    && (forall k :: i < k < j ==> states[k].threads[t] != Idle)
  }

  lemma {:induction false} StoppingUntil(states: seq<State>, t: nat, i: nat, j: nat, c: nat)
    requires StopsFrom(states, t, i, j, c)
    ensures Gone(states[j].shared, c) || Stopping(states[j], t, c)
    decreases j
  {
    hide Inv, Step, Gone, Stopping;
    RunKeepsInv(states, j - 1);
    RunKeepsInv(states, j);
    var s, s' := states[j - 1], states[j];
    assert Step(s, s');
    if i < j - 1 {
      StoppingUntil(states, t, i, j - 1, c);
    } else {
      StoppingStarts(s, t, c);
    }
    if Gone(s.shared, c) {
      StepKeepsGone(s, s', c);
    } else {
      StepKeepsStopping(s, s', t, c);
    }
  }

  lemma StoppingStarts(s: State, t: nat, c: nat)
    requires Inv(s) && t < |s.threads| && s.threads[t].StopTest? && Running(s.shared) && s.shared.cmd == Some(c)
    ensures Stopping(s, t, c)
  {
    assert HoldsMu(s.threads[t]);
  }

  /** A Restart that was called while a child ran, and that gets as far as starting
      again, has waited for that child: it is reaped and its channel is closed. */
  lemma RestartWaitsForExit(states: seq<State>, t: nat, i: nat, j: nat, c: nat)
    requires StopsFrom(states, t, i, j, c)
    requires states[j].threads[t].StartLock? || states[j].threads[t].StartTest? || states[j].threads[t].StartSpawn?
    ensures Gone(states[j].shared, c)
  {
    StoppingUntil(states, t, i, j, c);
  }

  /** When stop returns without its timeout, to Restart or to Shutdown, the child that
      ran when it was called is gone. */
  lemma StopWaitsForExit(states: seq<State>, t: nat, i: nat, j: nat, c: nat)
    requires StopsFrom(states, t, i, j, c)
    requires states[j].threads[t].StopReturn? && states[j].threads[t].ok
    ensures Gone(states[j].shared, c)
  {
    StoppingUntil(states, t, i, j, c);
  }

  /** Whenever a thread is about to ask a child to stop, that child is the recorded one
      and the stop has been noted. */
  lemma StopIsNoted(states: seq<State>, i: nat, t: nat)
    requires Run(states) && i < |states| && t < |states[i].threads|
    requires states[i].threads[t].StopUnlock? && states[i].threads[t].target.Some?
    ensures states[i].shared.stopped && states[i].shared.cmd == states[i].threads[t].target
  {
    RunKeepsInv(states, i);
    assert Knows(states[i].shared, states[i].threads[t]);
  }

  /** A reload signals the child that was recorded and running at its test. */
  lemma ReloadPicksRecorded(states: seq<State>, i: nat, t: nat)
    requires Run(states) && i < |states| && t < |states[i].threads| && states[i].threads[t].ReloadUnlock?
    ensures states[i].shared.cmd == Some(states[i].threads[t].child)
  {
    RunKeepsInv(states, i);
    assert Knows(states[i].shared, states[i].threads[t]);
  }

  /** A start that reports success left a recorded child; one that reports failure left
      none running. Nobody waits for a worker before a child is recorded. */
  lemma StartReports(states: seq<State>, i: nat, t: nat)
    requires Run(states) && i < |states| && t < |states[i].threads|
    ensures var s, pc := states[i].shared, states[i].threads[t];
            && (pc.StartUnlock? ==> if pc.ok then s.cmd.Some? else !Running(s))
            && (pc.Waiting? ==> s.cmd.Some?)
  {
    RunKeepsInv(states, i);
    assert Knows(states[i].shared, states[i].threads[t]);
  }

  // ---- the way of one call

  /** Thread t takes its next action at i. */
  ghost predicate Moves(states: seq<State>, t: nat, i: nat) {
    && Run(states) && i + 1 < |states| && t < |states[i].threads|
    && states[i + 1].threads != states[i].threads
    && t < |states[i + 1].threads| && states[i + 1].threads[t] != states[i].threads[t]
  }

  /** It took that action at i and has not been back to Idle from there to j. */
  ghost predicate Underway(states: seq<State>, t: nat, i: nat, j: nat) {
    && Moves(states, t, i) && i < j < |states|
    && (forall k :: i <= k <= j ==> t < |states[k].threads|)
    && forall k :: i < k < j ==> states[k].threads[t] != Idle
  }

  /** On its way from i to j the thread stood here. */
  predicate Passed(states: seq<State>, t: nat, i: nat, j: nat, pc: Pc) {
    exists k :: i < k < j < |states| && t < |states[k].threads| && states[k].threads[t] == pc
  }

  lemma PassedNow(states: seq<State>, t: nat, i: nat, j: nat)
    requires i < j && j + 1 < |states| && t < |states[j].threads|
    ensures Passed(states, t, i, j + 1, states[j].threads[t])
    ensures forall pc :: Passed(states, t, i, j, pc) ==> Passed(states, t, i, j + 1, pc)
  {
    forall pc | Passed(states, t, i, j, pc) ensures Passed(states, t, i, j + 1, pc) {
      var k :| i < k < j < |states| && t < |states[k].threads| && states[k].threads[t] == pc;
    }
  }

  /** A thread stays where it is or takes its own action. */
  lemma OwnAction(states: seq<State>, t: nat, i: nat)
    requires Run(states) && i + 1 < |states| && t < |states[i].threads|
    ensures |states[i + 1].threads| == |states[i].threads|
    ensures var (s, s') := (states[i], states[i + 1]);
            s'.threads[t] == s.threads[t] || Act(s.shared, t, s.threads[t], s'.shared, s'.threads[t])
  {
    hide Act, WatcherAct;
    var s, s' := states[i], states[i + 1];
    assert Step(s, s');
    if u: nat :| ThreadStep(s, u, s') {
      assert u != t ==> s'.threads[t] == s.threads[t];
    }
  }

  /** The points between the test of a reload and its end. */
  predicate ReloadPoint(pc: Pc, child: Option<nat>) {
    match pc
    case ReloadUnlock(c) => child == Some(c)
    case ReloadSignal(c) => child == Some(c)
    case StartTest(after) => child == None && after == ConfirmReload
    case StartSpawn(after) => child == None && after == ConfirmReload
    case StartPublish(after, _) => child == None && after == ConfirmReload
    case StartUnlock(after, _) => child == None && after == ConfirmReload
    case Waiting(reload) => reload
    case _ => pc.Returning? || pc.Idle?
  }

  lemma ReloadActs(s: Shared, t: nat, pc: Pc, s': Shared, pc': Pc, child: Option<nat>)
    requires Act(s, t, pc, s', pc') && pc != Idle
    requires ReloadPoint(pc, child) || (pc == ReloadTest && child == if Running(s) then s.cmd else None)
    ensures ReloadPoint(pc', child)
    ensures pc'.Waiting? ==> pc == if child.Some? then ReloadSignal(child.value) else StartUnlock(ConfirmReload, true)
  {
  }

  /** A reload whose test finds a child running signals that child before it waits, and
      starts nothing; otherwise it starts one before it waits, and signals nothing. */
  lemma {:induction false} ReloadSignalsOrStarts(states: seq<State>, t: nat, i: nat, j: nat)
    requires Underway(states, t, i, j) && states[i].threads[t] == ReloadTest
    ensures var child := if Running(states[i].shared) then states[i].shared.cmd else None;
      var pc := states[j].threads[t];
      && ReloadPoint(pc, child)
      && (pc.Waiting? ==>
            Passed(states, t, i, j,
                   if child.Some? then ReloadSignal(child.value) else StartUnlock(ConfirmReload, true)))
    decreases j
  {
    hide Act, ReloadPoint, Passed, Running, Step;
    var child := if Running(states[i].shared) then states[i].shared.cmd else None;
    OwnAction(states, t, j - 1);
    var s, s' := states[j - 1], states[j];
    if j - 1 > i {
      ReloadSignalsOrStarts(states, t, i, j - 1);
      PassedNow(states, t, i, j - 1);
    }
    if s'.threads[t] != s.threads[t] {
      ReloadActs(s.shared, t, s.threads[t], s'.shared, s'.threads[t], child);
    }
  }

  /** The points between the test of a start and the end of its section. */
  predicate StartPoint(pc: Pc, after: After, ran: bool) {
    match pc
    case StartSpawn(a) => a == after && !ran
    case StartPublish(a, _) => a == after && !ran
    case StartUnlock(a, ok) => a == after && (ran ==> ok)
    case _ => false
  }

  ghost predicate Starting(states: seq<State>, t: nat, i: nat, j: nat, after: After) {
    && Moves(states, t, i) && i < j < |states| && states[i].threads[t] == StartTest(after)
    && (forall k :: i <= k <= j ==> t < |states[k].threads|)
    && forall k :: i < k < j ==> !states[k].threads[t].StartUnlock?
  }

  ghost predicate PassedPublish(states: seq<State>, t: nat, i: nat, j: nat, after: After) {
    exists c: nat :: Passed(states, t, i, j, StartPublish(after, c))
  }

  lemma PublishNow(states: seq<State>, t: nat, i: nat, j: nat, after: After)
    requires i < j && j + 1 < |states| && t < |states[j].threads|
    requires PassedPublish(states, t, i, j, after)
          || (states[j].threads[t].StartPublish? && states[j].threads[t].after == after)
    ensures PassedPublish(states, t, i, j + 1, after)
  {
    hide Passed;
    PassedNow(states, t, i, j);
    if PassedPublish(states, t, i, j, after) {
      var c: nat :| Passed(states, t, i, j, StartPublish(after, c));
      assert Passed(states, t, i, j + 1, StartPublish(after, c));
    } else {
      assert Passed(states, t, i, j + 1, StartPublish(after, states[j].threads[t].child));
    }
  }

  lemma StartActs(s: Shared, t: nat, pc: Pc, s': Shared, pc': Pc, after: After, ran: bool)
    requires Act(s, t, pc, s', pc') && !pc.StartUnlock?
    requires StartPoint(pc, after, ran) || (pc == StartTest(after) && ran == Running(s))
    ensures StartPoint(pc', after, ran)
    ensures !ran && pc' == StartUnlock(after, true) ==> pc.StartPublish? && pc.after == after
  {
  }

  /** A start succeeds at once when a child runs, and otherwise only by recording a new
      one. */
  lemma {:induction false} StartRecords(states: seq<State>, t: nat, i: nat, j: nat, after: After)
    requires Starting(states, t, i, j, after)
    ensures var (ran, pc) := (Running(states[i].shared), states[j].threads[t]);
      && StartPoint(pc, after, ran)
      && (!ran && pc == StartUnlock(after, true) ==> PassedPublish(states, t, i, j, after))
    decreases j
  {
    hide Act, StartPoint, PassedPublish, Running, Step;
    var ran := Running(states[i].shared);
    OwnAction(states, t, j - 1);
    var s, s' := states[j - 1], states[j];
    if j - 1 > i {
      StartRecords(states, t, i, j - 1, after);
    }
    if s'.threads[t] != s.threads[t] {
      StartActs(s.shared, t, s.threads[t], s'.shared, s'.threads[t], after, ran);
      if j - 1 > i && s.threads[t].StartPublish? && s.threads[t].after == after {
        PublishNow(states, t, i, j - 1, after);
      }
    }
  }

  /** The points between the test of a stop and its return. */
  predicate StopPoint(pc: Pc, restart: bool, child: Option<nat>) {
    match pc
    case StopUnlock(r, target) => r == restart && target == child
    case StopAwait(r, c) => r == restart && child == Some(c)
    case StopReturn(r, ok) => r == restart && (child == None ==> ok)
    case _ => false
  }

  ghost predicate StopUnderway(states: seq<State>, t: nat, i: nat, j: nat, restart: bool) {
    && Moves(states, t, i) && i < j < |states| && states[i].threads[t] == StopTest(restart)
    && (forall k :: i <= k <= j ==> t < |states[k].threads|)
    && forall k :: i < k < j ==> !states[k].threads[t].StopReturn?
  }

  lemma StopActs(s: Shared, t: nat, pc: Pc, s': Shared, pc': Pc, restart: bool, child: Option<nat>)
    requires Act(s, t, pc, s', pc') && !pc.StopReturn?
    requires StopPoint(pc, restart, child) || (pc == StopTest(restart) && child == if Running(s) then s.cmd else None)
    ensures StopPoint(pc', restart, child)
    ensures pc'.StopReturn? && child.Some? ==> pc == StopAwait(restart, child.value)
  {
  }

  /** A stop that finds nothing running succeeds; one that finds a child running waits
      for it before it returns. */
  lemma {:induction false} StopReports(states: seq<State>, t: nat, i: nat, j: nat, restart: bool)
    requires StopUnderway(states, t, i, j, restart)
    ensures var child := if Running(states[i].shared) then states[i].shared.cmd else None;
      var pc := states[j].threads[t];
      && StopPoint(pc, restart, child)
      && (pc.StopReturn? && child.Some? ==> Passed(states, t, i, j, StopAwait(restart, child.value)))
    decreases j
  {
    hide Act, StopPoint, Passed, Running, Step;
    var child := if Running(states[i].shared) then states[i].shared.cmd else None;
    OwnAction(states, t, j - 1);
    var s, s' := states[j - 1], states[j];
    if j - 1 > i {
      StopReports(states, t, i, j - 1, restart);
      PassedNow(states, t, i, j - 1);
    }
    if s'.threads[t] != s.threads[t] {
      StopActs(s.shared, t, s.threads[t], s'.shared, s'.threads[t], restart, child);
    }
  }

  /** What stop's caller does next: Restart goes on to start if the stop succeeded, in
      every other case the call is over. */
  lemma AfterStop(states: seq<State>, t: nat, i: nat)
    requires Moves(states, t, i) && states[i].threads[t].StopReturn?
    ensures var (pc, pc') := (states[i].threads[t], states[i + 1].threads[t]);
      (pc'.StartLock? <==> pc.restart && pc.ok) && (pc' == Idle <==> !(pc.restart && pc.ok))
  {
    OwnAction(states, t, i);
  }

  // ---- nobody is stuck

  ghost predicate CanAct(s: State, t: nat) {
    exists s': State :: ThreadStep(s, t, s')
  }

  ghost predicate WatcherCanAct(s: State, c: nat) {
    exists s': State :: s'.threads == s.threads && WatcherAct(s.shared, c, s'.shared)
  }

  /** The thread stands before a mutex that somebody holds. */
  predicate Blocked(s: Shared, pc: Pc) {
    || ((pc.StartLock? || pc.ReloadLock? || pc.StopLock?) && s.mu != Free)
    || (pc.ReloadEnter? && s.reloadMu != None)
  }

  /** Only the mutexes ever keep a thread from its next action. */
  lemma UnblockedActs(s: Shared, t: nat, pc: Pc) returns (s': Shared, pc': Pc)
    requires !Blocked(s, pc) && Knows(s, pc)
    ensures Act(s, t, pc, s', pc')
  {
    s', pc' := s, pc;
    match pc {
      case Idle => pc' := ReloadEnter;
      case StartLock(after) => s', pc' := s.(mu := Thread(t)), StartTest(after);
      case StartTest(after) => pc' := StartUnlock(after, Running(s));
      case StartSpawn(after) => pc' := StartUnlock(after, false);
      case StartPublish(after, child) =>
        s' := s.(cmd := Some(child), stopped := false,
                 children := s.children[child := s.children[child].(watcher := InWait)]);
        pc' := StartUnlock(after, true);
      case StartUnlock(after, ok) => s', pc' := s.(mu := Free), AfterStart(after, ok);
      case ReloadEnter => s', pc' := s.(reloadMu := Some(t)), ReloadLock;
      case ReloadLock => s', pc' := s.(mu := Thread(t)), ReloadTest;
      case ReloadTest => pc' := if Running(s) then ReloadUnlock(s.cmd.value) else StartTest(ConfirmReload);
      case ReloadUnlock(child) => s', pc' := s.(mu := Free), ReloadSignal(child);
      case ReloadSignal(_) => pc' := Returning;
      case Waiting(reload) => pc' := if reload then Returning else Idle;
      case Returning => s', pc' := s.(reloadMu := None), Idle;
      case StopLock(restart) => s', pc' := s.(mu := Thread(t)), StopTest(restart);
      case StopTest(restart) =>
        if Running(s) {
          s', pc' := s.(stopped := true), StopUnlock(restart, s.cmd);
        } else {
          pc' := StopUnlock(restart, None);
        }
      case StopUnlock(restart, target) =>
        s' := s.(mu := Free);
        pc' := if target.Some? then StopAwait(restart, target.value) else StopReturn(restart, true);
      case StopAwait(restart, _) => pc' := StopReturn(restart, false);
      case StopReturn(restart, ok) => pc' := if restart && ok then StartLock(Confirm) else Idle;
    }
  }

  lemma Unblocked(s: State, t: nat)
    requires Inv(s) && t < |s.threads| && !Blocked(s.shared, s.threads[t])
    ensures CanAct(s, t)
  {
    assert Knows(s.shared, s.threads[t]);
    hide Act, Knows, Locked, Accounted, Blocked;
    var shared, pc := UnblockedActs(s.shared, t, s.threads[t]);
    assert ThreadStep(s, t, State(shared, s.threads[t := pc]));
  }

  /** A watcher that holds the mutex gives it back. */
  lemma HolderRecords(s: State, c: nat)
    requires Inv(s) && s.shared.mu == Watch(c)
    ensures c < |s.shared.children| && WatcherCanAct(s, c)
  {
    assert WatchedChild(s.shared, c);
    var child := s.shared.children[c];
    var after := s.shared.(mu := Free, children := s.shared.children[c := child.(watcher := Done)]);
    assert WatcherAct(s.shared, c, State(after, s.threads).shared);
  }

  /** No deadlock: whenever a thread has something to do, it can act itself, or the
      holder of the mutex it stands before can, or the thread or watcher that this
      holder in turn waits for. */
  lemma NoDeadlock(states: seq<State>, i: nat, t: nat)
    requires Run(states) && i < |states| && t < |states[i].threads|
    ensures var s := states[i];
      || CanAct(s, t)
      || (s.shared.mu.Thread? && s.shared.mu.t < |s.threads| && CanAct(s, s.shared.mu.t))
      || (s.shared.mu.Watch? && WatcherCanAct(s, s.shared.mu.c))
      || (s.threads[t].ReloadEnter? && s.shared.reloadMu.Some? && CanAct(s, s.shared.reloadMu.value))
  {
    RunKeepsInv(states, i);
    hide CanAct, WatcherCanAct;
    var s := states[i];
    if s.shared.mu.Thread? {
      Unblocked(s, s.shared.mu.t);
    } else if s.shared.mu.Watch? {
      HolderRecords(s, s.shared.mu.c);
    } else if s.threads[t].ReloadEnter? && s.shared.reloadMu.Some? {
      var holder := s.shared.reloadMu.value;
      assert HoldsReloadMu(s.threads[holder]);
      Unblocked(s, holder);
    } else {
      Unblocked(s, t);
    }
  }

  lemma RunOn(states: seq<State>, s': State)
    requires Run(states) && Step(states[|states| - 1], s')
    ensures Run(states + [s'])
  {
    hide Step;
    var more := states + [s'];
    forall i | 0 < i < |more| ensures Step(more[i - 1], more[i]) {
      if i < |states| {
        assert more[i - 1] == states[i - 1] && more[i] == states[i];
      }
    }
  }

  /** The watcher of a child that has died reaps it and closes its channel. */
  lemma ExitIsPublished(states: seq<State>, c: nat) returns (more: seq<State>)
    requires Run(states) && var s := states[|states| - 1].shared;
             c < |s.children| && !s.children[c].alive && s.children[c].watcher != Unborn
    ensures Run(more) && states <= more && |more| <= |states| + 2
    ensures more[|more| - 1].threads == states[|states| - 1].threads
    ensures Gone(more[|more| - 1].shared, c)
  {
    more := states;
    var s := states[|states| - 1];
    RunKeepsInv(states, |states| - 1);
    assert WatchedChild(s.shared, c);
    hide Inv;
    if s.shared.children[c].watcher == InWait {
      var child := s.shared.children[c].(reaped := true, watcher := Closing);
      var next := State(s.shared.(children := s.shared.children[c := child]), s.threads);
      assert WatcherAct(s.shared, c, next.shared);
      RunOn(states, next);
      more, s := states + [next], next;
    }
    if s.shared.children[c].watcher == Closing {
      var child := s.shared.children[c];
      child := child.(closes := child.closes + 1, watcher := Locking);
      var next := State(s.shared.(children := s.shared.children[c := child]), s.threads);
      assert WatcherAct(s.shared, c, next.shared);
      RunOn(more, next);
      more := more + [next];
    }
  }

  /** Once the child has died, a thread that waits for it can be told so and return; a
      Restart then goes on to start. */
  lemma StopCanReturn(states: seq<State>, t: nat) returns (more: seq<State>)
    requires Run(states) && WaitsForDead(states[|states| - 1], t)
    ensures Run(more) && states <= more && |more| <= |states| + 4
    ensures var (last, next) := (states[|states| - 1], more[|more| - 1]);
            && t < |next.threads| && Gone(next.shared, last.threads[t].child)
            && next.threads[t] == if last.threads[t].restart then StartLock(Confirm) else Idle
  {
    var s := states[|states| - 1];
    RunKeepsInv(states, |states| - 1);
    assert Knows(s.shared, s.threads[t]);
    hide Inv, Step, Gone;
    more := ExitIsPublished(states, s.threads[t].child);
    more := StopReturns(more, t);
  }

  /** Thread t waits for a child that has died. */
  predicate WaitsForDead(s: State, t: nat) {
    && t < |s.threads| && s.threads[t].StopAwait?
    && (s.threads[t].child < |s.shared.children| ==> !s.shared.children[s.threads[t].child].alive)
  }

  lemma StopReturns(states: seq<State>, t: nat) returns (more: seq<State>)
    requires Run(states) && t < |states[|states| - 1].threads|
    requires var s := states[|states| - 1]; s.threads[t].StopAwait? && Gone(s.shared, s.threads[t].child)
    ensures Run(more) && states <= more && |more| == |states| + 2
    ensures var (last, next) := (states[|states| - 1], more[|more| - 1]);
            && next.shared == last.shared && t < |next.threads|
            && next.threads[t] == if last.threads[t].restart then StartLock(Confirm) else Idle
  {
    var s := states[|states| - 1];
    var restart := s.threads[t].restart;
    var told := State(s.shared, s.threads[t := StopReturn(restart, true)]);
    var gone := State(s.shared, s.threads[t := if restart then StartLock(Confirm) else Idle]);
    assert ThreadStep(s, t, told);
    assert ThreadStep(told, t, gone);
    assert Step(s, told) && Step(told, gone);
    hide Step, Run;
    RunOn(states, told);
    RunOn(states + [told], gone);
    more := states + [told] + [gone];
  }
}
