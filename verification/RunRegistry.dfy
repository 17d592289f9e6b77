/** The registry of runs, keyed by conversation (run_manager.go).

    `Start` holds the registry mutex from its look at the existing run to the registration
    of the new one, but a run marks itself done under its own mutex, so the look and the
    registration are two steps. `Stop` looks the run up under the read lock and cancels it
    after releasing it. A run goroutine takes the steps of `Drain.Process`; when that has returned
    it cancels its context, marks the run done and sets the eviction timer in three steps, and the
    timer fires at any time after that. Runs are numbered in the order they are created; a schedule
    is any sequence of actions. */
module RunRegistry {
  import opened Wrappers
  import D = Drain

  type Conv = string

  datatype Stage =
    | Running    // runFn is at work or has just returned
    | Closing    // returned and cancelled its context
    | Finished   // marked done, timer not yet set
    | Timed      // eviction timer pending
    | Fired      // eviction timer has run

  datatype RunInfo = RunInfo(conv: Conv, cancelled: bool, work: D.Process, stage: Stage) {
    predicate Done() { stage.Finished? || stage.Timed? || stage.Fired? }
    predicate Live() { !Done() && !cancelled }
  }

  /** A `Start` inside its critical section, with the unfinished run it found, if any. */
  datatype Claim = NoClaim | Claim(conv: Conv, found: bool)

  datatype State = State(runs: map<Conv, nat>, info: seq<RunInfo>, lock: Claim, stops: map<nat, nat>)

  datatype Action =
    | StartLook(conv: Conv) | StartRegister
    | StopLookup(request: nat, conv: Conv) | StopCancel(request: nat)
    | Deadline(run: nat)
    | Work(run: nat, move: D.Move) | Return(run: nat) | MarkDone(run: nat) | SetTimer(run: nat) | Fire(run: nat)

  function Init(): State { State(map[], [], NoClaim, map[]) }

  predicate AtStage(s: State, r: nat, stage: Stage) { r < |s.info| && s.info[r].stage == stage }

  /** A failed start is quiet exactly when the run's context is cancelled by then. */
  predicate Fits(info: RunInfo, m: D.Move) {
    m.Begin? ==> (m.outcome.Stopped? ==> info.cancelled) && (m.outcome.Refused? ==> !info.cancelled)
  }

  predicate Enabled(s: State, a: Action) {
    match a
    case StartLook(_) => s.lock.NoClaim?
    case StartRegister => s.lock.Claim?
    case StopLookup(k, c) => s.lock.NoClaim? && c in s.runs && k !in s.stops
    case StopCancel(k) => k in s.stops && s.stops[k] < |s.info|
    case Deadline(r) => r < |s.info|
    case Work(r, m) => AtStage(s, r, Running) && D.CanMove(s.info[r].work, m) && Fits(s.info[r], m)
    case Return(r) => AtStage(s, r, Running) && s.info[r].work.place.Returned?
    case MarkDone(r) => AtStage(s, r, Closing)
    case SetTimer(r) => AtStage(s, r, Finished)
    case Fire(r) => AtStage(s, r, Timed) && s.lock.NoClaim?
  }

  predicate FoundUnfinished(s: State, c: Conv) {
    c in s.runs && s.runs[c] < |s.info| && !s.info[s.runs[c]].Done()
  }

  function CancelRun(info: seq<RunInfo>, r: nat): (info': seq<RunInfo>)
    ensures |info'| == |info|
  {
    if r < |info| then info[r := info[r].(cancelled := true)] else info
  }

  function Step(s: State, a: Action): State {
    if !Enabled(s, a) then s
    else
      match a
      case StartLook(c) => s.(lock := Claim(c, FoundUnfinished(s, c)))
      case StartRegister =>
        var c := s.lock.conv;
        var info := if s.lock.found && c in s.runs then CancelRun(s.info, s.runs[c]) else s.info;
        s.(info := info + [RunInfo(c, false, D.NewProcess(), Running)], runs := s.runs[c := |info|], lock := NoClaim)
      case StopLookup(k, c) => s.(stops := s.stops[k := s.runs[c]])
      case StopCancel(k) => s.(info := CancelRun(s.info, s.stops[k]), stops := s.stops - {k})
      case Deadline(r) => s.(info := CancelRun(s.info, r))
      case Work(r, m) => s.(info := s.info[r := s.info[r].(work := D.Advance(s.info[r].work, m))])
      case Return(r) => s.(info := s.info[r := s.info[r].(cancelled := true, stage := Closing)])
      case MarkDone(r) => s.(info := s.info[r := s.info[r].(stage := Finished)])
      case SetTimer(r) => s.(info := s.info[r := s.info[r].(stage := Timed)])
      case Fire(r) =>
        var c := s.info[r].conv;
        s.(info := s.info[r := s.info[r].(stage := Fired)],
           runs := if c in s.runs && s.runs[c] == r then s.runs - {c} else s.runs)
  }

  function ExecFrom(s: State, acts: seq<Action>): State
    decreases |acts|
  {
    if acts == [] then s else ExecFrom(Step(s, acts[0]), acts[1..])
  }

  function Exec(acts: seq<Action>): State { ExecFrom(Init(), acts) }

  // ------------------------------------------------------------------ invariant

  ghost predicate Registered(s: State, r: nat) {
    r < |s.info| && s.info[r].conv in s.runs && s.runs[s.info[r].conv] == r
  }

  ghost predicate EntriesInv(s: State) {
    forall c :: c in s.runs ==> s.runs[c] < |s.info| && s.info[s.runs[c]].conv == c && !s.info[s.runs[c]].stage.Fired?
  }

  ghost predicate LiveInv(s: State) {
    forall r :: 0 <= r < |s.info| && s.info[r].Live() ==> Registered(s, r)
  }

  ghost predicate EndedInv(s: State) {
    forall r :: 0 <= r < |s.info| && !s.info[r].stage.Running? ==>
      s.info[r].cancelled && s.info[r].work.place.Returned?
  }

  ghost predicate Works(info: RunInfo) { D.Sound(info.work) && (info.work.start.Stopped? ==> info.cancelled) }

  ghost predicate WorkInv(s: State) { forall r :: 0 <= r < |s.info| ==> Works(s.info[r]) }

  ghost predicate RequestsInv(s: State) {
    && (forall k :: k in s.stops ==> s.stops[k] < |s.info|)
    && (s.lock.Claim? && !s.lock.found ==> !FoundUnfinished(s, s.lock.conv))
  }

  ghost predicate Inv(s: State) { EntriesInv(s) && LiveInv(s) && EndedInv(s) && WorkInv(s) && RequestsInv(s) }

  lemma RegisterKeepsEntries(s: State)
    requires EntriesInv(s)
    ensures EntriesInv(Step(s, StartRegister))
  {}

  lemma FireKeepsEntries(s: State, r: nat)
    requires EntriesInv(s)
    ensures EntriesInv(Step(s, Fire(r)))
  {}

  lemma OtherKeepsEntries(s: State, a: Action)
    requires EntriesInv(s) && !a.StartRegister? && !a.Fire?
    ensures EntriesInv(Step(s, a))
  {}

  lemma StepKeepsEntries(s: State, a: Action)
    requires EntriesInv(s)
    ensures EntriesInv(Step(s, a))
  {
    if a.StartRegister? {
      RegisterKeepsEntries(s);
    } else if a.Fire? {
      FireKeepsEntries(s, a.run);
    } else {
      OtherKeepsEntries(s, a);
    }
  }

  lemma StepKeepsEnded(s: State, a: Action)
    requires EndedInv(s)
    ensures EndedInv(Step(s, a))
  {}

  lemma MoveWorks(info: RunInfo, m: D.Move)
    requires Works(info) && D.CanMove(info.work, m) && Fits(info, m)
    ensures Works(info.(work := D.Advance(info.work, m)))
  {
    D.AdvanceKeepsSound(info.work, m);
  }

  /** A step that is no move of a run's own keeps its work, and uncancels nothing. */
  lemma OthersKeepWork(s: State, a: Action, r: nat)
    requires r < |s.info| && !(a.Work? && a.run == r)
    ensures var t := Step(s, a);
            r < |t.info| && t.info[r].work == s.info[r].work && (s.info[r].cancelled ==> t.info[r].cancelled)
  {}

  lemma NewRunsAreIdle(s: State, a: Action, r: nat)
    requires |s.info| <= r < |Step(s, a).info|
    ensures Step(s, a).info[r].work == D.NewProcess()
  {}

  lemma StepKeepsWork(s: State, a: Action)
    requires WorkInv(s)
    ensures WorkInv(Step(s, a))
  {
    var t := Step(s, a);
    forall r | 0 <= r < |t.info| ensures Works(t.info[r]) {
      if r >= |s.info| {
        NewRunsAreIdle(s, a, r);
      } else if a.Work? && a.run == r {
        if Enabled(s, a) {
          MoveWorks(s.info[r], a.move);
        }
      } else {
        OthersKeepWork(s, a, r);
      }
    }
  }

  lemma StepKeepsRequests(s: State, a: Action)
    requires EntriesInv(s) && RequestsInv(s)
    ensures RequestsInv(Step(s, a))
  {}

  lemma StepKeepsLive(s: State, a: Action)
    requires EntriesInv(s) && LiveInv(s) && RequestsInv(s)
    ensures LiveInv(Step(s, a))
  {
    var t := Step(s, a);
    forall r | 0 <= r < |t.info| && t.info[r].Live() ensures Registered(t, r) {
      if r < |s.info| {
        assert s.info[r].Live();
        assert Registered(s, r);
      }
    }
  }

  lemma StepKeepsInv(s: State, a: Action)
    requires Inv(s)
    ensures Inv(Step(s, a))
  {
    StepKeepsEntries(s, a);
    StepKeepsEnded(s, a);
    StepKeepsWork(s, a);
    StepKeepsRequests(s, a);
    StepKeepsLive(s, a);
  }

  lemma {:induction false} ExecKeepsInv(s: State, acts: seq<Action>)
    requires Inv(s)
    ensures Inv(ExecFrom(s, acts))
    decreases |acts|
  {
    if acts == [] {
    } else {
      StepKeepsInv(s, acts[0]);
      ExecKeepsInv(Step(s, acts[0]), acts[1..]);
    }
  }

  lemma ReachableEntries(acts: seq<Action>)
    ensures EntriesInv(Exec(acts))
  {
    ExecKeepsInv(Init(), acts);
  }

  lemma ReachableLive(acts: seq<Action>)
    ensures LiveInv(Exec(acts))
  {
    ExecKeepsInv(Init(), acts);
  }

  /** A run of a schedule that has returned was cancelled, has gone through all its steps, and is
      what its steps have made it. */
  lemma ReachableWork(acts: seq<Action>, r: nat)
    requires r < |Exec(acts).info|
    ensures Works(Exec(acts).info[r])
    ensures !Exec(acts).info[r].stage.Running? ==>
              Exec(acts).info[r].cancelled && Exec(acts).info[r].work.place.Returned?
  {
    ExecKeepsInv(Init(), acts);
  }

  // ------------------------------------------------------------------ what the registry promises

  /** A run that is neither finished nor cancelled is the one registered for its conversation,
      so a conversation never has two of them. */
  lemma LiveRunIsTheRegisteredOne(acts: seq<Action>, r: nat, q: nat)
    requires var s := Exec(acts); r < |s.info| && q < |s.info| && s.info[r].Live() && s.info[q].Live()
    ensures var s := Exec(acts);
            Registered(s, r) && (s.info[r].conv == s.info[q].conv ==> r == q)
  {
    ReachableLive(acts);
    assert Registered(Exec(acts), r) && Registered(Exec(acts), q);
  }

  /** A timer removes nothing but its own run's entry, and only when that run has finished:
      the entry of any newer run survives every older timer. */
  lemma TimerRemovesOnlyItsRun(acts: seq<Action>, r: nat, c: Conv)
    requires Enabled(Exec(acts), Fire(r)) && c in Exec(acts).runs
    ensures var s := Exec(acts); var t := Step(s, Fire(r));
            && (c in t.runs <==> s.runs[c] != r)
            && (c in t.runs ==> t.runs[c] == s.runs[c])
            && (c !in t.runs ==> s.info[r].Done())
  {
    ReachableEntries(acts);
  }

  /** A finished run that is still registered has its eviction ahead of it. */
  lemma FinishedRunsGetEvicted(acts: seq<Action>, c: Conv)
    requires var s := Exec(acts); c in s.runs && s.runs[c] < |s.info| && s.info[s.runs[c]].Done()
    ensures var s := Exec(acts);
            Enabled(s, SetTimer(s.runs[c])) || AtStage(s, s.runs[c], Timed)
  {
    ReachableEntries(acts);
  }

  /** So the registry leaks nothing: once every timer has fired it is empty. */
  lemma AllFiredMeansEmpty(acts: seq<Action>)
    requires forall r :: 0 <= r < |Exec(acts).info| ==> Exec(acts).info[r].stage.Fired?
    ensures Exec(acts).runs == map[]
  {
    ReachableEntries(acts);
    assert forall c :: c !in Exec(acts).runs;
  }

  /** A run once finished or cancelled stays so, and keeps its number and conversation. */
  lemma StepKeepsDead(s: State, a: Action, r: nat)
    requires Inv(s) && r < |s.info| && !s.info[r].Live()
    ensures r < |Step(s, a).info| && !Step(s, a).info[r].Live() && Step(s, a).info[r].conv == s.info[r].conv
  {}

  lemma {:induction false} ExecKeepsDead(s: State, acts: seq<Action>, r: nat)
    requires Inv(s) && r < |s.info| && !s.info[r].Live()
    ensures var t := ExecFrom(s, acts); r < |t.info| && !t.info[r].Live() && t.info[r].conv == s.info[r].conv
    decreases |acts|
  {
    if acts == [] {
    } else {
      StepKeepsDead(s, acts[0], r);
      StepKeepsInv(s, acts[0]);
      ExecKeepsDead(Step(s, acts[0]), acts[1..], r);
    }
  }

  lemma {:induction false} RequestKeepsItsRun(s: State, acts: seq<Action>, k: nat)
    requires Inv(s) && k in s.stops && StopCancel(k) !in acts
    ensures k in ExecFrom(s, acts).stops && ExecFrom(s, acts).stops[k] == s.stops[k]
    decreases |acts|
  {
    if acts == [] {
    } else {
      StepKeepsInv(s, acts[0]);
      assert Step(s, acts[0]).stops[k] == s.stops[k];
      RequestKeepsItsRun(Step(s, acts[0]), acts[1..], k);
    }
  }

  /** Stop reaches its target: whatever happens between its lookup and its cancel, afterwards
      every run the conversation had at the lookup is finished or cancelled. */
  lemma StopEndsEveryEarlierRun(before: seq<Action>, k: nat, c: Conv, between: seq<Action>, q: nat)
    requires Enabled(Exec(before), StopLookup(k, c)) && StopCancel(k) !in between
    requires q < |Exec(before).info| && Exec(before).info[q].conv == c
    ensures var s := Exec(before);
            var u := Step(ExecFrom(Step(s, StopLookup(k, c)), between), StopCancel(k));
            q < |u.info| && !u.info[q].Live()
  {
    var s := Exec(before);
    var t := Step(s, StopLookup(k, c));
    var v := ExecFrom(t, between);
    ExecKeepsInv(Init(), before);
    StepKeepsInv(s, StopLookup(k, c));
    ExecKeepsInv(t, between);
    RequestKeepsItsRun(t, between, k);
    if s.info[q].Live() {
      assert Registered(s, q);
      assert v.stops[k] == q;
    } else {
      ExecKeepsDead(t, between, q);
      StepKeepsDead(v, StopCancel(k), q);
    }
  }

  // ------------------------------------------------------------------ and who is spared

  lemma StepKeepsRuns(s: State, a: Action, r: nat)
    requires r < |s.info|
    ensures r < |Step(s, a).info| && Step(s, a).info[r].conv == s.info[r].conv
    ensures s.info[r].cancelled ==> Step(s, a).info[r].cancelled
  {}

  /** The four things that cancel a run: its deadline, its own return, a stop that looked it up, and
      the start of a newer run of its conversation. */
  ghost predicate Cancels(s: State, a: Action, r: nat)
    requires r < |s.info|
  {
    || a == Deadline(r) || a == Return(r)
    || (a.StopCancel? && a.request in s.stops && s.stops[a.request] == r)
    || (a.StartRegister? && s.lock.Claim? && s.lock.conv == s.info[r].conv)
  }

  lemma NothingElseCancels(s: State, a: Action, r: nat)
    requires EntriesInv(s) && r < |s.info| && !s.info[r].cancelled
    ensures Step(s, a).info[r].cancelled ==> Cancels(s, a, r)
  {}

  function NextStage(stage: Stage): Stage {
    match stage
    case Running => Closing
    case Closing => Finished
    case Finished => Timed
    case Timed => Fired
    case Fired => Fired
  }

  /** A run's stage moves by its own steps only, one after the other. */
  lemma StagesMoveOnTheirOwn(s: State, a: Action, r: nat)
    requires r < |s.info| && Step(s, a).info[r].stage != s.info[r].stage
    ensures a == Return(r) || a == MarkDone(r) || a == SetTimer(r) || a == Fire(r)
    ensures Step(s, a).info[r].stage == NextStage(s.info[r].stage)
  {}

  /** An entry goes only by its own run's timer, or for a newer run of its conversation. */
  lemma EntriesGoForAReason(s: State, a: Action, c: Conv)
    requires c in s.runs && !(c in Step(s, a).runs && Step(s, a).runs[c] == s.runs[c])
    ensures a == Fire(s.runs[c]) || (a.StartRegister? && s.lock == Claim(c, s.lock.found) && c in Step(s, a).runs)
  {}

  /** A deadline ends its run. */
  lemma DeadlineEndsTheRun(s: State, r: nat)
    requires r < |s.info|
    ensures !Step(s, Deadline(r)).info[r].Live()
  {}

  /** Whatever is done to a live run in a reachable state, it dies of one of the four only: of no
      stop or start of another conversation, and of no other run's end. */
  lemma DiesForAReason(acts: seq<Action>, a: Action, r: nat)
    requires r < |Exec(acts).info| && Exec(acts).info[r].Live() && !Step(Exec(acts), a).info[r].Live()
    ensures Cancels(Exec(acts), a, r)
  {
    var s := Exec(acts);
    ReachableEntries(acts);
    NothingElseCancels(s, a, r);
    if Step(s, a).info[r].stage != s.info[r].stage {
      StagesMoveOnTheirOwn(s, a, r);
      ReachableWork(acts, r);
    }
  }

  lemma {:induction false} ExecFromSnoc(s: State, acts: seq<Action>, a: Action)
    ensures ExecFrom(s, acts + [a]) == Step(ExecFrom(s, acts), a)
    decreases |acts|
  {
    if acts == [] {
      assert acts + [a] == [a] && [a][1..] == [];
    } else {
      assert (acts + [a])[1..] == acts[1..] + [a];
      ExecFromSnoc(Step(s, acts[0]), acts[1..], a);
    }
  }

  ghost predicate RequestedIn(acts: seq<Action>, s: State, k: nat) {
    k in s.stops ==> s.stops[k] < |s.info| && StopLookup(k, s.info[s.stops[k]].conv) in acts
  }

  lemma StepKeepsRequested(acts: seq<Action>, s: State, a: Action, k: nat)
    requires EntriesInv(s) && RequestedIn(acts, s, k)
    ensures RequestedIn(acts + [a], Step(s, a), k)
  {
    var t := Step(s, a);
    if k in t.stops && k in s.stops && t.stops[k] == s.stops[k] {
      StepKeepsRuns(s, a, s.stops[k]);
    }
  }

  /** A stop that waits to cancel looked up a run of the conversation it was asked to stop. */
  lemma {:induction false} RequestsAreForTheirConversation(acts: seq<Action>, k: nat)
    ensures RequestedIn(acts, Exec(acts), k)
  {
    if acts == [] {
    } else {
      var before, a := acts[..|acts| - 1], acts[|acts| - 1];
      assert acts == before + [a];
      ExecFromSnoc(Init(), before, a);
      RequestsAreForTheirConversation(before, k);
      ReachableEntries(before);
      StepKeepsRequested(before, Exec(before), a, k);
    }
  }

  /** What the schedule holds against a cancelled run: its deadline or its return, a stop of its
      conversation that went through, or a newer run of its conversation. */
  ghost predicate HasCause(acts: seq<Action>, s: State, r: nat)
    requires r < |s.info|
  {
    || Deadline(r) in acts || Return(r) in acts
    || (exists k :: StopLookup(k, s.info[r].conv) in acts && StopCancel(k) in acts)
    || (exists q :: r < q < |s.info| && s.info[q].conv == s.info[r].conv)
  }

  lemma CauseStays(acts: seq<Action>, s: State, a: Action, r: nat)
    requires r < |s.info| && HasCause(acts, s, r)
    ensures r < |Step(s, a).info| && HasCause(acts + [a], Step(s, a), r)
  {
    StepKeepsRuns(s, a, r);
    if q :| r < q < |s.info| && s.info[q].conv == s.info[r].conv {
      StepKeepsRuns(s, a, q);
      assert Step(s, a).info[q].conv == Step(s, a).info[r].conv;
    } else if k :| StopLookup(k, s.info[r].conv) in acts && StopCancel(k) in acts {
      assert StopLookup(k, s.info[r].conv) in acts + [a] && StopCancel(k) in acts + [a];
    }
  }

  lemma CancelIsACause(before: seq<Action>, a: Action, r: nat)
    requires r < |Exec(before).info| && Cancels(Exec(before), a, r)
    ensures var t := Step(Exec(before), a); r < |t.info| && HasCause(before + [a], t, r)
  {
    var s, t := Exec(before), Step(Exec(before), a);
    StepKeepsRuns(s, a, r);
    if a.StopCancel? {
      RequestsAreForTheirConversation(before, a.request);
      assert StopLookup(a.request, s.info[r].conv) in before + [a] && StopCancel(a.request) in before + [a];
    } else if a.StartRegister? {
      assert t.info[|s.info|].conv == t.info[r].conv;
    }
  }

  /** In every schedule a cancelled run was cancelled for cause; so one that was not stopped, has not
      timed out or returned, and is the newest of its conversation is not cancelled. */
  lemma {:induction false} CancelledForCause(acts: seq<Action>, r: nat)
    requires r < |Exec(acts).info| && Exec(acts).info[r].cancelled
    ensures HasCause(acts, Exec(acts), r)
  {
    assert acts != [];
    var before, a := acts[..|acts| - 1], acts[|acts| - 1];
    assert acts == before + [a];
    ExecFromSnoc(Init(), before, a);
    var s := Exec(before);
    assert r < |s.info|;
    if s.info[r].cancelled {
      CancelledForCause(before, r);
      CauseStays(before, s, a, r);
    } else {
      ReachableEntries(before);
      NothingElseCancels(s, a, r);
      CancelIsACause(before, a, r);
    }
  }

  /** When Stop reports that nothing was found, there was nothing to stop. */
  lemma StopFindsNothing(acts: seq<Action>, c: Conv, q: nat)
    requires c !in Exec(acts).runs && q < |Exec(acts).info| && Exec(acts).info[q].conv == c
    ensures !Exec(acts).info[q].Live()
  {
    ReachableLive(acts);
    assert Exec(acts).info[q].Live() ==> Registered(Exec(acts), q);
  }

  /** A finished run has saved its row, once, and it is the row its event buffer says; so a client
      that is turned away because the run is done finds the whole response in the history. */
  lemma DoneMeansSaved(acts: seq<Action>, r: nat)
    requires r < |Exec(acts).info| && Exec(acts).info[r].Done()
    ensures var p := Exec(acts).info[r].work;
            p.saves == [D.SavedRow(p.buffer)] && p.buffer == D.Buffered(p.start, p.taken)
  {
    ReachableWork(acts, r);
  }

  /** A row is saved as partial only for a run whose context was cancelled. */
  lemma PartialMeansCancelled(acts: seq<Action>, r: nat, row: D.Row)
    requires r < |Exec(acts).info| && row in Exec(acts).info[r].work.saves && row.status == D.Partial
    ensures Exec(acts).info[r].cancelled
  {
    ReachableWork(acts, r);
    var p := Exec(acts).info[r].work;
    D.StatusExactly(p.start, p.taken);
  }

  /** What a client that resumes is answered: the registered run, unless it is done. */
  function ResumeAnswer(s: State, c: Conv): Option<nat> {
    if c in s.runs && s.runs[c] < |s.info| && !s.info[s.runs[c]].Done() then Some(s.runs[c]) else None
  }

  /** The run a resuming client is given is one of its conversation, and not done. */
  lemma ResumeGivesItsOwnRun(acts: seq<Action>, c: Conv)
    requires ResumeAnswer(Exec(acts), c).Some?
    ensures var r := ResumeAnswer(Exec(acts), c).value;
            r < |Exec(acts).info| && Exec(acts).info[r].conv == c && !Exec(acts).info[r].Done()
  {
    ReachableEntries(acts);
  }

  /** A run that is neither cancelled nor saved is never hidden from a client that resumes. */
  lemma ResumeHidesOnlySavedOrCancelled(acts: seq<Action>, c: Conv, r: nat)
    requires r < |Exec(acts).info| && Exec(acts).info[r].conv == c
    requires Exec(acts).info[r].work.saves == [] && !Exec(acts).info[r].cancelled
    ensures ResumeAnswer(Exec(acts), c) == Some(r)
  {
    ReachableLive(acts);
    if Exec(acts).info[r].Done() {
      DoneMeansSaved(acts, r);
    }
    assert Registered(Exec(acts), r);
  }

  lemma StepKeepsSaved(s: State, a: Action, r: nat)
    requires WorkInv(s) && r < |s.info|
    ensures r < |Step(s, a).info| && s.info[r].work.saves <= Step(s, a).info[r].work.saves
  {
    if !(a.Work? && a.run == r) {
      OthersKeepWork(s, a, r);
    }
  }

  /** No schedule saves a run twice: there is at most one saved row, and it stays. */
  lemma {:induction false} SavedStays(s: State, acts: seq<Action>, r: nat)
    requires WorkInv(s) && r < |s.info|
    ensures var t := ExecFrom(s, acts);
            r < |t.info| && s.info[r].work.saves <= t.info[r].work.saves && |t.info[r].work.saves| <= 1
    decreases |acts|
  {
    if acts == [] {
      assert Works(s.info[r]);
    } else {
      StepKeepsSaved(s, acts[0], r);
      StepKeepsWork(s, acts[0]);
      SavedStays(Step(s, acts[0]), acts[1..], r);
    }
  }

  // ------------------------------------------------------------------ the map, updated in place

  class RunManager {
    var runs: map<Conv, nat>
    var info: seq<RunInfo>
    var lock: Claim
    var stops: map<nat, nat>

    ghost function Abs(): State
      reads this
    {
      State(runs, info, lock, stops)
    }

    constructor ()
      ensures Abs() == Init()
    {
      runs, info, lock, stops := map[], [], NoClaim, map[];
    }

    /** Start, up to its look at the existing run. */
    method BeginStart(c: Conv)
      requires Inv(Abs()) && lock.NoClaim?
      modifies this
      ensures Inv(Abs()) && Abs() == Step(old(Abs()), StartLook(c))
    {
      var found := false;
      if c in runs {
        found := !info[runs[c]].Done();
      }
      lock := Claim(c, found);
      StepKeepsInv(old(Abs()), StartLook(c));
    }

    /** Start, from the cancellation of an orphaned run to the unlock. */
    method CompleteStart() returns (run: nat)
      requires Inv(Abs()) && lock.Claim?
      modifies this
      ensures Inv(Abs()) && Abs() == Step(old(Abs()), StartRegister)
      ensures run == |old(info)| && Registered(Abs(), run) && info[run].Live()
    {
      var c := lock.conv;
      if lock.found && c in runs {
        info := info[runs[c] := info[runs[c]].(cancelled := true)];
        runs := runs - {c};
      }
      run := |info|;
      info := info + [RunInfo(c, false, D.NewProcess(), Running)];
      runs := runs[c := run];
      lock := NoClaim;
      assert runs == old(runs)[c := run];
      assert Abs() == Step(old(Abs()), StartRegister);
      StepKeepsInv(old(Abs()), StartRegister);
    }

    /** Stop: the lookup under the read lock; false when there is no run. */
    method Lookup(k: nat, c: Conv) returns (found: bool)
      requires Inv(Abs()) && lock.NoClaim? && k !in stops
      modifies this
      ensures found <==> c in old(runs)
      ensures Inv(Abs()) && Abs() == Step(old(Abs()), StopLookup(k, c))
    {
      found := c in runs;
      if found {
        stops := stops[k := runs[c]];
      }
      StepKeepsInv(old(Abs()), StopLookup(k, c));
    }

    /** Stop: the cancel after the lock is released. */
    method CancelFound(k: nat)
      requires Inv(Abs()) && k in stops
      modifies this
      ensures Inv(Abs()) && Abs() == Step(old(Abs()), StopCancel(k))
    {
      var r := stops[k];
      info := info[r := info[r].(cancelled := true)];
      stops := stops - {k};
      StepKeepsInv(old(Abs()), StopCancel(k));
    }

    /** The eviction timer's function. */
    method Evict(r: nat)
      requires Inv(Abs()) && Enabled(Abs(), Fire(r))
      modifies this
      ensures Inv(Abs()) && Abs() == Step(old(Abs()), Fire(r))
    {
      var c := info[r].conv;
      if c in runs && runs[c] == r {
        runs := runs - {c};
      }
      info := info[r := info[r].(stage := Fired)];
      StepKeepsInv(old(Abs()), Fire(r));
    }
  }
}
