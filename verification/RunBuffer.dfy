/** The event buffer of a run and its subscribers (run_manager.go).

    One run has an append-only buffer, a done flag and a `ready` channel that every
    broadcaster replaces under the mutex and closes only after releasing it. Each
    subscriber is a goroutine with a cursor. A state holds all of them, an action is one
    atomic step of one goroutine, and a schedule is any sequence of actions: an action
    that is not enabled where it stands leaves the state alone. Channels are numbered in
    the order they are made. */
module RunBuffer {
  import opened Wrappers

  /** Where a subscriber goroutine stands in its loop. */
  datatype Phase<E> =
    | AtLock                                            // about to take the mutex for a snapshot
    | Sending(snap: seq<E>, sawDone: bool, ready: nat)  // delivering from the snapshot
    | Rechecking                                        // saw done: about to lock and compare lengths
    | Blocked(ready: nat)                               // waiting on the channel of the snapshot
    | Ended(cancelled: bool, total: nat)                // returned; total is the length last seen

  datatype Sub<E> = Sub(from: nat, cursor: nat, received: seq<E>, phase: Phase<E>, ctxDone: bool)

  /** `pending` holds the channels swapped out but not yet closed, `closes` counts closings. */
  datatype State<E> = State(events: seq<E>, done: bool, ready: nat, next: nat,
                            pending: multiset<nat>, closes: multiset<nat>, subs: map<nat, Sub<E>>)

  datatype Action<E> =
    | Append(ev: E) | MarkDone | CloseOld(ch: nat)
    | Subscribe(id: nat, from: nat)
    | Lock(id: nat) | Send(id: nat) | Exhaust(id: nat) | Recheck(id: nat) | Wake(id: nat)
    | CtxDone(id: nat) | Leave(id: nat)

  function Init<E>(): State<E> { State([], false, 0, 1, multiset{}, multiset{}, map[]) }

  predicate CanSend<E>(s: State<E>, id: nat) {
    id in s.subs && s.subs[id].phase.Sending? && s.subs[id].cursor < |s.subs[id].phase.snap|
  }

  predicate Enabled<E(==)>(s: State<E>, a: Action<E>) {
    match a
    case Append(_) => true
    case MarkDone => true
    case CloseOld(ch) => ch in s.pending
    case Subscribe(id, _) => id !in s.subs
    case Lock(id) => id in s.subs && s.subs[id].phase.AtLock?
    case Send(id) => CanSend(s, id)
    case Exhaust(id) => id in s.subs && s.subs[id].phase.Sending? && s.subs[id].cursor >= |s.subs[id].phase.snap|
    case Recheck(id) => id in s.subs && s.subs[id].phase.Rechecking?
    case Wake(id) => id in s.subs && s.subs[id].phase.Blocked? && s.subs[id].phase.ready in s.closes
    case CtxDone(id) => id in s.subs
    case Leave(id) => id in s.subs && s.subs[id].ctxDone && (CanSend(s, id) || s.subs[id].phase.Blocked?)
  }

  /** The critical section both broadcasters share: replace `ready`, keep the old one to close. */
  function Swap<E>(s: State<E>): State<E> {
    s.(pending := s.pending + multiset{s.ready}, ready := s.next, next := s.next + 1)
  }

  /** The next state of one subscriber for one of its own actions. */
  function SubStep<E(==)>(s: State<E>, a: Action<E>, u: Sub<E>): Sub<E>
    requires a.Lock? || a.Send? || a.Exhaust? || a.Recheck? || a.Wake? || a.CtxDone? || a.Leave?
    requires a.id in s.subs && u == s.subs[a.id] && Enabled(s, a)
  {
    match a
    case Lock(_) => u.(phase := Sending(s.events, s.done, s.ready))
    case Send(_) => u.(received := u.received + [u.phase.snap[u.cursor]], cursor := u.cursor + 1)
    case Exhaust(_) => u.(phase := if u.phase.sawDone then Rechecking else Blocked(u.phase.ready))
    case Recheck(_) => u.(phase := if u.cursor >= |s.events| then Ended(false, |s.events|) else AtLock)
    case Wake(_) => u.(phase := AtLock)
    case CtxDone(_) => u.(ctxDone := true)
    case Leave(_) => u.(phase := Ended(true, |s.events|))
  }

  function Step<E(==)>(s: State<E>, a: Action<E>): State<E> {
    if !Enabled(s, a) then s
    else
      match a
      case Append(ev) => Swap(s.(events := s.events + [ev]))
      case MarkDone => Swap(s.(done := true))
      case CloseOld(ch) => s.(pending := s.pending - multiset{ch}, closes := s.closes + multiset{ch})
      case Subscribe(id, from) => s.(subs := s.subs[id := Sub(from, from, [], AtLock, false)])
      case _ => s.(subs := s.subs[a.id := SubStep(s, a, s.subs[a.id])])
  }

  function Exec<E(==)>(acts: seq<Action<E>>): State<E> {
    if acts == [] then Init() else Step(Exec(acts[..|acts| - 1]), acts[|acts| - 1])
  }

  // ------------------------------------------------------------------ what a schedule asks for

  /** The start index a subscriber was made with: that of the first subscription under its number. */
  function Asked<E>(acts: seq<Action<E>>, i: nat): Option<nat> {
    if acts == [] then None
    else
      var a, before := acts[|acts| - 1], Asked(acts[..|acts| - 1], i);
      if before.Some? || !a.Subscribe? || a.id != i then before else Some(a.from)
  }

  /** The events the run goroutine has emitted. */
  function Emitted<E>(acts: seq<Action<E>>): seq<E> {
    if acts == [] then []
    else Emitted(acts[..|acts| - 1]) + if acts[|acts| - 1].Append? then [acts[|acts| - 1].ev] else []
  }

  /** What a finished run owes a subscriber that asked for the events from `from` on. */
  function Deliver<E>(events: seq<E>, from: nat): seq<E> { if from <= |events| then events[from..] else [] }

  lemma StepStarts<E>(s: State<E>, a: Action<E>, i: nat)
    ensures i in Step(s, a).subs <==> i in s.subs || (a.Subscribe? && a.id == i)
    ensures i in s.subs ==> Step(s, a).subs[i].from == s.subs[i].from
    ensures i !in s.subs && a.Subscribe? && a.id == i ==> Step(s, a).subs[i].from == a.from
  {}

  /** In every schedule a subscriber exists if it was asked for, and starts where the first request
      for it said. */
  lemma {:induction false} StartsWhereAsked<E>(acts: seq<Action<E>>, i: nat)
    ensures i in Exec(acts).subs <==> Asked(acts, i).Some?
    ensures i in Exec(acts).subs ==> Exec(acts).subs[i].from == Asked(acts, i).value
  {
    if acts == [] {
    } else {
      StartsWhereAsked(acts[..|acts| - 1], i);
      StepStarts(Exec(acts[..|acts| - 1]), acts[|acts| - 1], i);
    }
  }

  /** A subscription under a new number is the one that counts, whatever comes after it. */
  lemma {:induction false} SubscriptionCounts<E>(before: seq<Action<E>>, i: nat, from: nat, after: seq<Action<E>>)
    requires Enabled(Exec(before), Subscribe(i, from))
    ensures var acts := before + [Subscribe(i, from)] + after;
            Asked(acts, i) == Some(from) && i in Exec(acts).subs && Exec(acts).subs[i].from == from
  {
    var acts := before + [Subscribe(i, from)] + after;
    StartsWhereAsked(acts, i);
    if after == [] {
      assert acts == before + [Subscribe(i, from)] && acts[..|before|] == before;
      StartsWhereAsked(before, i);
    } else {
      assert acts[..|acts| - 1] == before + [Subscribe(i, from)] + after[..|after| - 1];
      SubscriptionCounts(before, i, from, after[..|after| - 1]);
    }
  }

  /** The buffer holds what was emitted, in order, and the run is done once it was marked so. */
  lemma {:induction false} BufferIsWhatWasEmitted<E>(acts: seq<Action<E>>)
    ensures Exec(acts).events == Emitted(acts)
    ensures Exec(acts).done <==> MarkDone in acts
  {
    if acts == [] {
    } else {
      var n := |acts| - 1;
      BufferIsWhatWasEmitted(acts[..n]);
      assert acts == acts[..n] + [acts[n]];
      assert Emitted(acts[..n]) + [] == Emitted(acts[..n]);
    }
  }

  /** A subscription is given up only for a client that went away. */
  lemma {:induction false} OnlyClientsGoneAreLeft<E>(acts: seq<Action<E>>, i: nat)
    requires i in Exec(acts).subs
    ensures Exec(acts).subs[i].ctxDone ==> CtxDone(i) in acts
    ensures Exec(acts).subs[i].phase.Ended? && Exec(acts).subs[i].phase.cancelled ==> CtxDone(i) in acts
  {
    if acts == [] {
    } else {
      var n := |acts| - 1;
      if i in Exec(acts[..n]).subs {
        OnlyClientsGoneAreLeft(acts[..n], i);
      }
      assert acts == acts[..n] + [acts[n]];
    }
  }

  // ------------------------------------------------------------------ invariant

  /** The events a cursor that started at `from` has passed. */
  function Passed<E>(events: seq<E>, from: nat, cursor: nat): seq<E> {
    if from <= cursor <= |events| then events[from..cursor] else []
  }

  ghost predicate Known<E>(s: State<E>, ch: nat) { ch == s.ready || ch in s.pending || ch in s.closes }

  ghost predicate PhaseInv<E>(s: State<E>, u: Sub<E>) {
    match u.phase
    case AtLock => true
    case Sending(snap, sawDone, ch) =>
      && snap <= s.events && (sawDone ==> s.done) && Known(s, ch)
      && (ch == s.ready ==> snap == s.events && sawDone == s.done)
    case Rechecking => s.done
    case Blocked(ch) => Known(s, ch) && (ch == s.ready ==> u.cursor >= |s.events| && !s.done)
    case Ended(cancelled, total) => !cancelled ==> s.done && total <= |s.events| && u.cursor >= total
  }

  ghost predicate SubInv<E>(s: State<E>, u: Sub<E>) {
    && u.from <= u.cursor && (u.cursor == u.from || u.cursor <= |s.events|)
    && u.received == Passed(s.events, u.from, u.cursor)
    && PhaseInv(s, u)
  }

  ghost predicate ChannelInv<E>(s: State<E>) {
    && s.ready < s.next && s.ready !in s.pending && s.ready !in s.closes
    && (forall ch :: ch in s.pending ==> ch < s.next && s.pending[ch] == 1 && ch !in s.closes)
    && (forall ch :: ch in s.closes ==> ch < s.next && s.closes[ch] == 1)
  }

  ghost predicate Inv<E>(s: State<E>) {
    ChannelInv(s) && forall i :: i in s.subs ==> SubInv(s, s.subs[i])
  }

  lemma PassedGrows<E>(events: seq<E>, more: seq<E>, u: Sub<E>)
    requires u.from <= u.cursor && (u.cursor == u.from || u.cursor <= |events|)
    ensures Passed(events + more, u.from, u.cursor) == Passed(events, u.from, u.cursor)
  {}

  lemma StepKeepsChannels<E>(s: State<E>, a: Action<E>)
    requires ChannelInv(s)
    ensures ChannelInv(Step(s, a))
  {}

  lemma OwnStepKeepsSub<E>(s: State<E>, a: Action<E>)
    requires Inv(s) && Enabled(s, a)
    requires a.Lock? || a.Send? || a.Exhaust? || a.Recheck? || a.Wake? || a.CtxDone? || a.Leave?
    ensures SubInv(Step(s, a), Step(s, a).subs[a.id])
  {
    var u := s.subs[a.id];
    assert SubInv(s, u);
    if a.Send? {
      assert u.phase.snap[u.cursor] == s.events[u.cursor];
    }
  }

  /** The subscriber whose own step an action is. */
  predicate IsStepOf<E>(a: Action<E>, i: nat) {
    (a.Lock? || a.Send? || a.Exhaust? || a.Recheck? || a.Wake? || a.CtxDone? || a.Leave?) && a.id == i
  }

  lemma OtherStepKeepsSub<E>(s: State<E>, a: Action<E>, i: nat)
    requires Inv(s) && i in s.subs && !IsStepOf(a, i)
    ensures i in Step(s, a).subs && Step(s, a).subs[i] == s.subs[i] && SubInv(Step(s, a), s.subs[i])
  {
    assert SubInv(s, s.subs[i]);
    if a.Append? {
      PassedGrows(s.events, [a.ev], s.subs[i]);
    }
  }

  lemma StepKeepsInv<E>(s: State<E>, a: Action<E>)
    requires Inv(s)
    ensures Inv(Step(s, a))
  {
    StepKeepsChannels(s, a);
    if Enabled(s, a) {
      var t := Step(s, a);
      forall i | i in t.subs ensures SubInv(t, t.subs[i]) {
        if i !in s.subs {
          assert t.subs[i] == Sub(a.from, a.from, [], AtLock, false);
        } else if IsStepOf(a, i) {
          OwnStepKeepsSub(s, a);
        } else {
          OtherStepKeepsSub(s, a, i);
        }
      }
    }
  }

  /** Every state any interleaving can reach satisfies the invariant. */
  lemma {:induction false} EveryScheduleKeepsInv<E>(acts: seq<Action<E>>)
    ensures Inv(Exec(acts))
  {
    if acts == [] {
    } else {
      EveryScheduleKeepsInv(acts[..|acts| - 1]);
      StepKeepsInv(Exec(acts[..|acts| - 1]), acts[|acts| - 1]);
    }
  }

  // ------------------------------------------------------------------ what subscribers can rely on

  /** Each subscriber has received exactly the emitted events from the index it asked for up to its
      cursor. */
  lemma ReceivedExactly<E>(acts: seq<Action<E>>, i: nat)
    requires Asked(acts, i).Some?
    ensures i in Exec(acts).subs
    ensures var u, events, from := Exec(acts).subs[i], Emitted(acts), Asked(acts, i).value;
            && (from <= |events| ==> from <= u.cursor <= |events| && u.received == events[from..u.cursor])
            && (from > |events| ==> u.cursor == from && u.received == [])
  {
    EveryScheduleKeepsInv(acts);
    StartsWhereAsked(acts, i);
    BufferIsWhatWasEmitted(acts);
    assert SubInv(Exec(acts), Exec(acts).subs[i]);
  }

  /** No lost wake-up: a subscriber blocked on a channel nobody has closed is caught up on
      an unfinished run, or some broadcaster is about to close that channel. */
  lemma NoLostWakeup<E>(acts: seq<Action<E>>, i: nat)
    requires i in Exec(acts).subs && Exec(acts).subs[i].phase.Blocked?
    requires Exec(acts).subs[i].phase.ready !in Exec(acts).closes
    ensures var s := Exec(acts); var u := s.subs[i];
            || (u.phase.ready == s.ready && u.cursor >= |s.events| && !s.done)
            || Enabled(s, CloseOld(u.phase.ready))
  {
    EveryScheduleKeepsInv(acts);
    assert SubInv(Exec(acts), Exec(acts).subs[i]);
  }

  /** Closing a closed channel panics in Go; no schedule does it. */
  lemma ChannelsClosedOnce<E>(acts: seq<Action<E>>, ch: nat)
    ensures Exec(acts).closes[ch] <= 1
    ensures ch in Exec(acts).closes ==> !Enabled(Exec(acts), CloseOld(ch))
  {
    EveryScheduleKeepsInv(acts);
  }

  /** The discipline of the run goroutine: it emits nothing once it has marked the run done. */
  ghost predicate NoLateAppend<E>(acts: seq<Action<E>>) {
    forall i, j :: 0 <= i < j < |acts| && acts[i].MarkDone? ==> !acts[j].Append?
  }

  lemma {:induction false} UnmarkedNotDone<E>(acts: seq<Action<E>>)
    requires forall i :: 0 <= i < |acts| ==> !acts[i].MarkDone?
    ensures !Exec(acts).done
  {
    if acts == [] {
    } else {
      UnmarkedNotDone(acts[..|acts| - 1]);
    }
  }

  ghost predicate EndedComplete<E>(s: State<E>, i: nat) {
    i in s.subs && s.subs[i].phase.Ended? && !s.subs[i].phase.cancelled ==> s.subs[i].phase.total == |s.events|
  }

  lemma StepKeepsComplete<E>(s: State<E>, a: Action<E>, i: nat)
    requires Inv(s) && EndedComplete(s, i) && (a.Append? ==> !s.done)
    ensures EndedComplete(Step(s, a), i)
  {
    if i in s.subs {
      assert SubInv(s, s.subs[i]);
    }
  }

  lemma {:induction false} ScheduleKeepsComplete<E>(acts: seq<Action<E>>, i: nat)
    requires NoLateAppend(acts)
    ensures EndedComplete(Exec(acts), i)
  {
    if acts == [] {
    } else {
      var n := |acts| - 1;
      if acts[n].Append? {
        UnmarkedNotDone(acts[..n]);
      }
      EveryScheduleKeepsInv(acts[..n]);
      ScheduleKeepsComplete(acts[..n], i);
      StepKeepsComplete(Exec(acts[..n]), acts[n], i);
    }
  }

  /** A subscription that ends without being cancelled ends only when the run is done and
      everything emitted from the index it asked for on has been delivered. */
  lemma EndsOnlyWhenDelivered<E>(acts: seq<Action<E>>, i: nat)
    requires NoLateAppend(acts)
    requires i in Exec(acts).subs && Exec(acts).subs[i].phase.Ended? && !Exec(acts).subs[i].phase.cancelled
    ensures Asked(acts, i).Some? && MarkDone in acts
    ensures Exec(acts).subs[i].received == Deliver(Emitted(acts), Asked(acts, i).value)
  {
    EveryScheduleKeepsInv(acts);
    StartsWhereAsked(acts, i);
    BufferIsWhatWasEmitted(acts);
    ScheduleKeepsComplete(acts, i);
    assert SubInv(Exec(acts), Exec(acts).subs[i]);
  }

  /** Steps the goroutines take on their own, without a new event, client or cancellation. */
  predicate Internal<E>(a: Action<E>) {
    a.CloseOld? || a.Lock? || a.Send? || a.Exhaust? || a.Recheck? || a.Wake? || a.Leave?
  }

  ghost predicate Quiet<E(!new)>(s: State<E>) {
    forall a :: Internal(a) ==> !Enabled(s, a)
  }

  lemma QuietSub<E(!new)>(s: State<E>, i: nat)
    requires Inv(s) && Quiet(s) && i in s.subs && !s.subs[i].phase.Ended?
    ensures s.subs[i].phase == Blocked(s.ready) && !s.subs[i].ctxDone
  {
    var u := s.subs[i];
    assert SubInv(s, u);
    assert !Enabled(s, Lock(i)) && !Enabled(s, Recheck(i)) && !Enabled(s, Send(i)) && !Enabled(s, Exhaust(i));
    assert !Enabled(s, Wake(i)) && !Enabled(s, Leave(i));
    assert u.phase.Blocked? ==> !Enabled(s, CloseOld(u.phase.ready));
  }

  /** When nothing is left to step, no subscriber is stuck: on a finished run all of them have
      returned, on an unfinished one those that have not are waiting with every event delivered. */
  lemma QuietMeansDelivered<E(!new)>(acts: seq<Action<E>>, i: nat)
    requires Quiet(Exec(acts)) && i in Exec(acts).subs && !Exec(acts).subs[i].phase.Ended?
    ensures var s := Exec(acts); var u := s.subs[i];
            && !s.done && u.phase == Blocked(s.ready) && !u.ctxDone
            && Asked(acts, i).Some? && u.received == Deliver(Emitted(acts), Asked(acts, i).value)
  {
    var s := Exec(acts);
    StartsWhereAsked(acts, i);
    BufferIsWhatWasEmitted(acts);
    EveryScheduleKeepsInv(acts);
    QuietSub(s, i);
    assert SubInv(s, s.subs[i]);
  }

  /** How far a subscriber is from having nothing to do, if no further event arrives. */
  function Distance<E>(s: State<E>, u: Sub<E>): nat {
    var left := if u.cursor < |s.events| then |s.events| - u.cursor else 0;
    8 * left +
    match u.phase
    case AtLock => 4
    case Sending(_, _, ch) => if ch == s.ready then 3 else 7
    case Rechecking => if left > 0 then 6 else 2
    case Blocked(ch) => if ch == s.ready then (if u.ctxDone then 1 else 0) else 6
    case Ended(_, _) => 0
  }

  lemma OwnStepIsNearer<E>(s: State<E>, a: Action<E>)
    requires Inv(s) && Internal(a) && !a.CloseOld? && Enabled(s, a)
    ensures var t := Step(s, a);
            a.id in t.subs && Distance(t, t.subs[a.id]) < Distance(s, s.subs[a.id]) && t.pending == s.pending
  {
    assert SubInv(s, s.subs[a.id]);
  }

  /** An internal step closes one of finitely many pending channels or brings its own subscriber
      strictly nearer, and moves no other subscriber further away. */
  lemma InternalStepsMakeProgress<E>(acts: seq<Action<E>>, a: Action<E>, i: nat)
    requires Internal(a) && Enabled(Exec(acts), a) && i in Exec(acts).subs
    ensures var s := Exec(acts); var t := Step(s, a);
            && i in t.subs
            && Distance(t, t.subs[i]) <= Distance(s, s.subs[i])
            && (a.CloseOld? ==> |t.pending| < |s.pending|)
            && (!a.CloseOld? ==> t.pending == s.pending)
            && (!a.CloseOld? && a.id == i ==> Distance(t, t.subs[i]) < Distance(s, s.subs[i]))
  {
    EveryScheduleKeepsInv(acts);
    var s := Exec(acts);
    if IsStepOf(a, i) {
      OwnStepIsNearer(s, a);
    } else {
      assert SubInv(s, s.subs[i]);
    }
  }

  function TotalDistance<E>(s: State<E>, n: nat): nat {
    if n == 0 then 0 else TotalDistance(s, n - 1) + if n - 1 in s.subs then Distance(s, s.subs[n - 1]) else 0
  }

  /** Everything still to do without a new event, client or cancellation, over subscribers below `n`. */
  function Work<E>(s: State<E>, n: nat): nat { |s.pending| + TotalDistance(s, n) }

  lemma {:induction false} TotalNotAbove<E>(s: State<E>, t: State<E>, n: nat)
    requires s.subs.Keys == t.subs.Keys
    requires forall i :: i in s.subs ==> Distance(t, t.subs[i]) <= Distance(s, s.subs[i])
    ensures TotalDistance(t, n) <= TotalDistance(s, n)
    ensures forall i :: 0 <= i < n && i in s.subs && Distance(t, t.subs[i]) < Distance(s, s.subs[i]) ==>
              TotalDistance(t, n) < TotalDistance(s, n)
  {
    if n == 0 {
    } else {
      TotalNotAbove(s, t, n - 1);
    }
  }

  lemma InternalKeepsSubs<E>(s: State<E>, a: Action<E>)
    requires Internal(a) && Enabled(s, a)
    ensures Step(s, a).subs.Keys == s.subs.Keys
  {}

  lemma InternalStepLowersWork<E>(acts: seq<Action<E>>, a: Action<E>, n: nat)
    requires Internal(a) && Enabled(Exec(acts), a) && forall i :: i in Exec(acts).subs ==> i < n
    ensures Work(Step(Exec(acts), a), n) < Work(Exec(acts), n)
  {
    var s, t := Exec(acts), Step(Exec(acts), a);
    InternalKeepsSubs(s, a);
    forall i | i in s.subs ensures Distance(t, t.subs[i]) <= Distance(s, s.subs[i]) {
      InternalStepsMakeProgress(acts, a, i);
    }
    TotalNotAbove(s, t, n);
    if a.CloseOld? {
      assert |t.pending| < |s.pending|;
    } else {
      InternalStepsMakeProgress(acts, a, a.id);
    }
  }

  /** Internal steps, each taken where it is enabled. */
  ghost predicate InternalRun<E>(acts: seq<Action<E>>, steps: seq<Action<E>>)
    decreases |steps|
  {
    steps == [] ||
    var before, last := steps[..|steps| - 1], steps[|steps| - 1];
    InternalRun(acts, before) && Internal(last) && Enabled(Exec(acts + before), last)
  }

  lemma ExecSnoc<E>(acts: seq<Action<E>>, a: Action<E>)
    ensures Exec(acts + [a]) == Step(Exec(acts), a)
  {
    assert (acts + [a])[..|acts|] == acts;
  }

  lemma InternalStepAfter<E>(acts: seq<Action<E>>, a: Action<E>, n: nat)
    requires Internal(a) && Enabled(Exec(acts), a) && forall i :: i in Exec(acts).subs.Keys ==> i < n
    ensures Work(Exec(acts + [a]), n) < Work(Exec(acts), n) && Exec(acts + [a]).subs.Keys == Exec(acts).subs.Keys
  {
    ExecSnoc(acts, a);
    InternalKeepsSubs(Exec(acts), a);
    InternalStepLowersWork(acts, a, n);
  }

  /** Quiet is always reached: from any reachable state, no run of internal steps is longer than the
      number of pending channels and the distances of all subscribers together. */
  lemma {:induction false} QuietIsReached<E>(acts: seq<Action<E>>, steps: seq<Action<E>>, n: nat)
    requires InternalRun(acts, steps) && forall i :: i in Exec(acts).subs.Keys ==> i < n
    ensures |steps| + Work(Exec(acts + steps), n) <= Work(Exec(acts), n)
    ensures Exec(acts + steps).subs.Keys == Exec(acts).subs.Keys
    decreases |steps|
  {
    if steps == [] {
      assert acts + steps == acts;
    } else {
      var m := |steps| - 1;
      assert acts + steps == acts + steps[..m] + [steps[m]];
      QuietIsReached(acts, steps[..m], n);
      InternalStepAfter(acts + steps[..m], steps[m], n);
    }
  }

  // ------------------------------------------------------------------ the fields, updated in place

  /** The fields the goroutines share. Each method is one atomic step: a critical section of
      the mutex, a channel operation, or one turn of a subscriber's loop. */
  class Run<E(==)> {
    var events: seq<E>
    var done: bool
    var ready: nat
    var next: nat
    var pending: multiset<nat>
    var closes: multiset<nat>
    var subs: map<nat, Sub<E>>

    ghost function Abs(): State<E>
      reads this
    {
      State(events, done, ready, next, pending, closes, subs)
    }

    constructor ()
      ensures Abs() == Init()
    {
      events, done, ready, next, pending, closes, subs := [], false, 0, 1, multiset{}, multiset{}, map[];
    }

    /** The first half of appendAndBroadcast, under the mutex. */
    method AppendLocked(ev: E) returns (swapped: nat)
      modifies this
      ensures swapped == old(ready) && Abs() == Step(old(Abs()), Append(ev))
    {
      events := events + [ev];
      swapped := SwapReady();
    }

    /** The first half of markDoneAndBroadcast, under the mutex. */
    method MarkDoneLocked() returns (swapped: nat)
      modifies this
      ensures swapped == old(ready) && Abs() == Step(old(Abs()), MarkDone)
    {
      done := true;
      swapped := SwapReady();
    }

    method SwapReady() returns (swapped: nat)
      modifies this`ready, this`next, this`pending
      ensures swapped == old(ready) && Abs() == Swap(old(Abs()))
    {
      swapped := ready;
      ready, next, pending := next, next + 1, pending + multiset{ready};
    }

    /** The second half of both: `close(old)` after the mutex is released. */
    method CloseSwapped(ch: nat)
      requires ch in pending
      modifies this
      ensures Abs() == Step(old(Abs()), CloseOld(ch))
    {
      pending, closes := pending - multiset{ch}, closes + multiset{ch};
    }

    method NewSubscriber(id: nat, from: nat)
      requires id !in subs
      modifies this
      ensures Abs() == Step(old(Abs()), Subscribe(id, from))
    {
      subs := subs[id := Sub(from, from, [], AtLock, false)];
    }

    /** One turn of the subscriber loop: take the branch its code takes, if it can move. */
    method Turn(id: nat) returns (a: Action<E>)
      requires id in subs
      modifies this
      ensures Internal(a) && !a.CloseOld? && a.id == id && Abs() == Step(old(Abs()), a)
      ensures !Enabled(old(Abs()), a) ==> old(subs)[id].phase.Ended? || old(subs)[id].phase.Blocked?
    {
      var u := subs[id];
      match u.phase
      case AtLock =>
        a := Lock(id);
        subs := subs[id := u.(phase := Sending(events, done, ready))];
      case Sending(snap, sawDone, ch) =>
        if u.cursor < |snap| {
          a := Send(id);
          subs := subs[id := u.(received := u.received + [snap[u.cursor]], cursor := u.cursor + 1)];
        } else {
          a := Exhaust(id);
          subs := subs[id := u.(phase := if sawDone then Rechecking else Blocked(ch))];
        }
      case Rechecking =>
        a := Recheck(id);
        var total := |events|;
        subs := subs[id := u.(phase := if u.cursor >= total then Ended(false, total) else AtLock)];
      case Blocked(ch) =>
        a := Wake(id);
        if ch in closes {
          subs := subs[id := u.(phase := AtLock)];
        }
      case Ended(_, _) =>
        a := Wake(id);
    }

    /** A cancelled context is noticed at either `select`. */
    method NoticeCancel(id: nat)
      requires id in subs && Enabled(Abs(), Leave(id))
      modifies this
      ensures Abs() == Step(old(Abs()), Leave(id))
    {
      subs := subs[id := subs[id].(phase := Ended(true, |events|))];
    }
  }
}
