/** One run as the backend sees it: the engine's events are forwarded to the run buffer and,
    when they end, the assistant's row is saved (chat_service.go); Slack folds the same
    buffer into a message (slack/bot.go). */
module Drain {
  import opened Protocol
  import opened Wrappers
  import Strings = Text
  import RunBuffer

  /** What the select loop takes next: an event, or the idle timer. The channel closes after
      the last input. */
  datatype Input = Got(event: Event) | Silence

  /** How starting the engine went; `Stopped` is a failure after the run was cancelled. */
  datatype StartOutcome = Started | Stopped | Refused(message: string)

  datatype Status = Running | Complete | Partial | Failed

  datatype Row = Row(status: Status, content: string, questions: seq<Option<Json>>)

  const STALLED := "The engine stopped responding (no output for 2 minutes) \U{2014} " +
                   "it may be rate-limited or stalled. Try again."
  const NO_RESULT := "The run ended without a result \U{2014} " +
                     "the engine may have crashed or hit a provider error. Try again."
  const ENGINE_ERROR := "the engine reported an error"

  predicate IsAskChoice(name: string) { name == "AskChoice" || Strings.EndsWith(name, "__AskChoice") }

  predicate IsReply(e: Event) { e.BlockDelta? && e.lane == Text }

  predicate IsChoice(e: Event) { e.ToolInputDone? && IsAskChoice(e.name) }

  // ------------------------------------------------------------------ what a buffer says

  /** The reply text of a buffer: its text deltas, concatenated. */
  function Spoken(evs: seq<Event>): string {
    if evs == [] then ""
    else var e := evs[|evs| - 1]; Spoken(evs[..|evs| - 1]) + if IsReply(e) then e.text else ""
  }

  /** The questions put to the user, in order. */
  function Choices(evs: seq<Event>): seq<Option<Json>> {
    if evs == [] then []
    else var e := evs[|evs| - 1]; Choices(evs[..|evs| - 1]) + if IsChoice(e) then [e.input] else []
  }

  /** The last event that is a result or an error. */
  function Verdict(evs: seq<Event>): Option<Event> {
    if evs == [] then None
    else
      var e := evs[|evs| - 1];
      if e.Result? || e.Error? then Some(e) else Verdict(evs[..|evs| - 1])
  }

  function StatusOf(evs: seq<Event>): Status {
    match Verdict(evs)
    case None => Partial
    case Some(e) => if e.Result? && e.status != "error" then Complete else Failed
  }

  /** The session id of the last result. */
  function SessionOf(evs: seq<Event>): string {
    if evs == [] then ""
    else if evs[|evs| - 1].Result? then evs[|evs| - 1].sessionId
    else SessionOf(evs[..|evs| - 1])
  }

  function SavedRow(evs: seq<Event>): Row { Row(StatusOf(evs), Spoken(evs), Choices(evs)) }

  // ------------------------------------------------------------------ what a run buffers

  /** The events that arrive before the idle timer fires. */
  function Heard(inputs: seq<Input>): seq<Event> {
    if inputs == [] || inputs[0].Silence? then [] else [inputs[0].event] + Heard(inputs[1..])
  }

  predicate Stalled(inputs: seq<Input>) { inputs != [] && (inputs[0].Silence? || Stalled(inputs[1..])) }

  function Buffered(start: StartOutcome, inputs: seq<Input>): seq<Event> {
    match start
    case Stopped => []
    case Refused(message) => [Error(message)]
    case Started =>
      Heard(inputs) +
      if Stalled(inputs) then [Error(STALLED)]
      else if Verdict(Heard(inputs)).None? then [Error(NO_RESULT)]
      else []
  }

  lemma Snoc(evs: seq<Event>, e: Event)
    ensures SavedRow(evs + [e]) ==
              Row(if e.Result? && e.status != "error" then Complete
                  else if e.Result? || e.Error? then Failed else StatusOf(evs),
                  Spoken(evs) + (if IsReply(e) then e.text else ""),
                  Choices(evs) + (if IsChoice(e) then [e.input] else []))
    ensures SessionOf(evs + [e]) == if e.Result? then e.sessionId else SessionOf(evs)
    ensures Verdict(evs + [e]) == if e.Result? || e.Error? then Some(e) else Verdict(evs)
  {
    assert (evs + [e])[..|evs|] == evs;
  }

  /** After the loop: a run that fell silent or ended without a verdict is told so. */
  method Conclude(heard: seq<Event>, stalled: bool, sawResult: bool, status: Status)
    returns (buffer: seq<Event>, finalStatus: Status)
    requires status == StatusOf(heard) && (sawResult ==> Verdict(heard).Some?)
    ensures buffer == heard + if stalled then [Error(STALLED)]
                              else if Verdict(heard).None? then [Error(NO_RESULT)] else []
    ensures SavedRow(buffer) == SavedRow(heard).(status := finalStatus) && SessionOf(buffer) == SessionOf(heard)
  {
    buffer, finalStatus := heard, status;
    var seen := sawResult;
    if stalled {
      Snoc(buffer, Error(STALLED));
      buffer := buffer + [Error(STALLED)];
      finalStatus := Failed;
      seen := true;
    }
    if !seen && finalStatus == Partial {
      Snoc(buffer, Error(NO_RESULT));
      buffer := buffer + [Error(NO_RESULT)];
      finalStatus := Failed;
    }
    assert heard + [] == heard;
  }

  lemma HeardFrom(inputs: seq<Input>, i: nat)
    requires i < |inputs|
    ensures inputs[i].Silence? ==> Heard(inputs[i..]) == [] && Stalled(inputs[i..])
    ensures inputs[i].Got? ==>
              && Heard(inputs[i..]) == [inputs[i].event] + Heard(inputs[i + 1..])
              && Stalled(inputs[i..]) == Stalled(inputs[i + 1..])
  {
    assert inputs[i..][1..] == inputs[i + 1..];
  }

  /** The select loop: forward every event until the channel closes or the idle timer fires,
      then make up an error if no verdict was heard. */
  method Forward(inputs: seq<Input>) returns (buffer: seq<Event>, row: Row, newSessionId: string)
    ensures buffer == Buffered(Started, inputs)
    ensures row == SavedRow(buffer) && newSessionId == SessionOf(buffer)
  {
    buffer, newSessionId := [], "";
    var sb := "";
    var finalStatus := Partial;
    var sawResult := false;
    var askChoiceInputs := [];
    var i := 0;
    while i < |inputs|
      invariant 0 <= i <= |inputs|
      invariant Heard(inputs) == buffer + Heard(inputs[i..])
      invariant Stalled(inputs) == Stalled(inputs[i..])
      invariant Row(finalStatus, sb, askChoiceInputs) == SavedRow(buffer)
      invariant newSessionId == SessionOf(buffer)
      invariant sawResult ==> Verdict(buffer).Some?
    {
      HeardFrom(inputs, i);
      if inputs[i].Silence? {
        break;
      }
      var ev := inputs[i].event;
      Snoc(buffer, ev);
      assert buffer + ([ev] + Heard(inputs[i + 1..])) == (buffer + [ev]) + Heard(inputs[i + 1..]);
      buffer := buffer + [ev];
      if ev.BlockDelta? && ev.lane == Text {
        sb := sb + ev.text;
      } else if ev.ToolInputDone? {
        if IsAskChoice(ev.name) {
          askChoiceInputs := askChoiceInputs + [ev.input];
        }
      } else if ev.Result? {
        sawResult := true;
        newSessionId := ev.sessionId;
        finalStatus := if ev.status == "error" then Failed else Complete;
      } else if ev.Error? {
        finalStatus := Failed;
      }
      i := i + 1;
    }

    assert Heard(inputs) == buffer by {
      assert i == |inputs| ==> inputs[i..] == [];
      assert buffer + [] == buffer;
    }
    buffer, finalStatus := Conclude(buffer, i < |inputs|, sawResult, finalStatus);
    row := Row(finalStatus, sb, askChoiceInputs);
  }

  lemma FailedStarts(message: string)
    ensures SavedRow([]) == Row(Partial, "", []) && SessionOf([]) == ""
    ensures SavedRow([Error(message)]) == Row(Failed, "", []) && SessionOf([Error(message)]) == ""
  {
    Snoc([], Error(message));
    assert [] + [Error(message)] == [Error(message)];
  }

  /** Start the engine, run the loop, save the row and the session id. `saves` and `sessions`
      are the updates sent to the two repositories. Whatever the engine does, the row is saved
      once, and it is what the run buffer says. */
  method Drain(start: StartOutcome, inputs: seq<Input>)
    returns (buffer: seq<Event>, saves: seq<Row>, sessions: seq<string>)
    ensures buffer == Buffered(start, inputs)
    ensures saves == [SavedRow(buffer)]
    ensures sessions == if SessionOf(buffer) == "" then [] else [SessionOf(buffer)]
  {
    sessions := [];
    if start.Started? {
      var row, newSessionId;
      buffer, row, newSessionId := Forward(inputs);
      saves := [row];
      if newSessionId != "" {
        sessions := [newSessionId];
      }
    } else if start.Stopped? {
      FailedStarts("");
      buffer, saves := [], [Row(Partial, "", [])];
    } else {
      FailedStarts(start.message);
      buffer, saves := [Error(start.message)], [Row(Failed, "", [])];
    }
  }

  // ------------------------------------------------------------------ the same, step by step

  /** Where the run goroutine is: before the engine is started, in the select loop, behind it,
      before the row is saved, before the session id is, and back in the run manager. */
  datatype Place = Starting | Listening | Wrapping | Saving | Noting | Returned

  /** The goroutine's state: what it was given so far, its locals, and what it sent to the buffer and
      the two repositories. */
  datatype Process = Process(place: Place, start: StartOutcome, taken: seq<Input>, buffer: seq<Event>, row: Row,
                             sawResult: bool, sessionId: string, saves: seq<Row>, sessions: seq<string>)

  datatype Move = Begin(outcome: StartOutcome) | Take(input: Input) | Close | Wrap | Persist | Note

  function NewProcess(): Process { Process(Starting, Started, [], [], Row(Partial, "", []), false, "", [], []) }

  predicate CanMove(p: Process, m: Move) {
    match m
    case Begin(_) => p.place.Starting?
    case Take(_) => p.place.Listening?
    case Close => p.place.Listening?
    case Wrap => p.place.Wrapping?
    case Persist => p.place.Saving?
    case Note => p.place.Noting?
  }

  function HearEvent(p: Process, e: Event): Process {
    p.(taken := p.taken + [Got(e)], buffer := p.buffer + [e],
       row := Row(if e.Result? && e.status != "error" then Complete
                  else if e.Result? || e.Error? then Failed else p.row.status,
                  p.row.content + (if IsReply(e) then e.text else ""),
                  p.row.questions + (if IsChoice(e) then [e.input] else [])),
       sawResult := p.sawResult || e.Result?, sessionId := if e.Result? then e.sessionId else p.sessionId)
  }

  function Advance(p: Process, m: Move): Process
    requires CanMove(p, m)
  {
    match m
    case Begin(Started) => p.(place := Listening)
    case Begin(Stopped) => p.(place := Saving, start := Stopped)
    case Begin(Refused(message)) =>
      p.(place := Saving, start := Refused(message), buffer := [Error(message)], row := p.row.(status := Failed))
    case Take(Got(e)) => HearEvent(p, e)
    case Take(Silence) =>
      p.(place := Wrapping, taken := p.taken + [Silence], buffer := p.buffer + [Error(STALLED)],
         row := p.row.(status := Failed), sawResult := true)
    case Close => p.(place := Wrapping)
    case Wrap =>
      if !p.sawResult && p.row.status == Partial
      then p.(place := Saving, buffer := p.buffer + [Error(NO_RESULT)], row := p.row.(status := Failed))
      else p.(place := Saving)
    case Persist => p.(place := Noting, saves := p.saves + [p.row])
    case Note =>
      p.(place := Returned, sessions := if p.sessionId == "" then p.sessions else p.sessions + [p.sessionId])
  }

  /** The locals are what the buffer says. */
  predicate Folded(p: Process) {
    p.row == SavedRow(p.buffer) && p.sessionId == SessionOf(p.buffer) && (p.sawResult ==> Verdict(p.buffer).Some?)
  }

  predicate Sound(p: Process) {
    match p.place
    case Starting => p == NewProcess()
    case Listening =>
      && p.start.Started? && !Stalled(p.taken) && p.buffer == Heard(p.taken)
      && Folded(p) && p.saves == [] && p.sessions == []
    case Wrapping =>
      && p.start.Started? && p.buffer == Heard(p.taken) + (if Stalled(p.taken) then [Error(STALLED)] else [])
      && (Stalled(p.taken) ==> p.sawResult) && Folded(p) && p.saves == [] && p.sessions == []
    case Saving => p.buffer == Buffered(p.start, p.taken) && Folded(p) && p.saves == [] && p.sessions == []
    case Noting =>
      && p.buffer == Buffered(p.start, p.taken) && p.sessionId == SessionOf(p.buffer)
      && p.saves == [SavedRow(p.buffer)] && p.sessions == []
    case Returned =>
      && p.buffer == Buffered(p.start, p.taken) && p.saves == [SavedRow(p.buffer)]
      && p.sessions == if SessionOf(p.buffer) == "" then [] else [SessionOf(p.buffer)]
  }

  lemma {:induction false} HeardSnoc(inputs: seq<Input>, input: Input)
    requires !Stalled(inputs)
    ensures Heard(inputs + [input]) == Heard(inputs) + if input.Got? then [input.event] else []
    ensures Stalled(inputs + [input]) <==> input.Silence?
  {
    if inputs == [] {
      assert [] + [input] == [input] && [input][1..] == [];
    } else {
      assert (inputs + [input])[1..] == inputs[1..] + [input];
      HeardSnoc(inputs[1..], input);
    }
  }

  lemma BeginKeepsSound(p: Process, outcome: StartOutcome)
    requires Sound(p) && p.place.Starting?
    ensures Sound(Advance(p, Begin(outcome)))
  {
    FailedStarts(if outcome.Refused? then outcome.message else "");
  }

  lemma HearKeepsSound(p: Process, e: Event)
    requires Sound(p) && p.place.Listening?
    ensures Sound(Advance(p, Take(Got(e))))
  {
    HeardSnoc(p.taken, Got(e));
    Snoc(p.buffer, e);
  }

  lemma SilenceKeepsSound(p: Process)
    requires Sound(p) && p.place.Listening?
    ensures Sound(Advance(p, Take(Silence)))
  {
    HeardSnoc(p.taken, Silence);
    Snoc(p.buffer, Error(STALLED));
    assert Heard(p.taken) + [] == Heard(p.taken);
  }

  lemma TakeKeepsSound(p: Process, input: Input)
    requires Sound(p) && p.place.Listening?
    ensures Sound(Advance(p, Take(input)))
  {
    match input
    case Got(e) => HearKeepsSound(p, e);
    case Silence => SilenceKeepsSound(p);
  }

  lemma CloseKeepsSound(p: Process)
    requires Sound(p) && p.place.Listening?
    ensures Sound(Advance(p, Close))
  {
    assert p.buffer + [] == p.buffer;
  }

  lemma WrapKeepsSound(p: Process)
    requires Sound(p) && p.place.Wrapping?
    ensures Sound(Advance(p, Wrap))
  {
    assert Heard(p.taken) + [] == Heard(p.taken);
    if !p.sawResult && p.row.status == Partial {
      Snoc(p.buffer, Error(NO_RESULT));
    }
  }

  /** Whatever it meets, the goroutine saves nothing before it has come to the end, then the row its
      buffer says, once, then the session id. */
  lemma AdvanceKeepsSound(p: Process, m: Move)
    requires Sound(p) && CanMove(p, m)
    ensures Sound(Advance(p, m))
  {
    match m
    case Begin(outcome) => BeginKeepsSound(p, outcome);
    case Take(input) => TakeKeepsSound(p, input);
    case Close => CloseKeepsSound(p);
    case Wrap => WrapKeepsSound(p);
    case Persist =>
    case Note =>
  }

  // ------------------------------------------------------------------ the saved status

  /** The saved status, exactly: never running; complete when the engine started, never fell
      silent, and its last result or error was a good result; partial only when the engine
      never started because the run had been stopped. A run stopped later is an error. */
  lemma StatusExactly(start: StartOutcome, inputs: seq<Input>)
    ensures var status := SavedRow(Buffered(start, inputs)).status; var last := Verdict(Heard(inputs));
            && status != Running
            && (status == Partial <==> start.Stopped?)
            && (status == Complete <==>
                  && start.Started? && !Stalled(inputs)
                  && last.Some? && last.value.Result? && last.value.status != "error")
  {
    match start
    case Stopped =>
    case Refused(message) =>
      Snoc([], Error(message));
      assert [] + [Error(message)] == [Error(message)];
    case Started =>
      Snoc(Heard(inputs), Error(STALLED));
      Snoc(Heard(inputs), Error(NO_RESULT));
      assert Heard(inputs) + [] == Heard(inputs);
  }

  /** The saved reply is what the engine said before it fell silent, and nothing else. */
  lemma ReplyIsWhatWasHeard(start: StartOutcome, inputs: seq<Input>)
    ensures SavedRow(Buffered(start, inputs)).content == if start.Started? then Spoken(Heard(inputs)) else ""
  {
    match start
    case Stopped =>
    case Refused(message) =>
      Snoc([], Error(message));
      assert [] + [Error(message)] == [Error(message)];
    case Started =>
      Snoc(Heard(inputs), Error(STALLED));
      Snoc(Heard(inputs), Error(NO_RESULT));
      assert Heard(inputs) + [] == Heard(inputs);
  }

  predicate ShowsFault(e: Event) { e.Error? || (e.Result? && e.status == "error") }

  /** A row saved as an error comes with an event that tells the client so, after which
      nothing takes it back. */
  lemma {:induction false} FailureIsVisible(evs: seq<Event>)
    ensures StatusOf(evs) == Failed <==>
            exists i :: 0 <= i < |evs| && ShowsFault(evs[i]) && forall j :: i < j < |evs| ==> !evs[j].Result?
  {
    if evs == [] {
    } else {
      var n := |evs| - 1;
      FailureIsVisible(evs[..n]);
      if evs[n].Error? || evs[n].Result? {
        assert ShowsFault(evs[n]) <==> StatusOf(evs) == Failed;
      } else {
        var front := evs[..n];
        assert forall i :: 0 <= i < n ==> front[i] == evs[i];
        assert !ShowsFault(evs[n]);
      }
    }
  }

  /** What is heard is what arrives before the engine first falls silent. */
  lemma {:induction false} HeardIsBeforeTheSilence(inputs: seq<Input>)
    ensures |Heard(inputs)| <= |inputs|
    ensures forall i :: 0 <= i < |Heard(inputs)| ==> inputs[i] == Got(Heard(inputs)[i])
    ensures Stalled(inputs) <==> |Heard(inputs)| < |inputs|
    ensures Stalled(inputs) ==> inputs[|Heard(inputs)|].Silence?
  {
    if inputs == [] || inputs[0].Silence? {
    } else {
      HeardIsBeforeTheSilence(inputs[1..]);
      assert forall i :: 0 <= i < |inputs| - 1 ==> inputs[1..][i] == inputs[i + 1];
    }
  }

  predicate IsVerdict(e: Event) { e.Result? || e.Error? }

  ghost predicate LastVerdictAt(evs: seq<Event>, i: nat) {
    i < |evs| && IsVerdict(evs[i]) && forall j :: i < j < |evs| ==> !IsVerdict(evs[j])
  }

  lemma {:induction false} VerdictIsTheLast(evs: seq<Event>)
    ensures Verdict(evs).None? <==> forall i :: 0 <= i < |evs| ==> !IsVerdict(evs[i])
    ensures Verdict(evs).Some? ==> exists i: nat :: LastVerdictAt(evs, i) && evs[i] == Verdict(evs).value
  {
    if evs == [] {
    } else {
      var n := |evs| - 1;
      VerdictIsTheLast(evs[..n]);
      if IsVerdict(evs[n]) {
        assert LastVerdictAt(evs, n);
      } else {
        assert forall i :: 0 <= i < n ==> evs[..n][i] == evs[i];
        if i: nat :| LastVerdictAt(evs[..n], i) && evs[..n][i] == Verdict(evs).value {
          assert LastVerdictAt(evs, i);
        }
      }
    }
  }

  /** The saved status by the last result or error of the buffer: complete after a good result, failed
      after an error or an error result, partial without either. */
  lemma StatusIsTheLastVerdict(evs: seq<Event>, i: nat)
    ensures (forall j :: 0 <= j < |evs| ==> !IsVerdict(evs[j])) ==> StatusOf(evs) == Partial
    ensures LastVerdictAt(evs, i) ==>
              StatusOf(evs) == if evs[i].Result? && evs[i].status != "error" then Complete else Failed
  {
    VerdictIsTheLast(evs);
    if LastVerdictAt(evs, i) {
      var k: nat :| LastVerdictAt(evs, k) && evs[k] == Verdict(evs).value;
      assert k == i;
    }
  }

  /** The session id kept is that of the last result. */
  lemma {:induction false} SessionIsTheLastResults(evs: seq<Event>, i: nat)
    requires i < |evs| && evs[i].Result? && forall j :: i < j < |evs| ==> !evs[j].Result?
    ensures SessionOf(evs) == evs[i].sessionId
  {
    if i < |evs| - 1 {
      SessionIsTheLastResults(evs[..|evs| - 1], i);
    }
  }

  lemma {:induction false} NoResultNoSession(evs: seq<Event>)
    requires forall i :: 0 <= i < |evs| ==> !evs[i].Result?
    ensures SessionOf(evs) == ""
  {
    if evs == [] {
    } else {
      NoResultNoSession(evs[..|evs| - 1]);
    }
  }

  /** The tools whose inputs are questions: AskChoice, by itself or of any server. */
  lemma AskChoiceNames(name: string)
    ensures IsAskChoice(name) <==> name == "AskChoice" || exists server: string :: name == server + "__AskChoice"
  {
    if Strings.EndsWith(name, "__AskChoice") {
      var server := name[..|name| - |"__AskChoice"|];
      assert name == server + "__AskChoice";
    }
    if server: string :| name == server + "__AskChoice" {
      assert name[|server|..] == "__AskChoice";
    }
  }

  function QuestionOf(e: Event): seq<Option<Json>> {
    if e.ToolInputDone? && IsAskChoice(e.name) then [e.input] else []
  }

  lemma {:induction false} ChoicesAreTheQuestions(evs: seq<Event>)
    ensures Choices(evs) == Strings.FlatMap(QuestionOf, evs)
  {
    if evs == [] {
    } else {
      ChoicesAreTheQuestions(evs[..|evs| - 1]);
    }
  }

  /** The saved questions are the inputs of the AskChoice calls heard, in order. */
  lemma QuestionsAreWhatWasAsked(inputs: seq<Input>)
    ensures SavedRow(Buffered(Started, inputs)).questions == Strings.FlatMap(QuestionOf, Heard(inputs))
  {
    Snoc(Heard(inputs), Error(STALLED));
    Snoc(Heard(inputs), Error(NO_RESULT));
    assert Heard(inputs) + [] == Heard(inputs);
    ChoicesAreTheQuestions(Heard(inputs));
  }

  // ------------------------------------------------------------------ Slack

  /** The error Slack shows: the last error's message, or a stock one after an error result. */
  function Fault(evs: seq<Event>): string {
    if evs == [] then ""
    else
      var e, before := evs[|evs| - 1], Fault(evs[..|evs| - 1]);
      if e.Error? then e.message
      else if e.Result? && e.status == "error" && before == "" then ENGINE_ERROR
      else before
  }

  function Render(reply: string, fault: string): (message: string)
    ensures message != ""
  {
    var text := Strings.Trim(reply);
    if fault != "" then
      if text == "" then "\U{26A0}\U{FE0F} " + fault else text + "\n\n\U{26A0}\U{FE0F} " + fault
    else if text == "" then "\U{2026}" else text
  }

  function Message(evs: seq<Event>): string { Render(Spoken(evs), Fault(evs)) }

  lemma SpokenNext(evs: seq<Event>, k: nat)
    requires k < |evs|
    ensures Spoken(evs[..k + 1]) == Spoken(evs[..k]) + if IsReply(evs[k]) then evs[k].text else ""
    ensures Fault(evs[..k + 1]) ==
              if evs[k].Error? then evs[k].message
              else if evs[k].Result? && evs[k].status == "error" && Fault(evs[..k]) == "" then ENGINE_ERROR
              else Fault(evs[..k])
  {
    assert evs[..k + 1][..k] == evs[..k];
  }

  /** Fold a subscription into one edited message. `due[k]` says whether the throttle interval
      has passed at event k, `accepted[k]` whether Slack takes the edit made there. However
      edits are throttled and refused, what is shown is the message of some prefix, one that is no
      older than any edit due and taken, and of the whole buffer once the last edit is taken. */
  method Stream(evs: seq<Event>, placeholder: string, due: seq<bool>, accepted: seq<bool>) returns (shown: string)
    requires |due| == |evs| && |accepted| == |evs| + 1
    ensures accepted[|evs|] ==> shown == Message(evs)
    ensures shown == placeholder || exists k :: 0 <= k <= |evs| && shown == Message(evs[..k])
    ensures forall i :: 0 <= i < |evs| && IsReply(evs[i]) && due[i] && accepted[i] ==>
              exists k :: i < k <= |evs| && shown == Message(evs[..k])
  {
    var sb, errMsg, lastRendered := "", "", "";
    shown := placeholder;
    ghost var at := -1;
    for k := 0 to |evs|
      invariant sb == Spoken(evs[..k]) && errMsg == Fault(evs[..k])
      invariant lastRendered == "" || lastRendered == shown
      invariant -1 <= at <= k && shown == if at < 0 then placeholder else Message(evs[..at])
      invariant forall i :: 0 <= i < k && IsReply(evs[i]) && due[i] && accepted[i] ==> i < at
    {
      SpokenNext(evs, k);
      match evs[k]
      case BlockDelta(lane, _, text) =>
        if lane == Text {
          sb := sb + text;
          var message := Render(sb, errMsg);
          if message != lastRendered && due[k] && accepted[k] {
            shown, lastRendered := message, message;
          }
          if due[k] && accepted[k] {
            assert shown == message == Message(evs[..k + 1]);
            at := k + 1;
          }
        }
      case Error(message) =>
        errMsg := message;
      case Result(status, _) =>
        if status == "error" && errMsg == "" {
          errMsg := ENGINE_ERROR;
        }
      case _ =>
    }
    assert evs[..|evs|] == evs;
    var message := Render(sb, errMsg);
    if message != lastRendered && accepted[|evs|] {
      shown := message;
    }
  }

  /** For a failed row Slack shows an error, unless the last word was an error without a message. */
  lemma {:induction false} FailureReachesSlack(evs: seq<Event>)
    requires StatusOf(evs) == Failed
    ensures Fault(evs) == "" <==> Verdict(evs) == Some(Error(""))
  {
    var n := |evs| - 1;
    assert evs != [];
    if !evs[n].Result? && !evs[n].Error? {
      FailureReachesSlack(evs[..n]);
    }
  }

  /** Something Slack shows as an error. */
  predicate Complains(e: Event) { (e.Error? && e.message != "") || (e.Result? && e.status == "error") }

  /** The message starts with the reply and ends with the error, and is no longer than they need. */
  lemma MessageHoldsBoth(reply: string, fault: string)
    ensures Strings.Trim(reply) <= Render(reply, fault) || Strings.Trim(reply) == ""
    ensures fault != "" ==> Strings.EndsWith(Render(reply, fault), fault)
    ensures fault == "" && Strings.Trim(reply) != "" ==> Render(reply, fault) == Strings.Trim(reply)
  {
    var text, message := Strings.Trim(reply), Render(reply, fault);
    if fault != "" {
      assert message[|message| - |fault|..] == fault;
    }
  }

  ghost predicate LastErrorAt(evs: seq<Event>, i: nat) {
    i < |evs| && evs[i].Error? && forall j :: i < j < |evs| ==> !evs[j].Error?
  }

  /** The error shown is the last error's message, if it has one; without an error it is the stock one
      after an error result, and none after none. */
  lemma {:induction false} FaultIsTheLastError(evs: seq<Event>, i: nat)
    ensures LastErrorAt(evs, i) && evs[i].message != "" ==> Fault(evs) == evs[i].message
    ensures (forall j :: 0 <= j < |evs| ==> !evs[j].Error?) ==>
              Fault(evs) == if exists j :: 0 <= j < |evs| && Complains(evs[j]) then ENGINE_ERROR else ""
  {
    if evs == [] {
    } else {
      var n := |evs| - 1;
      FaultIsTheLastError(evs[..n], i);
      assert forall j :: 0 <= j < n ==> evs[..n][j] == evs[j];
      if Complains(evs[n]) {
        assert exists j :: 0 <= j < |evs| && Complains(evs[j]);
      }
    }
  }

  /** A run that stalls, ends without a verdict or does not start says so in Slack. */
  lemma MadeUpErrorsAreShown(start: StartOutcome, inputs: seq<Input>)
    requires start.Started? ==> Stalled(inputs) || Verdict(Heard(inputs)).None?
    ensures start.Started? ==> Fault(Buffered(start, inputs)) == (if Stalled(inputs) then STALLED else NO_RESULT) != ""
    ensures start.Refused? ==> Fault(Buffered(start, inputs)) == start.message
  {
    var evs := Buffered(start, inputs);
    if !start.Stopped? {
      assert evs[|evs| - 1].Error?;
    }
  }

  ghost predicate ComplainsAt(evs: seq<Event>, i: int) {
    0 <= i < |evs| && Complains(evs[i]) && forall j :: i < j < |evs| ==> evs[j] != Error("")
  }

  lemma ComplaintStays(evs: seq<Event>, e: Event, i: int)
    ensures ComplainsAt(evs + [e], i) <==>
              if i == |evs| then Complains(e) else ComplainsAt(evs, i) && e != Error("")
  {
    var all := evs + [e];
    assert forall j :: 0 <= j < |evs| ==> all[j] == evs[j];
    assert all[|evs|] == e;
  }

  /** For every buffer, Slack shows an error exactly when some event complains and no error without
      a message follows it. */
  lemma {:induction false} SlackShowsAnErrorIff(evs: seq<Event>)
    ensures Fault(evs) != "" <==> exists i :: ComplainsAt(evs, i)
  {
    if evs == [] {
    } else {
      var before, e := evs[..|evs| - 1], evs[|evs| - 1];
      assert evs == before + [e];
      SlackShowsAnErrorIff(before);
      forall i ensures ComplainsAt(evs, i) <==>
                       if i == |before| then Complains(e) else ComplainsAt(before, i) && e != Error("") {
        ComplaintStays(before, e, i);
      }
      if Fault(before) != "" {
        var i :| ComplainsAt(before, i);
        assert e != Error("") ==> ComplainsAt(evs, i);
      }
      assert Complains(e) ==> ComplainsAt(evs, |before|);
    }
  }

  /** Saved status and shown error are not opposites: a good result makes the row complete and
      leaves any error shown before it standing. */
  lemma CompleteMayStillShowAnError(evs: seq<Event>, status: string, sessionId: string)
    requires status != "error"
    ensures var all := evs + [Result(status, sessionId)];
            StatusOf(all) == Complete && Fault(all) == Fault(evs)
  {
    Snoc(evs, Result(status, sessionId));
    assert (evs + [Result(status, sessionId)])[..|evs|] == evs;
  }

  predicate GoodResult(e: Event) { e.Result? && e.status != "error" }

  lemma {:induction false} LastVerdict(evs: seq<Event>)
    requires StatusOf(evs) == Complete
    ensures exists j :: 0 <= j < |evs| && GoodResult(evs[j]) &&
              forall k :: j < k < |evs| ==> !evs[k].Result? && !evs[k].Error?
  {
    var n := |evs| - 1;
    assert evs != [];
    if evs[n].Result? {
      assert GoodResult(evs[n]);
    } else {
      LastVerdict(evs[..n]);
      var j :| 0 <= j < n && GoodResult(evs[..n][j]) &&
        forall k :: j < k < n ==> !evs[..n][k].Result? && !evs[..n][k].Error?;
      assert evs[..n][j] == evs[j];
      forall k | j < k < |evs| ensures !evs[k].Result? && !evs[k].Error? {
        assert k < n ==> evs[..n][k] == evs[k];
      }
    }
  }

  /** So a complete row is shown with an error exactly when a complaint came before its good result. */
  lemma {:induction false} CompleteRowShowsAnErrorIff(evs: seq<Event>)
    requires StatusOf(evs) == Complete
    ensures Fault(evs) != "" <==> exists i, j :: ComplainsAt(evs, i) && i < j < |evs| && GoodResult(evs[j])
  {
    SlackShowsAnErrorIff(evs);
    LastVerdict(evs);
    var j :| 0 <= j < |evs| && GoodResult(evs[j]) && forall k :: j < k < |evs| ==> !evs[k].Result? && !evs[k].Error?;
    forall i | ComplainsAt(evs, i) ensures i < j {
      assert Complains(evs[i]);
    }
  }

  /** In every schedule of the run buffer, a full subscription that ends on its own has been
      handed exactly what decided the saved row: it folds to the saved reply and status. */
  lemma SubscribersFoldTheSavedRow(start: StartOutcome, inputs: seq<Input>,
                                   acts: seq<RunBuffer.Action<Event>>, i: nat)
    requires RunBuffer.NoLateAppend(acts) && RunBuffer.Emitted(acts) == Buffered(start, inputs)
    requires i in RunBuffer.Exec(acts).subs && RunBuffer.Asked(acts, i) == Some(0)
    requires RunBuffer.Exec(acts).subs[i].phase.Ended? && !RunBuffer.Exec(acts).subs[i].phase.cancelled
    ensures SavedRow(RunBuffer.Exec(acts).subs[i].received) == SavedRow(Buffered(start, inputs))
    ensures RunBuffer.Exec(acts).subs[i].received == Buffered(start, inputs)
  {
    RunBuffer.EndsOnlyWhenDelivered(acts, i);
    var evs := RunBuffer.Emitted(acts);
    assert evs[0..] == evs;
  }
}
