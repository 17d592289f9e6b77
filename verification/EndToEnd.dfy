/** The whole streaming path: SDK messages, engine events, run buffer, subscription, SSE bytes in
    whatever reads, UI parts, and the saved row. */
module EndToEnd {
  import opened Protocol
  import opened Wrappers
  import Strings = Text
  import M = SdkMapping
  import U = UiPump
  import T = ToolAgreement
  import D = Drain
  import R = RunBuffer
  import S = Sse

  /** The reply text the SDK streamed. */
  function SdkText(msgs: seq<M.Message>): string {
    if msgs == [] then ""
    else
      SdkText(msgs[..|msgs| - 1]) +
      match msgs[|msgs| - 1] case DeltaAt(_, TextDelta(t)) => t case _ => ""
  }

  lemma {:induction false} SpokenAppend(a: seq<Event>, b: seq<Event>)
    ensures D.Spoken(a + b) == D.Spoken(a) + D.Spoken(b)
  {
    if b == [] {
      assert a + b == a;
    } else {
      assert (a + b)[..|a + b| - 1] == a + b[..|b| - 1];
      SpokenAppend(a, b[..|b| - 1]);
    }
  }

  lemma {:induction false} SilentIsNotSpoken(evs: seq<Event>)
    requires forall i :: 0 <= i < |evs| ==> !D.IsReply(evs[i])
    ensures D.Spoken(evs) == ""
  {
    if evs == [] {
    } else {
      SilentIsNotSpoken(evs[..|evs| - 1]);
    }
  }

  lemma OtherStepsAreSilent(loads: T.Parser, s: M.State, msg: M.Message)
    requires !(msg.DeltaAt? && msg.delta.TextDelta?)
    ensures var t := M.StepOn(loads, s, msg);
            s.out <= t.out && forall i :: |s.out| <= i < |t.out| ==> !D.IsReply(t.out[i])
  {}

  lemma StepSpeaks(loads: T.Parser, s: M.State, msg: M.Message)
    ensures D.Spoken(M.StepOn(loads, s, msg).out) ==
              D.Spoken(s.out) + match msg case DeltaAt(_, TextDelta(t)) => t case _ => ""
  {
    var t := M.StepOn(loads, s, msg);
    if msg.DeltaAt? && msg.delta.TextDelta? {
      D.Snoc(s.out, t.out[|s.out|]);
    } else {
      OtherStepsAreSilent(loads, s, msg);
      var more := t.out[|s.out|..];
      assert t.out == s.out + more;
      SpokenAppend(s.out, more);
      SilentIsNotSpoken(more);
    }
  }

  /** The engine's text deltas are the SDK's, none lost and none added. */
  lemma {:induction false} EngineSpeaksTheSdkText(loads: T.Parser, msgs: seq<M.Message>)
    ensures D.Spoken(M.Process(loads, msgs).out) == SdkText(msgs)
  {
    if msgs == [] {
    } else {
      EngineSpeaksTheSdkText(loads, msgs[..|msgs| - 1]);
      StepSpeaks(loads, M.Process(loads, msgs[..|msgs| - 1]), msgs[|msgs| - 1]);
    }
  }

  lemma {:induction false} QuietKeepsVerdict(a: seq<Event>, b: seq<Event>)
    requires forall i :: 0 <= i < |b| ==> !b[i].Result? && !b[i].Error?
    ensures D.Verdict(a + b) == D.Verdict(a) && D.SessionOf(a + b) == D.SessionOf(a)
  {
    if b == [] {
      assert a + b == a;
    } else {
      assert (a + b)[..|a + b| - 1] == a + b[..|b| - 1];
      QuietKeepsVerdict(a, b[..|b| - 1]);
    }
  }

  lemma OtherStepsGiveNoVerdict(loads: T.Parser, s: M.State, msg: M.Message)
    requires !msg.Final?
    ensures var t := M.StepOn(loads, s, msg);
            s.out <= t.out && forall i :: |s.out| <= i < |t.out| ==> !t.out[i].Result? && !t.out[i].Error?
  {}

  lemma StepEndsWell(loads: T.Parser, s: M.State, msg: M.Message)
    ensures var t := M.StepOn(loads, s, msg);
            && D.Verdict(t.out) == (if msg.Final? then Some(Result("success", msg.sessionId)) else D.Verdict(s.out))
            && D.SessionOf(t.out) == (if msg.Final? then msg.sessionId else D.SessionOf(s.out))
  {
    var t := M.StepOn(loads, s, msg);
    if msg.Final? {
      D.Snoc(s.out, Result("success", msg.sessionId));
    } else {
      OtherStepsGiveNoVerdict(loads, s, msg);
      assert t.out == s.out + t.out[|s.out|..];
      QuietKeepsVerdict(s.out, t.out[|s.out|..]);
    }
  }

  /** Neither the conversation's frame nor an added error brings a tool result. */
  lemma OnlyHeardCounts(inputs: seq<D.Input>, conv: string)
    ensures Strings.FlatMap(ToolResultOf, [Conversation(conv)] + D.Buffered(D.Started, inputs)) ==
            Strings.FlatMap(ToolResultOf, D.Heard(inputs))
  {
    var heard, hello := D.Heard(inputs), [Conversation(conv)];
    Strings.FlatMapSnoc(ToolResultOf, heard, Error(D.STALLED));
    Strings.FlatMapSnoc(ToolResultOf, heard, Error(D.NO_RESULT));
    assert heard + [] == heard;
    Strings.FlatMapAppend(ToolResultOf, hello, D.Buffered(D.Started, inputs));
    assert hello[..0] == [];
  }

  /** The engine reports no error of its own, and no result but the successes of the final messages. */
  lemma {:induction false} EngineEndsWell(loads: T.Parser, msgs: seq<M.Message>)
    ensures var out := M.Process(loads, msgs).out; var finals := Strings.FlatMap(M.FinalId, msgs);
            && D.Verdict(out) == (if finals == [] then None else Some(Result("success", finals[|finals| - 1])))
            && D.SessionOf(out) == (if finals == [] then "" else finals[|finals| - 1])
  {
    if msgs == [] {
    } else {
      var before, msg := msgs[..|msgs| - 1], msgs[|msgs| - 1];
      EngineEndsWell(loads, before);
      StepEndsWell(loads, M.Process(loads, before), msg);
      assert Strings.FlatMap(M.FinalId, before) + [] == Strings.FlatMap(M.FinalId, before);
    }
  }

  /** When everything was heard, the saved status and session follow from the SDK's messages: complete,
      with the session of the last final message, if there was one; failed otherwise, or if the engine
      fell silent after all. */
  lemma RowFollowsTheFinal(loads: T.Parser, msgs: seq<M.Message>, inputs: seq<D.Input>)
    requires D.Heard(inputs) == M.Process(loads, msgs).out
    ensures var finals := Strings.FlatMap(M.FinalId, msgs); var buffer := D.Buffered(D.Started, inputs);
            && D.SavedRow(buffer).status == (if finals != [] && !D.Stalled(inputs) then D.Complete else D.Failed)
            && D.SessionOf(buffer) == (if finals == [] then "" else finals[|finals| - 1])
  {
    EngineEndsWell(loads, msgs);
    D.Snoc(D.Heard(inputs), Error(D.STALLED));
    D.Snoc(D.Heard(inputs), Error(D.NO_RESULT));
    assert D.Heard(inputs) + [] == D.Heard(inputs);
  }

  /** The tool results the browser shows are, in order, a prefix of those handed to the engine, and
      all of them if everything was heard. */
  lemma BrowserShowsTheToolResults(loads: T.Parser, parse: T.Parser, msgs: seq<M.Message>, inputs: seq<D.Input>,
                                   conv: string)
    requires D.Heard(inputs) <= M.Process(loads, msgs).out
    ensures var seen := [Conversation(conv)] + D.Buffered(D.Started, inputs);
            var shown := Strings.FlatMap(U.OutputOf, U.Pump(parse, seen).out);
            var handed := Strings.FlatMap(M.HandedIn, msgs);
            shown <= handed && (D.Heard(inputs) == M.Process(loads, msgs).out ==> shown == handed)
  {
    var heard, out := D.Heard(inputs), M.Process(loads, msgs).out;
    U.OutputsAreTheResults(parse, [Conversation(conv)] + D.Buffered(D.Started, inputs));
    M.ToolResultsAreHandedOn(loads, msgs);
    OnlyHeardCounts(inputs, conv);
    assert out == heard + out[|heard|..];
    Strings.FlatMapAppend(ToolResultOf, heard, out[|heard|..]);
    assert out == heard ==> out[|heard|..] == [];
  }

  /** The error the backend may add makes no tool call. */
  lemma AddedErrorMakesNoCall(parse: T.Parser, inputs: seq<D.Input>)
    ensures U.Pump(parse, D.Buffered(D.Started, inputs)).calls == U.Pump(parse, D.Heard(inputs)).calls
  {
    T.PumpSnoc(parse, D.Heard(inputs), Error(D.STALLED));
    T.PumpSnoc(parse, D.Heard(inputs), Error(D.NO_RESULT));
    assert D.Heard(inputs) + [] == D.Heard(inputs);
  }

  /** What a browser has once a stream has ended. */
  function Seen(chunks: seq<string>, decode: string -> Option<Event>): seq<Event> {
    S.Decoded(decode, S.ScanText(Strings.Flatten(chunks)).payloads)
  }

  /** A browser that starts a run, and whose subscription ended on its own, sees the conversation's id
      and then exactly the run buffer, under every schedule of the run's goroutines and every way the
      network cuts the bytes. */
  lemma BrowserSeesTheBuffer(start: D.StartOutcome, inputs: seq<D.Input>, acts: seq<R.Action<Event>>, i: nat,
                             conv: string, conversation: string,
                             marshal: Event -> Option<string>, decode: string -> Option<Event>, chunks: seq<string>)
    requires R.NoLateAppend(acts) && R.Emitted(acts) == D.Buffered(start, inputs)
    requires i in R.Exec(acts).subs && R.Asked(acts, i) == Some(0)
    requires R.Exec(acts).subs[i].phase.Ended? && !R.Exec(acts).subs[i].phase.cancelled
    requires S.Codec(marshal, decode)
    requires forall e :: e in D.Buffered(start, inputs) ==> marshal(e).Some?
    requires S.Clean(conversation) && decode(conversation) == Some(Conversation(conv))
    requires var frames := S.FramesFrom(R.Exec(acts).subs[i].received, marshal, 0);
             Strings.Flatten(chunks) == S.WriteAll([S.Frame(0, conversation)] + frames) + S.DONE_FRAME
    ensures Seen(chunks, decode) == [Conversation(conv)] + D.Buffered(start, inputs)
  {
    D.SubscribersFoldTheSavedRow(start, inputs, acts, i);
    S.NewClientGetsTheEvents(Conversation(conv), conversation, D.Buffered(start, inputs), marshal, decode, chunks);
  }

  /** Each tool.input_done, and nothing else, makes a call. */
  lemma HandleCounts(parse: T.Parser, s: U.State, ev: Event)
    ensures var t := U.Handle(parse, s, ev);
            s.calls <= t.calls && |t.calls| == |s.calls| + if ev.ToolInputDone? then 1 else 0
  {}

  lemma {:induction false} PumpCounts(parse: T.Parser, evs: seq<Event>)
    ensures |U.Pump(parse, evs).calls| == |T.EngineInputs(evs)|
  {
    if evs == [] {
    } else {
      PumpCounts(parse, evs[..|evs| - 1]);
      HandleCounts(parse, U.Pump(parse, evs[..|evs| - 1]), evs[|evs| - 1]);
    }
  }

  lemma {:induction false} PumpOnlyAddsCalls(parse: T.Parser, a: seq<Event>, b: seq<Event>)
    ensures U.Pump(parse, a).calls <= U.Pump(parse, a + b).calls
  {
    if b == [] {
      assert a + b == a;
    } else {
      var n := |b| - 1;
      assert (a + b)[..|a + b| - 1] == a + b[..n];
      PumpOnlyAddsCalls(parse, a, b[..n]);
      HandleCounts(parse, U.Pump(parse, a + b[..n]), b[n]);
    }
  }

  /** What of the engine's output is heard before a stall, and so is a prefix of it, is all that the
      browser's calls and the saved reply are made from. */
  lemma HeardPrefix(parse: T.Parser, out: seq<Event>, heard: seq<Event>)
    requires heard <= out
    ensures U.Pump(parse, heard).calls <= U.Pump(parse, out).calls
    ensures D.Spoken(heard) <= D.Spoken(out)
  {
    var rest := out[|heard|..];
    assert out == heard + rest;
    PumpOnlyAddsCalls(parse, heard, rest);
    SpokenAppend(heard, rest);
  }

  lemma BuffersMakeCalls(parse: T.Parser, s: U.State, t: U.State, ev: Event)
    requires s.calls == t.calls && s.buffers == t.buffers
    ensures U.Handle(parse, s, ev).calls == U.Handle(parse, t, ev).calls
    ensures U.Handle(parse, s, ev).buffers == U.Handle(parse, t, ev).buffers
  {}

  /** The conversation's frame in front makes none either. */
  lemma {:induction false} HelloMakesNoCall(parse: T.Parser, conv: string, evs: seq<Event>)
    ensures var u, v := U.Pump(parse, evs), U.Pump(parse, [Conversation(conv)] + evs);
            u.calls == v.calls && u.buffers == v.buffers
  {
    var all := [Conversation(conv)] + evs;
    if evs == [] {
      assert all == [Conversation(conv)] && all[..0] == [];
    } else {
      var n := |evs| - 1;
      assert all[..|all| - 1] == [Conversation(conv)] + evs[..n] && all[|all| - 1] == evs[n];
      HelloMakesNoCall(parse, conv, evs[..n]);
      BuffersMakeCalls(parse, U.Pump(parse, evs[..n]), U.Pump(parse, [Conversation(conv)] + evs[..n]), evs[n]);
    }
  }

  /** What the engine said, what the browser shows and what the database keeps agree, wherever the
      backend stops listening: the saved reply is the SDK's text up to there, all of it if everything
      was heard; the browser has one call per finished tool input heard, each with the id and text the
      engine had, up to what the engine's block started over (`ToolAgreement.CallsAgreeIff`); and each
      of its lanes is well formed. */
  lemma EngineBrowserAndRowAgree(loads: T.Parser, parse: T.Parser, msgs: seq<M.Message>, inputs: seq<D.Input>,
                                 conv: string)
    requires T.UnsharedIds(loads, msgs)
    requires D.Heard(inputs) <= M.Process(loads, msgs).out
    ensures D.SavedRow(D.Buffered(D.Started, inputs)).content <= SdkText(msgs)
    ensures D.Heard(inputs) == M.Process(loads, msgs).out ==>
              D.SavedRow(D.Buffered(D.Started, inputs)).content == SdkText(msgs)
    ensures var calls := U.Pump(parse, [Conversation(conv)] + D.Buffered(D.Started, inputs)).calls;
            var engine, prefixes := M.Process(loads, msgs).calls, T.Prefixes(loads, msgs);
            && |calls| == |T.EngineInputs(D.Heard(inputs))| <= |engine| == |prefixes|
            && forall i :: 0 <= i < |calls| ==> engine[i] == Call(calls[i].id, prefixes[i] + calls[i].raw)
    ensures var seen := [Conversation(conv)] + D.Buffered(D.Started, inputs);
            forall lane, id ::
              var parts := U.OutOps(U.Pump(parse, seen).out, lane, id);
              U.WellFormed(parts) && U.TextOf(parts) == U.TextOf(U.InOps(seen, lane, id))
  {
    var seen := [Conversation(conv)] + D.Buffered(D.Started, inputs);
    HelloMakesNoCall(parse, conv, D.Buffered(D.Started, inputs));
    D.ReplyIsWhatWasHeard(D.Started, inputs);
    EngineSpeaksTheSdkText(loads, msgs);
    HeardPrefix(parse, M.Process(loads, msgs).out, D.Heard(inputs));
    T.CallsAgreeIff(loads, parse, msgs);
    AddedErrorMakesNoCall(parse, inputs);
    PumpCounts(parse, D.Heard(inputs));
    forall lane, id
      ensures var parts := U.OutOps(U.Pump(parse, seen).out, lane, id);
              U.WellFormed(parts) && U.TextOf(parts) == U.TextOf(U.InOps(seen, lane, id))
    {
      U.EveryLaneIsWellFormed(parse, seen, lane, id);
    }
  }
}
