/** The mapping of the agent SDK's message stream to protocol events (core/sdk_mapping.py). */
module SdkMapping {
  import T = Text
  import opened Protocol
  import opened Wrappers

  datatype Block = TextBlock | ThinkingBlock | ToolBlock(id: string, name: string) | OtherBlock

  datatype Delta = TextDelta(text: string) | ThinkingDelta(text: string) | InputDelta(fragment: string) | OtherDelta

  datatype Message =
    | SubAgent                                      // carries a parent tool use: skipped
    | Start(idx: nat, block: Block)
    | DeltaAt(idx: nat, delta: Delta)
    | Stop(idx: nat)
    | ToolResults(results: seq<(string, string)>)
    | Final(sessionId: string)
    | Ignored

  datatype Kind = TextKind | ThinkingKind | ToolKind

  datatype OpenBlock = OpenBlock(id: string, kind: Kind, name: string)

  /** `calls` records the text each tool call's input was parsed from, in order. */
  datatype State = State(blocks: map<nat, OpenBlock>, buffers: map<nat, string>, step: nat,
                         session: Option<string>, out: seq<Event>, calls: seq<Call>)

  const INIT := State(map[], map[], 0, None, [], [])

  function BlockId(idx: nat): string { "b" + T.Dec(idx + 1) }

  function ToolId(idx: nat, id: string): string { if id == "" then BlockId(idx) else id }

  /** The block a delta or a stop refers to; an index nobody opened counts as text. */
  function BlockAt(s: State, idx: nat): OpenBlock { Lookup(s.blocks, idx, OpenBlock(BlockId(idx), TextKind, "")) }

  function ParsedInput(parse: string -> Option<Json>, raw: string): Option<Json> {
    if raw == "" then None else parse(raw)
  }

  function ResultEvents(results: seq<(string, string)>): seq<Event> {
    seq(|results|, i requires 0 <= i < |results| => ToolResult(results[i].0, results[i].1))
  }

  function StepOn(parse: string -> Option<Json>, s: State, msg: Message): State {
    match msg
    case SubAgent => s
    case Start(idx, TextBlock) =>
      s.(blocks := s.blocks[idx := OpenBlock(BlockId(idx), TextKind, "")],
         out := s.out + [BlockStart(Text, BlockId(idx))])
    case Start(idx, ThinkingBlock) =>
      s.(blocks := s.blocks[idx := OpenBlock(BlockId(idx), ThinkingKind, "")],
         out := s.out + [BlockStart(Thinking, BlockId(idx))])
    case Start(idx, ToolBlock(id, name)) =>
      s.(blocks := s.blocks[idx := OpenBlock(ToolId(idx, id), ToolKind, name)],
         out := s.out + [ToolStart(ToolId(idx, id), name)])
    case Start(idx, OtherBlock) => s
    case DeltaAt(idx, TextDelta(t)) => s.(out := s.out + [BlockDelta(Text, BlockAt(s, idx).id, t)])
    case DeltaAt(idx, ThinkingDelta(t)) => s.(out := s.out + [BlockDelta(Thinking, BlockAt(s, idx).id, t)])
    case DeltaAt(idx, InputDelta(f)) =>
      s.(buffers := s.buffers[idx := Lookup(s.buffers, idx, "") + f],
         out := s.out + [ToolInputDelta(BlockAt(s, idx).id, f)])
    case DeltaAt(idx, OtherDelta) => s
    case Stop(idx) =>
      var b := BlockAt(s, idx);
      var t := s.(blocks := s.blocks - {idx});
      (match b.kind
       case TextKind => t.(out := s.out + [BlockStop(Text, b.id)])
       case ThinkingKind => t.(out := s.out + [BlockStop(Thinking, b.id)])
       case ToolKind =>
         var raw := Lookup(s.buffers, idx, "");
         t.(buffers := s.buffers - {idx}, step := s.step + 1, calls := s.calls + [Call(b.id, raw)],
            out := s.out + [ToolInputDone(b.id, b.name, ParsedInput(parse, raw)), AgentStep(s.step + 1, b.name)]))
    case ToolResults(results) => s.(out := s.out + ResultEvents(results))
    case Final(sessionId) => s.(session := Some(sessionId), out := s.out + [Result("success", sessionId)])
    case Ignored => s
  }

  function Process(parse: string -> Option<Json>, msgs: seq<Message>): State {
    if msgs == [] then INIT else StepOn(parse, Process(parse, msgs[..|msgs| - 1]), msgs[|msgs| - 1])
  }

  // ------------------------------------------------------------------ steps follow finished tool inputs

  function Dones(out: seq<Event>): nat {
    if out == [] then 0 else Dones(out[..|out| - 1]) + if out[|out| - 1].ToolInputDone? then 1 else 0
  }

  ghost predicate PairedAt(out: seq<Event>, i: nat)
    requires i < |out|
  {
    && (out[i].ToolInputDone? ==> i + 1 < |out| && out[i + 1] == AgentStep(Dones(out[..i + 1]), out[i].name))
    && (out[i].AgentStep? ==> i > 0 && out[i - 1].ToolInputDone?)
  }

  /** Every tool.input_done is followed at once by agent.step, numbered by how many there were so
      far, and there is no other agent.step. */
  ghost predicate Paired(out: seq<Event>) { forall i :: 0 <= i < |out| ==> PairedAt(out, i) }

  lemma PairedStays(out: seq<Event>, more: seq<Event>)
    requires Paired(out)
    ensures forall i :: 0 <= i < |out| ==> PairedAt(out + more, i)
  {
    forall i | 0 <= i < |out| ensures PairedAt(out + more, i) {
      assert PairedAt(out, i);
      assert (out + more)[..i + 1] == out[..i + 1];
    }
  }

  lemma {:induction false} PairedAppend(out: seq<Event>, more: seq<Event>)
    requires Paired(out) && forall i :: 0 <= i < |more| ==> !more[i].ToolInputDone? && !more[i].AgentStep?
    ensures Paired(out + more) && Dones(out + more) == Dones(out)
  {
    PairedStays(out, more);
    if more == [] {
      assert out + more == out;
    } else {
      assert (out + more)[..|out + more| - 1] == out + more[..|more| - 1];
      PairedAppend(out, more[..|more| - 1]);
    }
  }

  lemma PairedStep(out: seq<Event>, id: string, name: string, input: Option<Json>)
    requires Paired(out)
    ensures var after := out + [ToolInputDone(id, name, input), AgentStep(Dones(out) + 1, name)];
            Paired(after) && Dones(after) == Dones(out) + 1
  {
    var done := ToolInputDone(id, name, input);
    var step := AgentStep(Dones(out) + 1, name);
    var after := out + [done, step];
    PairedStays(out, [done, step]);
    assert after[..|out| + 1] == out + [done] && (out + [done])[..|out|] == out;
    assert PairedAt(after, |out|) && PairedAt(after, |out| + 1);
  }

  /** Messages other than the stop of a tool block emit no tool input and no step. */
  lemma EmitsNoStep(parse: string -> Option<Json>, s: State, msg: Message)
    requires msg.Stop? ==> !BlockAt(s, msg.idx).kind.ToolKind?
    ensures var t := StepOn(parse, s, msg);
            && t.step == s.step && s.out <= t.out
            && forall i :: |s.out| <= i < |t.out| ==> !t.out[i].ToolInputDone? && !t.out[i].AgentStep?
  {}

  lemma ToolStopKeepsPaired(parse: string -> Option<Json>, s: State, idx: nat)
    requires Paired(s.out) && s.step == Dones(s.out) && BlockAt(s, idx).kind.ToolKind?
    ensures var t := StepOn(parse, s, Stop(idx)); Paired(t.out) && t.step == Dones(t.out)
  {
    var b := BlockAt(s, idx);
    PairedStep(s.out, b.id, b.name, ParsedInput(parse, Lookup(s.buffers, idx, "")));
  }

  lemma OtherStepKeepsPaired(parse: string -> Option<Json>, s: State, msg: Message)
    requires Paired(s.out) && s.step == Dones(s.out)
    requires msg.Stop? ==> !BlockAt(s, msg.idx).kind.ToolKind?
    ensures var t := StepOn(parse, s, msg); Paired(t.out) && t.step == Dones(t.out)
  {
    var t := StepOn(parse, s, msg);
    EmitsNoStep(parse, s, msg);
    var more := t.out[|s.out|..];
    assert t.out == s.out + more;
    PairedAppend(s.out, more);
  }

  lemma StepOnKeepsPaired(parse: string -> Option<Json>, s: State, msg: Message)
    requires Paired(s.out) && s.step == Dones(s.out)
    ensures var t := StepOn(parse, s, msg); Paired(t.out) && t.step == Dones(t.out)
  {
    if msg.Stop? && BlockAt(s, msg.idx).kind.ToolKind? {
      ToolStopKeepsPaired(parse, s, msg.idx);
    } else {
      OtherStepKeepsPaired(parse, s, msg);
    }
  }

  /** For every message stream whatsoever, steps are numbered 1, 2, 3 and so on, each right after
      the tool input it counts. */
  lemma {:induction false} StepsCountToolInputs(parse: string -> Option<Json>, msgs: seq<Message>)
    ensures Paired(Process(parse, msgs).out)
    ensures Process(parse, msgs).step == Dones(Process(parse, msgs).out)
  {
    if msgs != [] {
      StepsCountToolInputs(parse, msgs[..|msgs| - 1]);
      StepOnKeepsPaired(parse, Process(parse, msgs[..|msgs| - 1]), msgs[|msgs| - 1]);
    } else {
      assert Process(parse, msgs) == INIT;
    }
  }

  // ------------------------------------------------------------------ what each message says

  /** The block that stands open at an index: the last one started there, if it was not stopped since.
      Blocks of other kinds open nothing. */
  function OpenAt(msgs: seq<Message>, idx: nat): Option<Block> {
    if msgs == [] then None
    else
      var before := msgs[..|msgs| - 1];
      match msgs[|msgs| - 1]
      case Start(i, block) => if i == idx && !block.OtherBlock? then Some(block) else OpenAt(before, idx)
      case Stop(i) => if i == idx then None else OpenAt(before, idx)
      case _ => OpenAt(before, idx)
  }

  /** The id what happens at an index goes by: a tool block's own, if it has one. */
  function IdAt(msgs: seq<Message>, idx: nat): string {
    match OpenAt(msgs, idx) case Some(ToolBlock(id, _)) => ToolId(idx, id) case _ => BlockId(idx)
  }

  predicate StopsTool(before: seq<Message>, idx: nat) {
    OpenAt(before, idx).Some? && OpenAt(before, idx).value.ToolBlock?
  }

  /** The input fragments sent at an index since a tool block was last stopped there. */
  function FragmentsAt(msgs: seq<Message>, idx: nat): string {
    if msgs == [] then ""
    else
      var before := msgs[..|msgs| - 1];
      match msgs[|msgs| - 1]
      case DeltaAt(i, InputDelta(f)) => FragmentsAt(before, idx) + if i == idx then f else ""
      case Stop(i) => if i == idx && StopsTool(before, i) then "" else FragmentsAt(before, idx)
      case _ => FragmentsAt(before, idx)
  }

  /** The tool calls a stream has finished, each with the text of its input. */
  function CallsIn(msgs: seq<Message>): seq<Call> {
    if msgs == [] then []
    else
      var before, msg := msgs[..|msgs| - 1], msgs[|msgs| - 1];
      CallsIn(before) +
      if msg.Stop? && StopsTool(before, msg.idx)
      then [Call(IdAt(before, msg.idx), FragmentsAt(before, msg.idx))] else []
  }

  /** The events a message stands for, by the messages before it. */
  function Says(parse: string -> Option<Json>, before: seq<Message>, msg: Message): seq<Event> {
    match msg
    case Start(idx, TextBlock) => [BlockStart(Text, BlockId(idx))]
    case Start(idx, ThinkingBlock) => [BlockStart(Thinking, BlockId(idx))]
    case Start(idx, ToolBlock(id, name)) => [ToolStart(ToolId(idx, id), name)]
    case DeltaAt(idx, TextDelta(text)) => [BlockDelta(Text, IdAt(before, idx), text)]
    case DeltaAt(idx, ThinkingDelta(text)) => [BlockDelta(Thinking, IdAt(before, idx), text)]
    case DeltaAt(idx, InputDelta(f)) => [ToolInputDelta(IdAt(before, idx), f)]
    case Stop(idx) =>
      (match OpenAt(before, idx)
       case Some(ToolBlock(_, name)) =>
         var input := if FragmentsAt(before, idx) == "" then None else parse(FragmentsAt(before, idx));
         [ToolInputDone(IdAt(before, idx), name, input), AgentStep(|CallsIn(before)| + 1, name)]
       case Some(ThinkingBlock) => [BlockStop(Thinking, BlockId(idx))]
       case _ => [BlockStop(Text, BlockId(idx))])
    case ToolResults(results) => ResultEvents(results)
    case Final(sessionId) => [Result("success", sessionId)]
    case _ => []
  }

  /** Everything a stream says, in order. */
  function Said(parse: string -> Option<Json>, msgs: seq<Message>): seq<Event> {
    if msgs == [] then []
    else Said(parse, msgs[..|msgs| - 1]) + Says(parse, msgs[..|msgs| - 1], msgs[|msgs| - 1])
  }

  /** The mapper's table of open blocks at one index, */
  ghost predicate BlocksAt(s: State, msgs: seq<Message>, idx: nat) {
    && (idx in s.blocks <==> OpenAt(msgs, idx).Some?)
    && (idx in s.blocks ==>
          s.blocks[idx] == match OpenAt(msgs, idx).value
                           case ToolBlock(id, name) => OpenBlock(ToolId(idx, id), ToolKind, name)
                           case ThinkingBlock => OpenBlock(BlockId(idx), ThinkingKind, "")
                           case _ => OpenBlock(BlockId(idx), TextKind, ""))
  }

  /** and with it that of the fragments. */
  ghost predicate TablesAt(s: State, msgs: seq<Message>, idx: nat) {
    BlocksAt(s, msgs, idx) && Lookup(s.buffers, idx, "") == FragmentsAt(msgs, idx)
  }

  lemma StepKeepsBlocks(parse: string -> Option<Json>, s: State, before: seq<Message>, msg: Message, idx: nat)
    requires BlocksAt(s, before, idx)
    ensures BlocksAt(StepOn(parse, s, msg), before + [msg], idx)
  {
    assert (before + [msg])[..|before|] == before;
  }

  lemma StepKeepsBuffers(parse: string -> Option<Json>, s: State, before: seq<Message>, msg: Message, idx: nat)
    requires TablesAt(s, before, idx)
    ensures Lookup(StepOn(parse, s, msg).buffers, idx, "") == FragmentsAt(before + [msg], idx)
  {
    assert (before + [msg])[..|before|] == before;
    assert FragmentsAt(before, idx) + "" == FragmentsAt(before, idx);
  }

  lemma StepKeepsTables(parse: string -> Option<Json>, s: State, before: seq<Message>, msg: Message, idx: nat)
    requires TablesAt(s, before, idx)
    ensures TablesAt(StepOn(parse, s, msg), before + [msg], idx)
  {
    StepKeepsBlocks(parse, s, before, msg, idx);
    StepKeepsBuffers(parse, s, before, msg, idx);
  }

  lemma {:induction false} TablesFollow(parse: string -> Option<Json>, msgs: seq<Message>, idx: nat)
    ensures TablesAt(Process(parse, msgs), msgs, idx)
  {
    if msgs == [] {
    } else {
      var before := msgs[..|msgs| - 1];
      TablesFollow(parse, before, idx);
      StepKeepsTables(parse, Process(parse, before), before, msgs[|msgs| - 1], idx);
      assert before + [msgs[|msgs| - 1]] == msgs;
    }
  }

  lemma StepSays(parse: string -> Option<Json>, s: State, before: seq<Message>, msg: Message)
    requires msg.DeltaAt? ==> TablesAt(s, before, msg.idx)
    requires msg.Stop? ==> TablesAt(s, before, msg.idx)
    requires s.step == |CallsIn(before)|
    ensures StepOn(parse, s, msg).out == s.out + Says(parse, before, msg)
  {
    assert s.out + [] == s.out;
  }

  lemma StepCalls(parse: string -> Option<Json>, s: State, before: seq<Message>, msg: Message)
    requires msg.Stop? ==> TablesAt(s, before, msg.idx)
    requires s.calls == CallsIn(before) && s.step == |s.calls|
    ensures var t := StepOn(parse, s, msg); t.calls == CallsIn(before + [msg]) && t.step == |t.calls|
  {
    assert (before + [msg])[..|before|] == before;
  }

  /** For every message stream the engine emits exactly what the messages say, each by what came
      before it, and its calls have the texts that were sent. */
  lemma {:induction false} EmitsWhatIsSaid(parse: string -> Option<Json>, msgs: seq<Message>)
    ensures Process(parse, msgs).out == Said(parse, msgs)
    ensures Process(parse, msgs).calls == CallsIn(msgs) && Process(parse, msgs).step == |CallsIn(msgs)|
  {
    if msgs == [] {
    } else {
      var before, msg := msgs[..|msgs| - 1], msgs[|msgs| - 1];
      EmitsWhatIsSaid(parse, before);
      if msg.DeltaAt? || msg.Stop? {
        TablesFollow(parse, before, msg.idx);
      }
      StepSays(parse, Process(parse, before), before, msg);
      StepCalls(parse, Process(parse, before), before, msg);
      assert before + [msg] == msgs;
    }
  }

  /** Blocks are numbered from b1. */
  lemma BlockIdsAreNumbers(idx: nat)
    ensures BlockId(idx)[0] == 'b' && T.DecValue(BlockId(idx)[1..]) == idx + 1
  {
    assert BlockId(idx)[1..] == T.Dec(idx + 1);
    T.DecRoundTrip(idx + 1);
  }

  lemma BlockIdsDiffer(i: nat, j: nat)
    requires BlockId(i) == BlockId(j)
    ensures i == j
  {
    BlockIdsAreNumbers(i);
    BlockIdsAreNumbers(j);
  }

  /** A tool block goes by its own id, if it brings one. */
  lemma ToolsKeepTheirIds(msgs: seq<Message>, idx: nat, id: string, name: string)
    requires id != "" && OpenAt(msgs, idx) == Some(ToolBlock(id, name))
    ensures IdAt(msgs, idx) == id
  {}

  /** Two open blocks share an id only if a tool block brings the other one's id with it. */
  lemma SharedIdsComeFromTools(msgs: seq<Message>, i: nat, j: nat)
    requires i != j && IdAt(msgs, i) == IdAt(msgs, j)
    ensures StopsTool(msgs, i) || StopsTool(msgs, j)
  {
    if !StopsTool(msgs, i) && !StopsTool(msgs, j) {
      BlockIdsDiffer(i, j);
    }
  }

  // ------------------------------------------------------------------ results, tool results, thoughts

  function ResultOf(e: Event): seq<Event> { if e.Result? then [e] else [] }

  function FinalOf(msg: Message): seq<Event> { if msg.Final? then [Result("success", msg.sessionId)] else [] }

  function HandedIn(msg: Message): seq<(string, string)> { if msg.ToolResults? then msg.results else [] }

  function ThoughtOf(e: Event): string { if e.BlockDelta? && e.lane == Thinking then e.text else "" }

  function ThoughtIn(msg: Message): string {
    if msg.DeltaAt? && msg.delta.ThinkingDelta? then msg.delta.text else ""
  }

  lemma {:induction false} FlatMapOfResults<B>(f: Event -> seq<B>, results: seq<(string, string)>)
    ensures (forall id, r :: f(ToolResult(id, r)) == []) ==> T.FlatMap(f, ResultEvents(results)) == []
  {
    if results == [] {
    } else {
      var n := |results| - 1;
      FlatMapOfResults(f, results[..n]);
      assert ResultEvents(results)[..n] == ResultEvents(results[..n]);
    }
  }

  lemma {:induction false} ResultsOfResults(results: seq<(string, string)>)
    ensures T.FlatMap(ToolResultOf, ResultEvents(results)) == results
  {
    if results == [] {
    } else {
      var n := |results| - 1;
      ResultsOfResults(results[..n]);
      assert ResultEvents(results)[..n] == ResultEvents(results[..n]);
      assert results == results[..n] + [results[n]];
    }
  }

  lemma FlatMapShort<B>(f: Event -> seq<B>, a: Event, b: Event)
    ensures T.FlatMap(f, [a]) == f(a) && T.FlatMap(f, [a, b]) == f(a) + f(b)
  {
    assert [a][..0] == [] && [a, b][..1] == [a];
    assert T.FlatMap(f, []) + f(a) == f(a);
  }

  /** A message that is not a list of tool results says at most two events. */
  lemma FewAreSaid<B>(parse: string -> Option<Json>, f: Event -> seq<B>, before: seq<Message>, msg: Message)
    requires !msg.ToolResults?
    ensures var said := Says(parse, before, msg);
            && |said| <= 2
            && T.FlatMap(f, said) ==
                 if said == [] then [] else if |said| == 1 then f(said[0]) else f(said[0]) + f(said[1])
  {
    var said := Says(parse, before, msg);
    if |said| == 1 {
      FlatMapShort(f, said[0], said[0]);
      assert said == [said[0]];
    } else if |said| == 2 {
      FlatMapShort(f, said[0], said[1]);
      assert said == [said[0], said[1]];
    }
  }

  lemma CarriesResults(parse: string -> Option<Json>, before: seq<Message>, msg: Message)
    ensures T.FlatMap(ResultOf, Says(parse, before, msg)) == FinalOf(msg)
  {
    if msg.ToolResults? {
      FlatMapOfResults(ResultOf, msg.results);
    } else {
      FewAreSaid(parse, ResultOf, before, msg);
    }
  }

  lemma CarriesToolResults(parse: string -> Option<Json>, before: seq<Message>, msg: Message)
    ensures T.FlatMap(ToolResultOf, Says(parse, before, msg)) == HandedIn(msg)
  {
    if msg.ToolResults? {
      ResultsOfResults(msg.results);
    } else {
      FewAreSaid(parse, ToolResultOf, before, msg);
    }
  }

  lemma CarriesThoughts(parse: string -> Option<Json>, before: seq<Message>, msg: Message)
    ensures T.FlatMap(ThoughtOf, Says(parse, before, msg)) == ThoughtIn(msg)
  {
    if msg.ToolResults? {
      FlatMapOfResults(ThoughtOf, msg.results);
    } else {
      FewAreSaid(parse, ThoughtOf, before, msg);
    }
  }

  lemma {:induction false} ResultsSaid(parse: string -> Option<Json>, msgs: seq<Message>)
    ensures T.FlatMap(ResultOf, Said(parse, msgs)) == T.FlatMap(FinalOf, msgs)
  {
    if msgs == [] {
    } else {
      var before, msg := msgs[..|msgs| - 1], msgs[|msgs| - 1];
      ResultsSaid(parse, before);
      T.FlatMapAppend(ResultOf, Said(parse, before), Says(parse, before, msg));
      CarriesResults(parse, before, msg);
    }
  }

  /** The results a stream ends in are reported as successes, with their session ids, in order, and
      nothing else is reported as a result. */
  lemma ResultsAreTheFinals(parse: string -> Option<Json>, msgs: seq<Message>)
    ensures T.FlatMap(ResultOf, Process(parse, msgs).out) == T.FlatMap(FinalOf, msgs)
  {
    EmitsWhatIsSaid(parse, msgs);
    ResultsSaid(parse, msgs);
  }

  lemma {:induction false} ToolResultsSaid(parse: string -> Option<Json>, msgs: seq<Message>)
    ensures T.FlatMap(ToolResultOf, Said(parse, msgs)) == T.FlatMap(HandedIn, msgs)
  {
    if msgs == [] {
    } else {
      var before, msg := msgs[..|msgs| - 1], msgs[|msgs| - 1];
      ToolResultsSaid(parse, before);
      T.FlatMapAppend(ToolResultOf, Said(parse, before), Says(parse, before, msg));
      CarriesToolResults(parse, before, msg);
    }
  }

  /** The tool results handed in are handed on, each under its tool's id, in order. */
  lemma ToolResultsAreHandedOn(parse: string -> Option<Json>, msgs: seq<Message>)
    ensures T.FlatMap(ToolResultOf, Process(parse, msgs).out) == T.FlatMap(HandedIn, msgs)
  {
    EmitsWhatIsSaid(parse, msgs);
    ToolResultsSaid(parse, msgs);
  }

  lemma {:induction false} ThoughtsSaid(parse: string -> Option<Json>, msgs: seq<Message>)
    ensures T.FlatMap(ThoughtOf, Said(parse, msgs)) == T.FlatMap(ThoughtIn, msgs)
  {
    if msgs == [] {
    } else {
      var before, msg := msgs[..|msgs| - 1], msgs[|msgs| - 1];
      ThoughtsSaid(parse, before);
      T.FlatMapAppend(ThoughtOf, Said(parse, before), Says(parse, before, msg));
      CarriesThoughts(parse, before, msg);
    }
  }

  /** The thinking that is streamed is the thinking sent. */
  lemma ThoughtsAreHandedOn(parse: string -> Option<Json>, msgs: seq<Message>)
    ensures T.FlatMap(ThoughtOf, Process(parse, msgs).out) == T.FlatMap(ThoughtIn, msgs)
  {
    EmitsWhatIsSaid(parse, msgs);
    ThoughtsSaid(parse, msgs);
  }

  function FinalId(msg: Message): seq<string> { if msg.Final? then [msg.sessionId] else [] }

  function Last<A>(s: seq<A>): Option<A> { if s == [] then None else Some(s[|s| - 1]) }

  lemma StepSession(parse: string -> Option<Json>, s: State, msg: Message)
    ensures StepOn(parse, s, msg).session == if msg.Final? then Some(msg.sessionId) else s.session
  {}

  /** The session the mapper returns is that of the last final message. */
  lemma {:induction false} SessionIsTheLastFinal(parse: string -> Option<Json>, msgs: seq<Message>)
    ensures Process(parse, msgs).session == Last(T.FlatMap(FinalId, msgs))
  {
    if msgs == [] {
    } else {
      var before, msg := msgs[..|msgs| - 1], msgs[|msgs| - 1];
      SessionIsTheLastFinal(parse, before);
      StepSession(parse, Process(parse, before), msg);
      assert T.FlatMap(FinalId, before) + [] == T.FlatMap(FinalId, before);
    }
  }

  // ------------------------------------------------------------------ the mapper, in place

  class Mapper {
    const parse: string -> Option<Json>
    var blocks: map<nat, OpenBlock>
    var buffers: map<nat, string>
    var step: nat
    var session: Option<string>
    var out: seq<Event>
    ghost var calls: seq<Call>

    ghost function Abs(): State
      reads this
    {
      State(blocks, buffers, step, session, out, calls)
    }

    constructor (parse: string -> Option<Json>)
      ensures this.parse == parse && Abs() == INIT
    {
      this.parse := parse;
      blocks, buffers, step, session, out, calls := map[], map[], 0, None, [], [];
    }

    method OnStart(idx: nat, block: Block)
      modifies this`blocks, this`out
      ensures Abs() == StepOn(parse, old(Abs()), Start(idx, block))
    {
      match block
      case TextBlock =>
        blocks := blocks[idx := OpenBlock(BlockId(idx), TextKind, "")];
        out := out + [BlockStart(Text, BlockId(idx))];
      case ThinkingBlock =>
        blocks := blocks[idx := OpenBlock(BlockId(idx), ThinkingKind, "")];
        out := out + [BlockStart(Thinking, BlockId(idx))];
      case ToolBlock(id, name) =>
        blocks := blocks[idx := OpenBlock(ToolId(idx, id), ToolKind, name)];
        out := out + [ToolStart(ToolId(idx, id), name)];
      case OtherBlock =>
    }

    method OnDelta(idx: nat, delta: Delta)
      modifies this`buffers, this`out
      ensures Abs() == StepOn(parse, old(Abs()), DeltaAt(idx, delta))
    {
      var b := Lookup(blocks, idx, OpenBlock(BlockId(idx), TextKind, ""));
      match delta
      case TextDelta(t) => out := out + [BlockDelta(Text, b.id, t)];
      case ThinkingDelta(t) => out := out + [BlockDelta(Thinking, b.id, t)];
      case InputDelta(f) =>
        buffers := buffers[idx := Lookup(buffers, idx, "") + f];
        out := out + [ToolInputDelta(b.id, f)];
      case OtherDelta =>
    }

    method OnStop(idx: nat)
      modifies this
      ensures Abs() == StepOn(parse, old(Abs()), Stop(idx))
    {
      var b := Lookup(blocks, idx, OpenBlock(BlockId(idx), TextKind, ""));
      blocks := blocks - {idx};
      match b.kind
      case TextKind => out := out + [BlockStop(Text, b.id)];
      case ThinkingKind => out := out + [BlockStop(Thinking, b.id)];
      case ToolKind =>
        var raw := Lookup(buffers, idx, "");
        buffers := buffers - {idx};
        calls := calls + [Call(b.id, raw)];
        var input := None;
        if raw != "" {
          input := parse(raw);
        }
        step := step + 1;
        out := out + [ToolInputDone(b.id, b.name, input), AgentStep(step, b.name)];
    }

    method ProcessMessages(msgs: seq<Message>)
      requires Abs() == INIT
      modifies this
      ensures Abs() == Process(parse, msgs)
    {
      for i := 0 to |msgs|
        invariant Abs() == Process(parse, msgs[..i])
      {
        assert msgs[..i + 1][..i] == msgs[..i];
        match msgs[i]
        case SubAgent =>
        case Start(idx, block) => OnStart(idx, block);
        case DeltaAt(idx, delta) => OnDelta(idx, delta);
        case Stop(idx) => OnStop(idx);
        case ToolResults(results) => out := out + ResultEvents(results);
        case Final(sessionId) =>
          session := Some(sessionId);
          out := out + [Result("success", sessionId)];
        case Ignored =>
      }
      assert msgs[..|msgs|] == msgs;
    }
  }
}
