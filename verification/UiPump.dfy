/** The translation of protocol events into UI message parts (chat/go-sse-to-ui.ts). */
module UiPump {
  import T = Text
  import opened Protocol
  import opened Wrappers

  datatype Part =
    | PartStart(lane: Lane, id: string)
    | PartDelta(lane: Lane, id: string, delta: string)
    | PartEnd(lane: Lane, id: string)
    | ToolInputStart(id: string, name: string)
    | ToolInputText(id: string, delta: string)
    | ToolInputAvailable(id: string, name: string, input: Json)
    | ToolOutputAvailable(id: string, output: string)
    | DataConversation(id: string)
    | ErrorPart(text: string)

  /** `live` holds the text and reasoning parts now open; `calls` records what each
      tool.input_done was parsed from, in order. */
  datatype State = State(live: set<(Lane, string)>, toolNames: map<string, string>,
                         buffers: map<string, string>, out: seq<Part>, calls: seq<Call>)

  const INIT := State({}, map[], map[], [], [])

  const EMPTY_OBJECT := Json("{}")

  function Named(name: string, default: string): string { if name == "" then default else name }

  function Open(s: State, lane: Lane, id: string): State {
    if (lane, id) in s.live then s
    else s.(live := s.live + {(lane, id)}, out := s.out + [PartStart(lane, id)])
  }

  function Handle(parse: string -> Option<Json>, s: State, ev: Event): State {
    match ev
    case BlockStart(lane, id) => Open(s, lane, id)
    case BlockDelta(lane, id, text) =>
      var t := Open(s, lane, id);
      t.(out := t.out + [PartDelta(lane, id, text)])
    case BlockStop(lane, id) =>
      if (lane, id) in s.live then s.(live := s.live - {(lane, id)}, out := s.out + [PartEnd(lane, id)]) else s
    case ToolStart(id, name) =>
      var n := Named(name, "tool");
      s.(toolNames := s.toolNames[id := n], buffers := s.buffers[id := ""], out := s.out + [ToolInputStart(id, n)])
    case ToolInputDelta(id, json) =>
      s.(buffers := s.buffers[id := Lookup(s.buffers, id, "") + json], out := s.out + [ToolInputText(id, json)])
    case ToolInputDone(id, name, _) =>
      var raw := Lookup(s.buffers, id, "{}");
      var input := match parse(raw) case Some(v) => v case None => EMPTY_OBJECT;
      s.(buffers := s.buffers - {id}, calls := s.calls + [Call(id, raw)],
         out := s.out + [ToolInputAvailable(id, Named(name, Lookup(s.toolNames, id, "tool")), input)])
    case ToolResult(id, result) =>
      s.(toolNames := s.toolNames - {id}, out := s.out + [ToolOutputAvailable(id, result)])
    case Conversation(id) => s.(out := s.out + [DataConversation(id)])
    case Error(message) => s.(out := s.out + [ErrorPart(Named(message, "stream error"))])
    case AgentStep(_, _) => s
    case Result(_, _) => s
  }

  function Pump(parse: string -> Option<Json>, evs: seq<Event>): State {
    if evs == [] then INIT else Handle(parse, Pump(parse, evs[..|evs| - 1]), evs[|evs| - 1])
  }

  // ------------------------------------------------------------------ one lane of one id

  datatype Op = Start | Delta(text: string) | End

  /** What an event, and what a part, is to one lane of one id. */
  function OpOf(ev: Event, lane: Lane, id: string): seq<Op> {
    match ev
    case BlockStart(l, i) => if l == lane && i == id then [Start] else []
    case BlockDelta(l, i, t) => if l == lane && i == id then [Delta(t)] else []
    case BlockStop(l, i) => if l == lane && i == id then [End] else []
    case _ => []
  }

  function PartOp(p: Part, lane: Lane, id: string): seq<Op> {
    match p
    case PartStart(l, i) => if l == lane && i == id then [Start] else []
    case PartDelta(l, i, t) => if l == lane && i == id then [Delta(t)] else []
    case PartEnd(l, i) => if l == lane && i == id then [End] else []
    case _ => []
  }

  function InOps(evs: seq<Event>, lane: Lane, id: string): seq<Op> {
    if evs == [] then [] else InOps(evs[..|evs| - 1], lane, id) + OpOf(evs[|evs| - 1], lane, id)
  }

  function OutOps(out: seq<Part>, lane: Lane, id: string): seq<Op> {
    if out == [] then [] else OutOps(out[..|out| - 1], lane, id) + PartOp(out[|out| - 1], lane, id)
  }

  predicate OpenAfter(ops: seq<Op>) { ops != [] && !ops[|ops| - 1].End? }

  /** Start, deltas, end, and then possibly all over again: nothing while closed, no second start. */
  ghost predicate WellFormed(ops: seq<Op>) {
    forall i :: 0 <= i < |ops| ==> (ops[i].Start? <==> !OpenAfter(ops[..i]))
  }

  function TextOf(ops: seq<Op>): string {
    if ops == [] then ""
    else TextOf(ops[..|ops| - 1]) + match ops[|ops| - 1] case Delta(t) => t case _ => ""
  }

  function RepairOne(open: bool, op: Op): seq<Op> {
    match op
    case Start => if open then [] else [Start]
    case Delta(t) => if open then [Delta(t)] else [Start, Delta(t)]
    case End => if open then [End] else []
  }

  /** What the pump makes of the operations of one id, whatever happens to other ids. */
  function Repair(ops: seq<Op>): seq<Op> {
    if ops == [] then []
    else Repair(ops[..|ops| - 1]) + RepairOne(OpenAfter(ops[..|ops| - 1]), ops[|ops| - 1])
  }

  lemma OutOpsSnoc(out: seq<Part>, p: Part, lane: Lane, id: string)
    ensures OutOps(out + [p], lane, id) == OutOps(out, lane, id) + PartOp(p, lane, id)
  {
    assert (out + [p])[..|out|] == out;
  }

  lemma OpenOps(s: State, l: Lane, i: string, lane: Lane, id: string)
    ensures OutOps(Open(s, l, i).out, lane, id) == OutOps(s.out, lane, id) +
              (if l == lane && i == id && (lane, id) !in s.live then [Start] else [])
    ensures (lane, id) in Open(s, l, i).live <==> (lane, id) in s.live || (l == lane && i == id)
  {
    OutOpsSnoc(s.out, PartStart(l, i), lane, id);
  }

  lemma DeltaOps(s: State, l: Lane, i: string, text: string, lane: Lane, id: string)
    ensures OutOps(Open(s, l, i).out + [PartDelta(l, i, text)], lane, id) == OutOps(s.out, lane, id) +
              (if l == lane && i == id then RepairOne((lane, id) in s.live, Delta(text)) else [])
    ensures (lane, id) in Open(s, l, i).live <==> (lane, id) in s.live || (l == lane && i == id)
  {
    var before := OutOps(s.out, lane, id);
    OpenOps(s, l, i, lane, id);
    OutOpsSnoc(Open(s, l, i).out, PartDelta(l, i, text), lane, id);
    assert before + [Start] + [Delta(text)] == before + [Start, Delta(text)];
    assert before + [] + [Delta(text)] == before + [Delta(text)] && before + [] + [] == before + [];
  }

  lemma OtherPartsHaveNoOp(p: Part, lane: Lane, id: string)
    requires !p.PartStart? && !p.PartDelta? && !p.PartEnd?
    ensures PartOp(p, lane, id) == []
  {}

  lemma OtherEventsWriteOnePart(parse: string -> Option<Json>, s: State, ev: Event)
    requires !ev.BlockStart? && !ev.BlockDelta? && !ev.BlockStop? && !ev.AgentStep? && !ev.Result?
    ensures var t := Handle(parse, s, ev);
            && |t.out| == |s.out| + 1 && t.out == s.out + [t.out[|s.out|]] && t.live == s.live
            && !t.out[|s.out|].PartStart? && !t.out[|s.out|].PartDelta? && !t.out[|s.out|].PartEnd?
  {}

  /** Other events write at most one part, and none of any lane. */
  lemma HandleToolEvent(parse: string -> Option<Json>, s: State, ev: Event, lane: Lane, id: string)
    requires !ev.BlockStart? && !ev.BlockDelta? && !ev.BlockStop?
    ensures var t := Handle(parse, s, ev);
            OutOps(t.out, lane, id) == OutOps(s.out, lane, id) && t.live == s.live
  {
    var t := Handle(parse, s, ev);
    if ev.AgentStep? || ev.Result? {
    } else {
      OtherEventsWriteOnePart(parse, s, ev);
      OutOpsSnoc(s.out, t.out[|s.out|], lane, id);
      OtherPartsHaveNoOp(t.out[|s.out|], lane, id);
    }
  }

  lemma StopOps(s: State, l: Lane, i: string, lane: Lane, id: string)
    ensures OutOps(s.out + [PartEnd(l, i)], lane, id) ==
              OutOps(s.out, lane, id) + if l == lane && i == id then [End] else []
  {
    OutOpsSnoc(s.out, PartEnd(l, i), lane, id);
  }

  lemma HandleOneEvent(parse: string -> Option<Json>, s: State, ev: Event, lane: Lane, id: string)
    ensures var t := Handle(parse, s, ev); var op := OpOf(ev, lane, id);
            && OutOps(t.out, lane, id) == OutOps(s.out, lane, id) +
                 (if op == [] then [] else RepairOne((lane, id) in s.live, op[0]))
            && ((lane, id) in t.live <==> if op == [] then (lane, id) in s.live else !op[0].End?)
  {
    if ev.BlockStart? {
      OpenOps(s, ev.lane, ev.id, lane, id);
    } else if ev.BlockDelta? {
      DeltaOps(s, ev.lane, ev.id, ev.text, lane, id);
    } else if ev.BlockStop? {
      StopOps(s, ev.lane, ev.id, lane, id);
    } else {
      HandleToolEvent(parse, s, ev, lane, id);
    }
  }

  lemma RepairNext(before: seq<Op>, more: seq<Op>)
    requires |more| <= 1
    ensures Repair(before + more) ==
              Repair(before) + if more == [] then [] else RepairOne(OpenAfter(before), more[0])
    ensures OpenAfter(before + more) == if more == [] then OpenAfter(before) else !more[0].End?
  {
    if more == [] {
      assert before + more == before;
      assert Repair(before) + [] == Repair(before);
    } else {
      assert (before + more)[..|before|] == before;
    }
  }

  lemma LaneGrows(after: seq<Op>, ops: seq<Op>, more: seq<Op>, open: bool)
    requires |more| <= 1 && open == OpenAfter(ops)
    requires after == Repair(ops) + if more == [] then [] else RepairOne(open, more[0])
    ensures after == Repair(ops + more)
    ensures OpenAfter(ops + more) == if more == [] then open else !more[0].End?
  {
    RepairNext(ops, more);
  }

  /** A state whose lane is the repair of some operations, after one more event. */
  lemma LaneStep(parse: string -> Option<Json>, s: State, ev: Event, ops: seq<Op>, lane: Lane, id: string)
    requires OutOps(s.out, lane, id) == Repair(ops) && ((lane, id) in s.live <==> OpenAfter(ops))
    ensures var t, more := Handle(parse, s, ev), ops + OpOf(ev, lane, id);
            OutOps(t.out, lane, id) == Repair(more) && ((lane, id) in t.live <==> OpenAfter(more))
  {
    HandleOneEvent(parse, s, ev, lane, id);
    LaneGrows(OutOps(Handle(parse, s, ev).out, lane, id), ops, OpOf(ev, lane, id), (lane, id) in s.live);
  }

  /** Lanes do not interfere: the parts of an id are the repair of its own events. */
  lemma {:induction false} LaneIsRepaired(parse: string -> Option<Json>, evs: seq<Event>, lane: Lane, id: string)
    ensures OutOps(Pump(parse, evs).out, lane, id) == Repair(InOps(evs, lane, id))
    ensures (lane, id) in Pump(parse, evs).live <==> OpenAfter(InOps(evs, lane, id))
  {
    if evs == [] {
    } else {
      var n := |evs| - 1;
      LaneIsRepaired(parse, evs[..n], lane, id);
      LaneStep(parse, Pump(parse, evs[..n]), evs[n], InOps(evs[..n], lane, id), lane, id);
    }
  }

  lemma WellFormedSnoc(ops: seq<Op>, op: Op)
    requires WellFormed(ops) && (op.Start? <==> !OpenAfter(ops))
    ensures WellFormed(ops + [op])
  {
    var more := ops + [op];
    forall i | 0 <= i < |more| ensures more[i].Start? <==> !OpenAfter(more[..i]) {
      if i < |ops| {
        assert more[..i] == ops[..i];
      } else {
        assert more[..i] == ops;
      }
    }
  }

  lemma RepairOneKeepsForm(before: seq<Op>, op: Op)
    requires WellFormed(before)
    ensures var after := before + RepairOne(OpenAfter(before), op);
            WellFormed(after) && (OpenAfter(after) <==> !op.End?)
  {
    var more := RepairOne(OpenAfter(before), op);
    if |more| == 1 {
      WellFormedSnoc(before, more[0]);
    } else if |more| == 2 {
      WellFormedSnoc(before, Start);
      WellFormedSnoc(before + [Start], op);
      assert before + [Start] + [op] == before + more;
    } else {
      assert before + more == before;
    }
  }

  lemma {:induction false} RepairIsWellFormed(ops: seq<Op>)
    ensures WellFormed(Repair(ops)) && OpenAfter(Repair(ops)) == OpenAfter(ops)
  {
    if ops == [] {
    } else {
      RepairIsWellFormed(ops[..|ops| - 1]);
      RepairOneKeepsForm(Repair(ops[..|ops| - 1]), ops[|ops| - 1]);
    }
  }

  lemma {:induction false} TextAppend(a: seq<Op>, b: seq<Op>)
    ensures TextOf(a + b) == TextOf(a) + TextOf(b)
  {
    if b == [] {
      assert a + b == a;
    } else {
      var n := |b| - 1;
      var last := match b[n] case Delta(t) => t case _ => "";
      assert (a + b)[..|a + b| - 1] == a + b[..n];
      TextAppend(a, b[..n]);
      assert TextOf(a) + TextOf(b[..n]) + last == TextOf(a) + (TextOf(b[..n]) + last);
    }
  }

  lemma TextOfRepairOne(open: bool, op: Op)
    ensures TextOf(RepairOne(open, op)) == match op case Delta(t) => t case _ => ""
  {
    var more := RepairOne(open, op);
    if |more| == 1 {
      assert more[..0] == [];
    } else if |more| == 2 {
      assert more[..1] == [Start] && [Start][..0] == [];
    }
  }

  lemma {:induction false} RepairKeepsText(ops: seq<Op>)
    ensures TextOf(Repair(ops)) == TextOf(ops)
  {
    if ops == [] {
    } else {
      var n := |ops| - 1;
      RepairKeepsText(ops[..n]);
      var more := RepairOne(OpenAfter(ops[..n]), ops[n]);
      TextAppend(Repair(ops[..n]), more);
      TextOfRepairOne(OpenAfter(ops[..n]), ops[n]);
    }
  }

  lemma WellFormedPrefix(ops: seq<Op>, n: nat)
    requires n <= |ops| && WellFormed(ops)
    ensures WellFormed(ops[..n])
  {
    forall i | 0 <= i < n ensures ops[..n][i].Start? <==> !OpenAfter(ops[..n][..i]) {
      assert ops[..n][..i] == ops[..i] && ops[i] == ops[..n][i];
    }
  }

  lemma WellFormedAt(ops: seq<Op>, i: nat)
    requires WellFormed(ops) && i < |ops|
    ensures ops[i].Start? <==> !OpenAfter(ops[..i])
  {}

  lemma RepairOneOfFitting(open: bool, op: Op)
    requires op.Start? <==> !open
    ensures RepairOne(open, op) == [op]
  {}

  lemma {:induction false} RepairOfWellFormed(ops: seq<Op>)
    requires WellFormed(ops)
    ensures Repair(ops) == ops
  {
    if ops == [] {
    } else {
      var n := |ops| - 1;
      WellFormedPrefix(ops, n);
      RepairOfWellFormed(ops[..n]);
      WellFormedAt(ops, n);
      RepairOneOfFitting(OpenAfter(ops[..n]), ops[n]);
      assert ops[..n] + [ops[n]] == ops;
    }
  }

  /** For every event sequence whatsoever, each UI lane is well formed, carries exactly the text
      of its events, and repeats them one to one when they were well formed already. */
  lemma EveryLaneIsWellFormed(parse: string -> Option<Json>, evs: seq<Event>, lane: Lane, id: string)
    ensures var parts := OutOps(Pump(parse, evs).out, lane, id);
            && WellFormed(parts)
            && TextOf(parts) == TextOf(InOps(evs, lane, id))
            && (WellFormed(InOps(evs, lane, id)) ==> parts == InOps(evs, lane, id))
  {
    var ops := InOps(evs, lane, id);
    LaneIsRepaired(parse, evs, lane, id);
    RepairIsWellFormed(ops);
    RepairKeepsText(ops);
    if WellFormed(ops) {
      RepairOfWellFormed(ops);
    }
  }

  // ------------------------------------------------------------------ what each event shows

  /** The name a tool goes by: that of its last start, until its result has come. */
  function NameBefore(evs: seq<Event>, id: string): string {
    if evs == [] then "tool"
    else
      var before := evs[..|evs| - 1];
      match evs[|evs| - 1]
      case ToolStart(i, name) => if i == id then Named(name, "tool") else NameBefore(before, id)
      case ToolResult(i, _) => if i == id then "tool" else NameBefore(before, id)
      case _ => NameBefore(before, id)
  }

  /** The input text of a tool: what came for it since it was started or finished. */
  function TextBefore(evs: seq<Event>, id: string): Option<string> {
    if evs == [] then None
    else
      var before := TextBefore(evs[..|evs| - 1], id);
      match evs[|evs| - 1]
      case ToolStart(i, _) => if i == id then Some("") else before
      case ToolInputDelta(i, json) =>
        if i == id then Some((if before.Some? then before.value else "") + json) else before
      case ToolInputDone(i, _, _) => if i == id then None else before
      case _ => before
  }

  /** The text a finished input is read from; one nothing came for counts as {}. */
  function InputText(evs: seq<Event>, id: string): string {
    if TextBefore(evs, id).Some? then TextBefore(evs, id).value else "{}"
  }

  /** The parts an event stands for, by the events before it. */
  function Shows(parse: string -> Option<Json>, before: seq<Event>, ev: Event): seq<Part> {
    match ev
    case BlockStart(lane, id) => if OpenAfter(InOps(before, lane, id)) then [] else [PartStart(lane, id)]
    case BlockDelta(lane, id, text) =>
      if OpenAfter(InOps(before, lane, id)) then [PartDelta(lane, id, text)]
      else [PartStart(lane, id), PartDelta(lane, id, text)]
    case BlockStop(lane, id) => if OpenAfter(InOps(before, lane, id)) then [PartEnd(lane, id)] else []
    case ToolStart(id, name) => [ToolInputStart(id, if name == "" then "tool" else name)]
    case ToolInputDelta(id, json) => [ToolInputText(id, json)]
    case ToolInputDone(id, name, _) =>
      var shown := if name == "" then NameBefore(before, id) else name;
      var input := parse(InputText(before, id));
      [ToolInputAvailable(id, shown, if input.Some? then input.value else Json("{}"))]
    case ToolResult(id, result) => [ToolOutputAvailable(id, result)]
    case Conversation(id) => [DataConversation(id)]
    case Error(message) => [ErrorPart(if message == "" then "stream error" else message)]
    case _ => []
  }

  function ShownBy(parse: string -> Option<Json>, evs: seq<Event>): seq<Part> {
    if evs == [] then []
    else ShownBy(parse, evs[..|evs| - 1]) + Shows(parse, evs[..|evs| - 1], evs[|evs| - 1])
  }

  ghost predicate HoldsText(s: State, evs: seq<Event>, id: string) {
    && (id in s.buffers <==> TextBefore(evs, id).Some?)
    && (id in s.buffers ==> s.buffers[id] == TextBefore(evs, id).value)
  }

  /** The pump's two tables at one tool id. */
  ghost predicate TablesAt(s: State, evs: seq<Event>, id: string) {
    Lookup(s.toolNames, id, "tool") == NameBefore(evs, id) && HoldsText(s, evs, id)
  }

  lemma HandleKeepsNames(parse: string -> Option<Json>, s: State, before: seq<Event>, ev: Event, id: string)
    requires Lookup(s.toolNames, id, "tool") == NameBefore(before, id)
    ensures Lookup(Handle(parse, s, ev).toolNames, id, "tool") == NameBefore(before + [ev], id)
  {
    assert (before + [ev])[..|before|] == before;
  }

  lemma HandleKeepsTexts(parse: string -> Option<Json>, s: State, before: seq<Event>, ev: Event, id: string)
    requires HoldsText(s, before, id)
    ensures HoldsText(Handle(parse, s, ev), before + [ev], id)
  {
    assert (before + [ev])[..|before|] == before;
  }

  lemma HandleKeepsTables(parse: string -> Option<Json>, s: State, before: seq<Event>, ev: Event, id: string)
    requires TablesAt(s, before, id)
    ensures TablesAt(Handle(parse, s, ev), before + [ev], id)
  {
    HandleKeepsNames(parse, s, before, ev, id);
    HandleKeepsTexts(parse, s, before, ev, id);
  }

  lemma {:induction false} TablesFollow(parse: string -> Option<Json>, evs: seq<Event>, id: string)
    ensures TablesAt(Pump(parse, evs), evs, id)
  {
    if evs == [] {
    } else {
      var before := evs[..|evs| - 1];
      TablesFollow(parse, before, id);
      HandleKeepsTables(parse, Pump(parse, before), before, evs[|evs| - 1], id);
      assert before + [evs[|evs| - 1]] == evs;
    }
  }

  lemma BlockShows(parse: string -> Option<Json>, s: State, before: seq<Event>, ev: Event)
    requires ev.BlockStart? || ev.BlockDelta? || ev.BlockStop?
    requires (ev.lane, ev.id) in s.live <==> OpenAfter(InOps(before, ev.lane, ev.id))
    ensures Handle(parse, s, ev).out == s.out + Shows(parse, before, ev)
  {
    assert s.out + [] == s.out;
    if ev.BlockDelta? {
      var start, delta := PartStart(ev.lane, ev.id), PartDelta(ev.lane, ev.id, ev.text);
      assert s.out + [start] + [delta] == s.out + [start, delta];
    }
  }

  lemma OtherShows(parse: string -> Option<Json>, s: State, before: seq<Event>, ev: Event)
    requires !ev.BlockStart? && !ev.BlockDelta? && !ev.BlockStop?
    requires ev.ToolInputDone? ==> TablesAt(s, before, ev.id)
    ensures Handle(parse, s, ev).out == s.out + Shows(parse, before, ev)
  {
    assert s.out + [] == s.out;
  }

  /** For every event sequence the pump writes exactly what the events show, each by what came before
      it: in the lanes, of the tools, and the rest. */
  lemma {:induction false} WritesWhatIsShown(parse: string -> Option<Json>, evs: seq<Event>)
    ensures Pump(parse, evs).out == ShownBy(parse, evs)
  {
    if evs == [] {
    } else {
      var before, ev := evs[..|evs| - 1], evs[|evs| - 1];
      WritesWhatIsShown(parse, before);
      if ev.BlockStart? || ev.BlockDelta? || ev.BlockStop? {
        LaneIsRepaired(parse, before, ev.lane, ev.id);
        BlockShows(parse, Pump(parse, before), before, ev);
      } else {
        if ev.ToolInputDone? {
          TablesFollow(parse, before, ev.id);
        }
        OtherShows(parse, Pump(parse, before), before, ev);
      }
    }
  }

  /** The parts that are neither of a lane nor a finished input, and the events they stand for. */
  function PlainPart(p: Part): seq<Part> {
    if p.PartStart? || p.PartDelta? || p.PartEnd? || p.ToolInputAvailable? then [] else [p]
  }

  function PlainOf(ev: Event): seq<Part> {
    match ev
    case ToolStart(id, name) => [ToolInputStart(id, if name == "" then "tool" else name)]
    case ToolInputDelta(id, json) => [ToolInputText(id, json)]
    case ToolResult(id, result) => [ToolOutputAvailable(id, result)]
    case Conversation(id) => [DataConversation(id)]
    case Error(message) => [ErrorPart(if message == "" then "stream error" else message)]
    case _ => []
  }

  function OutputOf(p: Part): seq<(string, string)> { if p.ToolOutputAvailable? then [(p.id, p.output)] else [] }

  lemma FlatMapShort<B>(f: Part -> seq<B>, a: Part, b: Part)
    ensures T.FlatMap(f, [a]) == f(a) && T.FlatMap(f, [a, b]) == f(a) + f(b)
  {
    assert [a][..0] == [] && [a, b][..1] == [a];
    assert T.FlatMap(f, []) + f(a) == f(a);
  }

  lemma FewAreShown<B>(parse: string -> Option<Json>, f: Part -> seq<B>, before: seq<Event>, ev: Event)
    ensures var shown := Shows(parse, before, ev);
            && |shown| <= 2
            && T.FlatMap(f, shown) ==
                 if shown == [] then [] else if |shown| == 1 then f(shown[0]) else f(shown[0]) + f(shown[1])
  {
    var shown := Shows(parse, before, ev);
    if |shown| == 1 {
      FlatMapShort(f, shown[0], shown[0]);
      assert shown == [shown[0]];
    } else if |shown| == 2 {
      FlatMapShort(f, shown[0], shown[1]);
      assert shown == [shown[0], shown[1]];
    }
  }

  /** Blocks show parts of their lanes only, */
  lemma BlocksShowNothingElse(parse: string -> Option<Json>, before: seq<Event>, ev: Event)
    requires ev.BlockStart? || ev.BlockDelta? || ev.BlockStop?
    ensures T.FlatMap(PlainPart, Shows(parse, before, ev)) == [] && T.FlatMap(OutputOf, Shows(parse, before, ev)) == []
  {
    FewAreShown(parse, PlainPart, before, ev);
    FewAreShown(parse, OutputOf, before, ev);
  }

  /** other events at most one part. */
  lemma OthersShowOnePart<B>(parse: string -> Option<Json>, f: Part -> seq<B>, before: seq<Event>, ev: Event)
    requires !ev.BlockStart? && !ev.BlockDelta? && !ev.BlockStop?
    ensures var shown := Shows(parse, before, ev);
            |shown| <= 1 && T.FlatMap(f, shown) == if shown == [] then [] else f(shown[0])
  {
    FewAreShown(parse, f, before, ev);
  }

  lemma PlainOfOne(parse: string -> Option<Json>, before: seq<Event>, ev: Event)
    ensures T.FlatMap(PlainPart, Shows(parse, before, ev)) == PlainOf(ev)
  {
    if ev.BlockStart? || ev.BlockDelta? || ev.BlockStop? {
      BlocksShowNothingElse(parse, before, ev);
    } else {
      OthersShowOnePart(parse, PlainPart, before, ev);
    }
  }

  lemma OutputsOfOne(parse: string -> Option<Json>, before: seq<Event>, ev: Event)
    ensures T.FlatMap(OutputOf, Shows(parse, before, ev)) == ToolResultOf(ev)
  {
    if ev.BlockStart? || ev.BlockDelta? || ev.BlockStop? {
      BlocksShowNothingElse(parse, before, ev);
    } else {
      OthersShowOnePart(parse, OutputOf, before, ev);
    }
  }

  lemma {:induction false} PlainShown(parse: string -> Option<Json>, evs: seq<Event>)
    ensures T.FlatMap(PlainPart, ShownBy(parse, evs)) == T.FlatMap(PlainOf, evs)
  {
    if evs == [] {
    } else {
      var before, ev := evs[..|evs| - 1], evs[|evs| - 1];
      PlainShown(parse, before);
      T.FlatMapAppend(PlainPart, ShownBy(parse, before), Shows(parse, before, ev));
      PlainOfOne(parse, before, ev);
    }
  }

  lemma {:induction false} OutputsShown(parse: string -> Option<Json>, evs: seq<Event>)
    ensures T.FlatMap(OutputOf, ShownBy(parse, evs)) == T.FlatMap(ToolResultOf, evs)
  {
    if evs == [] {
    } else {
      var before, ev := evs[..|evs| - 1], evs[|evs| - 1];
      OutputsShown(parse, before);
      T.FlatMapAppend(OutputOf, ShownBy(parse, before), Shows(parse, before, ev));
      OutputsOfOne(parse, before, ev);
    }
  }

  /** The tool starts, input fragments, outputs, errors and the conversation's id that the UI gets are
      those of the events, in order, with stock texts where one is missing. */
  lemma PlainPartsAreTheEvents(parse: string -> Option<Json>, evs: seq<Event>)
    ensures T.FlatMap(PlainPart, Pump(parse, evs).out) == T.FlatMap(PlainOf, evs)
  {
    WritesWhatIsShown(parse, evs);
    PlainShown(parse, evs);
  }

  /** In particular the outputs are the tool results, each under its tool's id. */
  lemma OutputsAreTheResults(parse: string -> Option<Json>, evs: seq<Event>)
    ensures T.FlatMap(OutputOf, Pump(parse, evs).out) == T.FlatMap(ToolResultOf, evs)
  {
    WritesWhatIsShown(parse, evs);
    OutputsShown(parse, evs);
  }

  // ------------------------------------------------------------------ the pump, in place

  class Pumper {
    const parse: string -> Option<Json>
    var live: set<(Lane, string)>
    var toolNames: map<string, string>
    var buffers: map<string, string>
    var out: seq<Part>
    ghost var calls: seq<Call>

    ghost function Abs(): State
      reads this
    {
      State(live, toolNames, buffers, out, calls)
    }

    constructor (parse: string -> Option<Json>)
      ensures this.parse == parse && Abs() == INIT
    {
      this.parse := parse;
      live, toolNames, buffers, out, calls := {}, map[], map[], [], [];
    }

    method OpenPart(lane: Lane, id: string)
      modifies this`live, this`out
      ensures Abs() == Open(old(Abs()), lane, id)
    {
      if (lane, id) !in live {
        live := live + {(lane, id)};
        out := out + [PartStart(lane, id)];
      }
    }

    method HandleTool(ev: Event)
      requires ev.ToolStart? || ev.ToolInputDelta? || ev.ToolInputDone? || ev.ToolResult?
      modifies this
      ensures Abs() == Handle(parse, old(Abs()), ev)
    {
      match ev
      case ToolStart(id, name) =>
        var n := Named(name, "tool");
        toolNames := toolNames[id := n];
        buffers := buffers[id := ""];
        out := out + [ToolInputStart(id, n)];
      case ToolInputDelta(id, json) =>
        buffers := buffers[id := Lookup(buffers, id, "") + json];
        out := out + [ToolInputText(id, json)];
      case ToolInputDone(id, name, _) =>
        var raw := Lookup(buffers, id, "{}");
        buffers := buffers - {id};
        calls := calls + [Call(id, raw)];
        var input := match parse(raw) case Some(v) => v case None => EMPTY_OBJECT;
        out := out + [ToolInputAvailable(id, Named(name, Lookup(toolNames, id, "tool")), input)];
      case ToolResult(id, result) =>
        toolNames := toolNames - {id};
        out := out + [ToolOutputAvailable(id, result)];
    }

    method HandleEvent(ev: Event)
      modifies this
      ensures Abs() == Handle(parse, old(Abs()), ev)
    {
      match ev
      case BlockStart(lane, id) =>
        OpenPart(lane, id);
      case BlockDelta(lane, id, text) =>
        OpenPart(lane, id);
        out := out + [PartDelta(lane, id, text)];
      case BlockStop(lane, id) =>
        if (lane, id) in live {
          live := live - {(lane, id)};
          out := out + [PartEnd(lane, id)];
        }
      case ToolStart(_, _) => HandleTool(ev);
      case ToolInputDelta(_, _) => HandleTool(ev);
      case ToolInputDone(_, _, _) => HandleTool(ev);
      case ToolResult(_, _) => HandleTool(ev);
      case Conversation(id) => out := out + [DataConversation(id)];
      case Error(message) => out := out + [ErrorPart(Named(message, "stream error"))];
      case AgentStep(_, _) =>
      case Result(_, _) =>
    }

    method PumpStream(evs: seq<Event>)
      requires Abs() == INIT
      modifies this
      ensures Abs() == Pump(parse, evs)
    {
      for i := 0 to |evs|
        invariant Abs() == Pump(parse, evs[..i])
      {
        assert evs[..i + 1][..i] == evs[..i];
        HandleEvent(evs[i]);
      }
      assert evs[..|evs|] == evs;
    }
  }
}
