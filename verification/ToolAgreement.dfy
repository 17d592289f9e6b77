/** Engine and web client rebuild the same tool inputs: the engine per block index
    (core/sdk_mapping.py), the client per tool id (chat/go-sse-to-ui.ts). */
module ToolAgreement {
  import opened Protocol
  import opened Wrappers
  import M = SdkMapping
  import U = UiPump

  /** Reads a JSON text. The engine's `json.loads` and the client's `JSON.parse` are two of them. */
  type Parser = string -> Option<Json>

  predicate ToolOpen(m: M.State, idx: nat) { idx in m.blocks && m.blocks[idx].kind.ToolKind? }

  /** No id stands for two things at once: an open tool block shares its id neither with a tool block
      that starts nor with another block that gets an input fragment. */
  ghost predicate Unshared(m: M.State, msg: M.Message) {
    match msg
    case Start(idx, ToolBlock(id, _)) => forall j :: ToolOpen(m, j) && j != idx ==> m.blocks[j].id != M.ToolId(idx, id)
    case DeltaAt(idx, InputDelta(_)) =>
      !ToolOpen(m, idx) ==> forall j :: ToolOpen(m, j) ==> m.blocks[j].id != M.BlockAt(m, idx).id
    case _ => true
  }

  ghost predicate UnsharedIds(loads: Parser, msgs: seq<M.Message>) {
    forall i :: 0 <= i < |msgs| ==> Unshared(M.Process(loads, msgs[..i]), msgs[i])
  }

  function NextLeftovers(m: M.State, left: map<nat, string>, msg: M.Message): map<nat, string> {
    match msg
    case Start(idx, ToolBlock(_, _)) => left[idx := Lookup(m.buffers, idx, "")]
    case _ => left
  }

  /** What the engine's buffer of an index held when the tool block there started. */
  function Leftovers(loads: Parser, msgs: seq<M.Message>): map<nat, string> {
    if msgs == [] then map[]
    else
      var before, msg := msgs[..|msgs| - 1], msgs[|msgs| - 1];
      NextLeftovers(M.Process(loads, before), Leftovers(loads, before), msg)
  }

  function StoppedOver(m: M.State, left: map<nat, string>, msg: M.Message): seq<string> {
    if msg.Stop? && ToolOpen(m, msg.idx) then [Lookup(left, msg.idx, "")] else []
  }

  /** For each tool call in order, what its block had started over. */
  function Prefixes(loads: Parser, msgs: seq<M.Message>): seq<string> {
    if msgs == [] then []
    else
      var before, msg := msgs[..|msgs| - 1], msgs[|msgs| - 1];
      Prefixes(loads, before) + StoppedOver(M.Process(loads, before), Leftovers(loads, before), msg)
  }

  /** The engine's text of every finished call is what its block started over, then the client's. */
  ghost predicate CallsPrefixed(engine: seq<Call>, client: seq<Call>, prefixes: seq<string>) {
    && |engine| == |client| == |prefixes|
    && forall i :: 0 <= i < |engine| ==> engine[i] == Call(client[i].id, prefixes[i] + client[i].raw)
  }

  /** The same for the calls still open. */
  ghost predicate BuffersPrefixed(m: M.State, u: U.State, left: map<nat, string>) {
    forall j :: ToolOpen(m, j) ==>
      && j in left && m.blocks[j].id in u.buffers
      && Lookup(m.buffers, j, "") == left[j] + u.buffers[m.blocks[j].id]
  }

  ghost predicate DistinctIds(m: M.State) {
    forall j, k :: ToolOpen(m, j) && ToolOpen(m, k) && j != k ==> m.blocks[j].id != m.blocks[k].id
  }

  ghost predicate Agree(m: M.State, u: U.State, left: map<nat, string>, prefixes: seq<string>) {
    CallsPrefixed(m.calls, u.calls, prefixes) && BuffersPrefixed(m, u, left) && DistinctIds(m)
  }

  lemma PumpSnoc(parse: Parser, evs: seq<Event>, ev: Event)
    ensures U.Pump(parse, evs + [ev]) == U.Handle(parse, U.Pump(parse, evs), ev)
  {
    assert (evs + [ev])[..|evs|] == evs;
  }

  lemma ResultEventsSnoc(evs: seq<Event>, results: seq<(string, string)>)
    requires results != []
    ensures var n := |results| - 1;
            evs + M.ResultEvents(results) == evs + M.ResultEvents(results[..n]) +
              [ToolResult(results[n].0, results[n].1)]
  {
    var n := |results| - 1;
    assert M.ResultEvents(results) == M.ResultEvents(results[..n]) + [ToolResult(results[n].0, results[n].1)];
  }

  lemma {:induction false} ResultsKeepBuffers(parse: Parser, evs: seq<Event>, results: seq<(string, string)>)
    ensures var u, v := U.Pump(parse, evs), U.Pump(parse, evs + M.ResultEvents(results));
            v.buffers == u.buffers && v.calls == u.calls
  {
    if results == [] {
      assert evs + M.ResultEvents(results) == evs;
    } else {
      var n := |results| - 1;
      ResultsKeepBuffers(parse, evs, results[..n]);
      var ev := ToolResult(results[n].0, results[n].1);
      ResultEventsSnoc(evs, results);
      PumpSnoc(parse, evs + M.ResultEvents(results[..n]), ev);
    }
  }

  /** No tool block opened, and those still open are as they were. */
  ghost predicate NoNewTools(m: M.State, n: M.State) {
    forall j :: ToolOpen(n, j) ==> ToolOpen(m, j) && n.blocks[j] == m.blocks[j]
  }

  /** Nothing that opens no tool block and leaves buffers and calls alone on both sides can part them. */
  lemma NoNewToolsAgree(m: M.State, u: U.State, n: M.State, v: U.State, left: map<nat, string>, prefixes: seq<string>)
    requires Agree(m, u, left, prefixes)
    requires n.calls == m.calls && n.buffers == m.buffers && v.calls == u.calls && v.buffers == u.buffers
    requires NoNewTools(m, n)
    ensures Agree(n, v, left, prefixes)
  {}

  lemma CallsSnoc(engine: seq<Call>, client: seq<Call>, prefixes: seq<string>, id: string, prefix: string, raw: string)
    requires CallsPrefixed(engine, client, prefixes)
    ensures CallsPrefixed(engine + [Call(id, prefix + raw)], client + [Call(id, raw)], prefixes + [prefix])
  {}

  lemma DoneThenStep(parse: Parser, out: seq<Event>, done: Event, step: Event)
    requires done.ToolInputDone? && step.AgentStep?
    ensures var u, v := U.Pump(parse, out), U.Pump(parse, out + [done, step]);
            && v.calls == u.calls + [Call(done.id, Lookup(u.buffers, done.id, "{}"))]
            && v.buffers == u.buffers - {done.id}
  {
    assert out + [done, step] == out + [done] + [step];
    PumpSnoc(parse, out, done);
    PumpSnoc(parse, out + [done], step);
  }

  lemma StopMakesCall(loads: Parser, parse: Parser, m: M.State, idx: nat)
    requires ToolOpen(m, idx)
    ensures var n, u := M.StepOn(loads, m, M.Stop(idx)), U.Pump(parse, m.out); var id := m.blocks[idx].id;
            && n.calls == m.calls + [Call(id, Lookup(m.buffers, idx, ""))]
            && U.Pump(parse, n.out).calls == u.calls + [Call(id, Lookup(u.buffers, id, "{}"))]
            && U.Pump(parse, n.out).buffers == u.buffers - {id}
  {
    var b := m.blocks[idx];
    var done := ToolInputDone(b.id, b.name, M.ParsedInput(loads, Lookup(m.buffers, idx, "")));
    var step := AgentStep(m.step + 1, b.name);
    assert M.StepOn(loads, m, M.Stop(idx)).out == m.out + [done, step];
    DoneThenStep(parse, m.out, done, step);
  }

  lemma StopLeavesOthers(m: M.State, n: M.State, u: U.State, v: U.State, left: map<nat, string>, idx: nat)
    requires BuffersPrefixed(m, u, left) && DistinctIds(m) && ToolOpen(m, idx)
    requires n.blocks == m.blocks - {idx} && n.buffers == m.buffers - {idx}
    requires v.buffers == u.buffers - {m.blocks[idx].id}
    ensures BuffersPrefixed(n, v, left) && DistinctIds(n)
  {
    forall j | ToolOpen(n, j)
      ensures j in left && n.blocks[j].id in v.buffers
      ensures Lookup(n.buffers, j, "") == left[j] + v.buffers[n.blocks[j].id]
    {
      assert ToolOpen(m, j) && j != idx;
    }
    assert forall j :: ToolOpen(n, j) ==> ToolOpen(m, j) && n.blocks[j] == m.blocks[j];
  }

  lemma ToolStopAgrees(loads: Parser, parse: Parser, m: M.State, left: map<nat, string>, prefixes: seq<string>,
                       idx: nat)
    requires Agree(m, U.Pump(parse, m.out), left, prefixes) && ToolOpen(m, idx)
    ensures var n := M.StepOn(loads, m, M.Stop(idx));
            Agree(n, U.Pump(parse, n.out), left, prefixes + [Lookup(left, idx, "")])
  {
    var b, u := m.blocks[idx], U.Pump(parse, m.out);
    var n := M.StepOn(loads, m, M.Stop(idx));
    StopMakesCall(loads, parse, m, idx);
    CallsSnoc(m.calls, u.calls, prefixes, b.id, left[idx], u.buffers[b.id]);
    StopLeavesOthers(m, n, u, U.Pump(parse, n.out), left, idx);
  }

  lemma DeltaKeepsBuffers(m: M.State, n: M.State, u: U.State, v: U.State, left: map<nat, string>, idx: nat, f: string)
    requires BuffersPrefixed(m, u, left) && DistinctIds(m) && Unshared(m, M.DeltaAt(idx, M.InputDelta(f)))
    requires n.blocks == m.blocks && n.buffers == m.buffers[idx := Lookup(m.buffers, idx, "") + f]
    requires var id := M.BlockAt(m, idx).id; v.buffers == u.buffers[id := Lookup(u.buffers, id, "") + f]
    ensures BuffersPrefixed(n, v, left) && DistinctIds(n)
  {
    forall j | ToolOpen(n, j)
      ensures j in left && n.blocks[j].id in v.buffers
      ensures Lookup(n.buffers, j, "") == left[j] + v.buffers[n.blocks[j].id]
    {
      assert ToolOpen(m, j);
      if j == idx {
        var held := u.buffers[m.blocks[j].id];
        assert left[j] + (held + f) == left[j] + held + f;
      }
    }
    assert forall j :: ToolOpen(n, j) <==> ToolOpen(m, j);
  }

  lemma InputDeltaAgrees(loads: Parser, parse: Parser, m: M.State, left: map<nat, string>, prefixes: seq<string>,
                         idx: nat, f: string)
    requires Agree(m, U.Pump(parse, m.out), left, prefixes) && Unshared(m, M.DeltaAt(idx, M.InputDelta(f)))
    ensures var n := M.StepOn(loads, m, M.DeltaAt(idx, M.InputDelta(f))); Agree(n, U.Pump(parse, n.out), left, prefixes)
  {
    var n := M.StepOn(loads, m, M.DeltaAt(idx, M.InputDelta(f)));
    PumpSnoc(parse, m.out, ToolInputDelta(M.BlockAt(m, idx).id, f));
    DeltaKeepsBuffers(m, n, U.Pump(parse, m.out), U.Pump(parse, n.out), left, idx, f);
  }

  lemma StartKeepsBuffers(m: M.State, n: M.State, u: U.State, v: U.State, left: map<nat, string>,
                          idx: nat, id: string, name: string)
    requires BuffersPrefixed(m, u, left) && DistinctIds(m) && Unshared(m, M.Start(idx, M.ToolBlock(id, name)))
    requires n.blocks == m.blocks[idx := M.OpenBlock(M.ToolId(idx, id), M.ToolKind, name)] && n.buffers == m.buffers
    requires v.buffers == u.buffers[M.ToolId(idx, id) := ""]
    ensures BuffersPrefixed(n, v, left[idx := Lookup(m.buffers, idx, "")]) && DistinctIds(n)
  {
    var held := Lookup(m.buffers, idx, "");
    assert held + "" == held;
    forall j | ToolOpen(n, j)
      ensures j in left[idx := held] && n.blocks[j].id in v.buffers
      ensures Lookup(n.buffers, j, "") == left[idx := held][j] + v.buffers[n.blocks[j].id]
    {
      assert j != idx ==> ToolOpen(m, j);
    }
    assert forall j :: ToolOpen(n, j) && j != idx ==> ToolOpen(m, j) && n.blocks[j] == m.blocks[j];
  }

  lemma ToolStartAgrees(loads: Parser, parse: Parser, m: M.State, left: map<nat, string>, prefixes: seq<string>,
                        idx: nat, id: string, name: string)
    requires Agree(m, U.Pump(parse, m.out), left, prefixes) && Unshared(m, M.Start(idx, M.ToolBlock(id, name)))
    ensures var n := M.StepOn(loads, m, M.Start(idx, M.ToolBlock(id, name)));
            Agree(n, U.Pump(parse, n.out), left[idx := Lookup(m.buffers, idx, "")], prefixes)
  {
    var n := M.StepOn(loads, m, M.Start(idx, M.ToolBlock(id, name)));
    PumpSnoc(parse, m.out, ToolStart(M.ToolId(idx, id), name));
    StartKeepsBuffers(m, n, U.Pump(parse, m.out), U.Pump(parse, n.out), left, idx, id, name);
  }

  /** Neither a tool stop, nor an input fragment, nor the start of a tool block. */
  predicate Plain(m: M.State, msg: M.Message) {
    && !(msg.Stop? && ToolOpen(m, msg.idx))
    && !(msg.DeltaAt? && msg.delta.InputDelta?) && !(msg.Start? && msg.block.ToolBlock?)
  }

  lemma PlainKeepsEngine(loads: Parser, m: M.State, msg: M.Message)
    requires Plain(m, msg)
    ensures var n := M.StepOn(loads, m, msg); n.calls == m.calls && n.buffers == m.buffers && NoNewTools(m, n)
  {}

  predicate Prose(ev: Event) { ev.BlockStart? || ev.BlockDelta? || ev.BlockStop? || ev.Result? }

  lemma PlainEmitsProse(loads: Parser, m: M.State, msg: M.Message)
    requires Plain(m, msg) && !msg.ToolResults?
    ensures var n := M.StepOn(loads, m, msg);
            n.out == m.out || (|n.out| == |m.out| + 1 && m.out <= n.out && Prose(n.out[|m.out|]))
  {}

  lemma ProseLeavesCalls(parse: Parser, u: U.State, ev: Event)
    requires Prose(ev)
    ensures U.Handle(parse, u, ev).calls == u.calls && U.Handle(parse, u, ev).buffers == u.buffers
  {}

  lemma ProseKeepsBuffers(parse: Parser, out: seq<Event>, next: seq<Event>)
    requires next == out || (|next| == |out| + 1 && out <= next && Prose(next[|out|]))
    ensures var u, v := U.Pump(parse, out), U.Pump(parse, next); v.calls == u.calls && v.buffers == u.buffers
  {
    if next != out {
      var ev := next[|out|];
      assert next == out + [ev];
      PumpSnoc(parse, out, ev);
      ProseLeavesCalls(parse, U.Pump(parse, out), ev);
    }
  }

  lemma PlainKeepsClient(loads: Parser, parse: Parser, m: M.State, msg: M.Message)
    requires Plain(m, msg)
    ensures var u, v := U.Pump(parse, m.out), U.Pump(parse, M.StepOn(loads, m, msg).out);
            v.calls == u.calls && v.buffers == u.buffers
  {
    if msg.ToolResults? {
      ResultsKeepBuffers(parse, m.out, msg.results);
    } else {
      PlainEmitsProse(loads, m, msg);
      ProseKeepsBuffers(parse, m.out, M.StepOn(loads, m, msg).out);
    }
  }

  lemma StepAgrees(loads: Parser, parse: Parser, m: M.State, left: map<nat, string>, prefixes: seq<string>,
                   msg: M.Message)
    requires Agree(m, U.Pump(parse, m.out), left, prefixes) && Unshared(m, msg)
    ensures var n := M.StepOn(loads, m, msg);
            Agree(n, U.Pump(parse, n.out), NextLeftovers(m, left, msg), prefixes + StoppedOver(m, left, msg))
  {
    var n := M.StepOn(loads, m, msg);
    if msg.Stop? && ToolOpen(m, msg.idx) {
      ToolStopAgrees(loads, parse, m, left, prefixes, msg.idx);
    } else {
      assert prefixes + [] == prefixes;
      if msg.DeltaAt? && msg.delta.InputDelta? {
        InputDeltaAgrees(loads, parse, m, left, prefixes, msg.idx, msg.delta.fragment);
      } else if msg.Start? && msg.block.ToolBlock? {
        ToolStartAgrees(loads, parse, m, left, prefixes, msg.idx, msg.block.id, msg.block.name);
      } else {
        PlainKeepsEngine(loads, m, msg);
        PlainKeepsClient(loads, parse, m, msg);
        NoNewToolsAgree(m, U.Pump(parse, m.out), n, U.Pump(parse, n.out), left, prefixes);
      }
    }
  }

  lemma {:induction false} StreamKeepsAgree(loads: Parser, parse: Parser, msgs: seq<M.Message>)
    requires UnsharedIds(loads, msgs)
    ensures Agree(M.Process(loads, msgs), U.Pump(parse, M.Process(loads, msgs).out),
                  Leftovers(loads, msgs), Prefixes(loads, msgs))
  {
    if msgs == [] {
    } else {
      var n := |msgs| - 1;
      assert forall i :: 0 <= i < n ==> msgs[..n][..i] == msgs[..i];
      StreamKeepsAgree(loads, parse, msgs[..n]);
      assert Unshared(M.Process(loads, msgs[..n]), msgs[n]);
      StepAgrees(loads, parse, M.Process(loads, msgs[..n]), Leftovers(loads, msgs[..n]), Prefixes(loads, msgs[..n]),
                 msgs[n]);
    }
  }

  /** For every stream that shares no id, both ends finish the same calls in the same order, and the
      engine's text of a call is what its block started over followed by the client's text: they
      rebuild the same texts exactly when every finished tool block started over an empty buffer. */
  lemma CallsAgreeIff(loads: Parser, parse: Parser, msgs: seq<M.Message>)
    requires UnsharedIds(loads, msgs)
    ensures var m := M.Process(loads, msgs); var u := U.Pump(parse, m.out); var prefixes := Prefixes(loads, msgs);
            && CallsPrefixed(m.calls, u.calls, prefixes)
            && (m.calls == u.calls <==> forall i :: 0 <= i < |prefixes| ==> prefixes[i] == "")
  {
    StreamKeepsAgree(loads, parse, msgs);
    var m := M.Process(loads, msgs);
    var u, prefixes := U.Pump(parse, m.out), Prefixes(loads, msgs);
    if m.calls == u.calls {
      forall i | 0 <= i < |prefixes| ensures prefixes[i] == "" {
        assert |m.calls[i].raw| == |prefixes[i]| + |u.calls[i].raw|;
      }
    } else if forall i :: 0 <= i < |prefixes| ==> prefixes[i] == "" {
      forall i | 0 <= i < |m.calls| ensures m.calls[i] == u.calls[i] {
        assert prefixes[i] + u.calls[i].raw == u.calls[i].raw;
      }
    }
  }

  // ------------------------------------------------------------------ a discipline under which they agree

  /** A tool block is stopped before its index is used again, no two open tool blocks share an id, and
      input fragments arrive for open tool blocks only. */
  ghost predicate Fits(m: M.State, msg: M.Message) {
    match msg
    case Start(idx, block) =>
      && (!block.OtherBlock? ==> !ToolOpen(m, idx))
      && (block.ToolBlock? ==> forall j :: ToolOpen(m, j) ==> m.blocks[j].id != M.ToolId(idx, block.id))
    case DeltaAt(idx, InputDelta(_)) => ToolOpen(m, idx)
    case _ => true
  }

  ghost predicate WellFormed(loads: Parser, msgs: seq<M.Message>) {
    forall i :: 0 <= i < |msgs| ==> Fits(M.Process(loads, msgs[..i]), msgs[i])
  }

  ghost predicate BuffersAreOpen(m: M.State) { forall j :: j in m.buffers ==> ToolOpen(m, j) }

  lemma FittingStepIsClean(loads: Parser, m: M.State, msg: M.Message)
    requires BuffersAreOpen(m) && Fits(m, msg)
    ensures BuffersAreOpen(M.StepOn(loads, m, msg)) && Unshared(m, msg)
    ensures msg.Start? && msg.block.ToolBlock? ==> Lookup(m.buffers, msg.idx, "") == ""
  {}

  lemma UnsharedSnoc(loads: Parser, before: seq<M.Message>, msg: M.Message)
    requires UnsharedIds(loads, before) && Unshared(M.Process(loads, before), msg)
    ensures UnsharedIds(loads, before + [msg])
  {
    var msgs := before + [msg];
    forall i | 0 <= i < |msgs| ensures Unshared(M.Process(loads, msgs[..i]), msgs[i]) {
      assert msgs[..i] == before[..i];
      if i < |before| {
        assert Unshared(M.Process(loads, before[..i]), before[i]);
      } else {
        assert before[..i] == before;
      }
    }
  }

  lemma WellFormedPrefix(loads: Parser, msgs: seq<M.Message>)
    requires WellFormed(loads, msgs) && msgs != []
    ensures var n := |msgs| - 1; WellFormed(loads, msgs[..n]) && Fits(M.Process(loads, msgs[..n]), msgs[n])
  {
    var n := |msgs| - 1;
    assert forall i :: 0 <= i < n ==> msgs[..n][..i] == msgs[..i];
  }

  lemma {:induction false} WellFormedIsClean(loads: Parser, msgs: seq<M.Message>)
    requires WellFormed(loads, msgs)
    ensures UnsharedIds(loads, msgs) && BuffersAreOpen(M.Process(loads, msgs))
    ensures forall j :: j in Leftovers(loads, msgs) ==> Leftovers(loads, msgs)[j] == ""
    ensures forall i :: 0 <= i < |Prefixes(loads, msgs)| ==> Prefixes(loads, msgs)[i] == ""
  {
    if msgs == [] {
    } else {
      var n := |msgs| - 1;
      var before := msgs[..n];
      WellFormedPrefix(loads, msgs);
      WellFormedIsClean(loads, before);
      FittingStepIsClean(loads, M.Process(loads, before), msgs[n]);
      UnsharedSnoc(loads, before, msgs[n]);
      assert before + [msgs[n]] == msgs;
    }
  }

  /** Such a stream leaves both ends with the same calls. */
  lemma StreamAgrees(loads: Parser, parse: Parser, msgs: seq<M.Message>)
    requires WellFormed(loads, msgs)
    ensures M.Process(loads, msgs).calls == U.Pump(parse, M.Process(loads, msgs).out).calls
  {
    WellFormedIsClean(loads, msgs);
    CallsAgreeIff(loads, parse, msgs);
  }

  // ------------------------------------------------------------------ the parsed inputs

  /** The input of each tool.input_done event, and of each tool-input-available part, in order. */
  function EngineInputs(out: seq<Event>): seq<(string, Option<Json>)> {
    if out == [] then []
    else
      EngineInputs(out[..|out| - 1]) +
      match out[|out| - 1] case ToolInputDone(id, _, input) => [(id, input)] case _ => []
  }

  function ClientInputs(out: seq<U.Part>): seq<(string, Json)> {
    if out == [] then []
    else
      ClientInputs(out[..|out| - 1]) +
      match out[|out| - 1] case ToolInputAvailable(id, _, input) => [(id, input)] case _ => []
  }

  function EngineReads(loads: Parser, calls: seq<Call>): seq<(string, Option<Json>)> {
    seq(|calls|, i requires 0 <= i < |calls| => (calls[i].id, M.ParsedInput(loads, calls[i].raw)))
  }

  /** An input as it is shown: {} if it could not be read. */
  function Shown(input: Option<Json>): Json { match input case Some(v) => v case None => U.EMPTY_OBJECT }

  function ClientReads(parse: Parser, calls: seq<Call>): seq<(string, Json)> {
    seq(|calls|, i requires 0 <= i < |calls| => (calls[i].id, Shown(parse(calls[i].raw))))
  }

  lemma {:induction false} EngineInputsAppend(a: seq<Event>, b: seq<Event>)
    ensures EngineInputs(a + b) == EngineInputs(a) + EngineInputs(b)
  {
    if b == [] {
      assert a + b == a;
    } else {
      assert (a + b)[..|a + b| - 1] == a + b[..|b| - 1];
      EngineInputsAppend(a, b[..|b| - 1]);
    }
  }

  lemma {:induction false} NoDoneNoInputs(out: seq<Event>)
    requires forall i :: 0 <= i < |out| ==> !out[i].ToolInputDone?
    ensures EngineInputs(out) == []
  {
    if out == [] {
    } else {
      NoDoneNoInputs(out[..|out| - 1]);
    }
  }

  lemma EngineInputsStep(out: seq<Event>, id: string, name: string, input: Option<Json>, step: Event)
    requires !step.ToolInputDone?
    ensures EngineInputs(out + [ToolInputDone(id, name, input), step]) == EngineInputs(out) + [(id, input)]
  {
    var done := ToolInputDone(id, name, input);
    assert (out + [done, step])[..|out| + 1] == out + [done];
    assert (out + [done])[..|out|] == out;
  }

  lemma EngineReadsSnoc(loads: Parser, calls: seq<Call>, c: Call)
    ensures EngineReads(loads, calls + [c]) == EngineReads(loads, calls) + [(c.id, M.ParsedInput(loads, c.raw))]
  {}

  lemma OthersMakeNoCall(loads: Parser, m: M.State, msg: M.Message)
    requires msg.Stop? ==> !M.BlockAt(m, msg.idx).kind.ToolKind?
    ensures M.StepOn(loads, m, msg).calls == m.calls
  {}

  lemma OthersAddNoInput(out: seq<Event>, next: seq<Event>)
    requires out <= next && forall i :: |out| <= i < |next| ==> !next[i].ToolInputDone?
    ensures EngineInputs(next) == EngineInputs(out)
  {
    var more := next[|out|..];
    assert next == out + more;
    EngineInputsAppend(out, more);
    NoDoneNoInputs(more);
  }

  lemma EngineKeepsReads(loads: Parser, m: M.State, msg: M.Message)
    requires msg.Stop? ==> !M.BlockAt(m, msg.idx).kind.ToolKind?
    ensures var n := M.StepOn(loads, m, msg); n.calls == m.calls && EngineInputs(n.out) == EngineInputs(m.out)
  {
    M.EmitsNoStep(loads, m, msg);
    OthersMakeNoCall(loads, m, msg);
    OthersAddNoInput(m.out, M.StepOn(loads, m, msg).out);
  }

  lemma EngineStepReads(loads: Parser, m: M.State, msg: M.Message)
    requires EngineInputs(m.out) == EngineReads(loads, m.calls)
    ensures var n := M.StepOn(loads, m, msg); EngineInputs(n.out) == EngineReads(loads, n.calls)
  {
    if msg.Stop? && M.BlockAt(m, msg.idx).kind.ToolKind? {
      var b, raw := M.BlockAt(m, msg.idx), Lookup(m.buffers, msg.idx, "");
      EngineInputsStep(m.out, b.id, b.name, M.ParsedInput(loads, raw), AgentStep(m.step + 1, b.name));
      EngineReadsSnoc(loads, m.calls, Call(b.id, raw));
    } else {
      EngineKeepsReads(loads, m, msg);
    }
  }

  lemma {:induction false} EngineReadsItsCalls(loads: Parser, msgs: seq<M.Message>)
    ensures var m := M.Process(loads, msgs); EngineInputs(m.out) == EngineReads(loads, m.calls)
  {
    if msgs == [] {
    } else {
      EngineReadsItsCalls(loads, msgs[..|msgs| - 1]);
      EngineStepReads(loads, M.Process(loads, msgs[..|msgs| - 1]), msgs[|msgs| - 1]);
    }
  }

  lemma ClientSnoc(out: seq<U.Part>, p: U.Part)
    ensures ClientInputs(out + [p]) ==
              ClientInputs(out) + match p case ToolInputAvailable(id, _, input) => [(id, input)] case _ => []
  {
    assert (out + [p])[..|out|] == out;
  }

  lemma OpenWritesNoInput(s: U.State, lane: Lane, id: string)
    ensures ClientInputs(U.Open(s, lane, id).out) == ClientInputs(s.out) && U.Open(s, lane, id).calls == s.calls
  {
    ClientSnoc(s.out, U.PartStart(lane, id));
  }

  lemma ClientReadsSnoc(parse: Parser, calls: seq<Call>, c: Call)
    ensures ClientReads(parse, calls + [c]) ==
              ClientReads(parse, calls) + [(c.id, Shown(parse(c.raw)))]
  {}

  /** Events of neither prose nor a finished input write at most one part, and no input. */
  lemma ClientKeepsReads(parse: Parser, s: U.State, ev: Event)
    requires !ev.BlockStart? && !ev.BlockDelta? && !ev.BlockStop? && !ev.ToolInputDone?
    ensures var t := U.Handle(parse, s, ev); t.calls == s.calls && ClientInputs(t.out) == ClientInputs(s.out)
  {
    var t := U.Handle(parse, s, ev);
    if t.out != s.out {
      var p := t.out[|s.out|];
      assert t.out == s.out + [p] && !p.ToolInputAvailable?;
      ClientSnoc(s.out, p);
    }
  }

  lemma ClientDoneReads(parse: Parser, s: U.State, ev: Event)
    requires ev.ToolInputDone? && ClientInputs(s.out) == ClientReads(parse, s.calls)
    ensures var t := U.Handle(parse, s, ev); ClientInputs(t.out) == ClientReads(parse, t.calls)
  {
    var t := U.Handle(parse, s, ev);
    ClientSnoc(s.out, t.out[|s.out|]);
    ClientReadsSnoc(parse, s.calls, Call(ev.id, Lookup(s.buffers, ev.id, "{}")));
  }

  lemma ClientStepReads(parse: Parser, s: U.State, ev: Event)
    requires ClientInputs(s.out) == ClientReads(parse, s.calls)
    ensures var t := U.Handle(parse, s, ev); ClientInputs(t.out) == ClientReads(parse, t.calls)
  {
    if ev.BlockStart? {
      OpenWritesNoInput(s, ev.lane, ev.id);
    } else if ev.BlockDelta? {
      OpenWritesNoInput(s, ev.lane, ev.id);
      ClientSnoc(U.Open(s, ev.lane, ev.id).out, U.PartDelta(ev.lane, ev.id, ev.text));
    } else if ev.BlockStop? {
      ClientSnoc(s.out, U.PartEnd(ev.lane, ev.id));
    } else if ev.ToolInputDone? {
      ClientDoneReads(parse, s, ev);
    } else {
      ClientKeepsReads(parse, s, ev);
    }
  }

  lemma {:induction false} ClientReadsItsCalls(parse: Parser, evs: seq<Event>)
    ensures var u := U.Pump(parse, evs); ClientInputs(u.out) == ClientReads(parse, u.calls)
  {
    if evs == [] {
    } else {
      ClientReadsItsCalls(parse, evs[..|evs| - 1]);
      ClientStepReads(parse, U.Pump(parse, evs[..|evs| - 1]), evs[|evs| - 1]);
    }
  }

  /** What both ends make of the same text. */
  lemma ReadAlikeIff(loads: Parser, parse: Parser, text: string)
    requires parse("") == None
    ensures Shown(parse(text)) == Shown(M.ParsedInput(loads, text)) <==>
            text == "" || Shown(loads(text)) == Shown(parse(text))
  {}

  /** However tool blocks interleave and whatever else the stream does, as long as no id is shared:
      both ends report the same calls in the same order, and for each whose block started over an
      empty buffer the client shows the input the engine parsed, or {} where it parsed none, exactly
      when both parsers read the call's text alike. They do not read NaN alike, say. */
  lemma ToolInputsAgree(loads: Parser, parse: Parser, msgs: seq<M.Message>)
    requires UnsharedIds(loads, msgs) && parse("") == None
    ensures var m := M.Process(loads, msgs); var u := U.Pump(parse, m.out); var prefixes := Prefixes(loads, msgs);
            && |ClientInputs(u.out)| == |EngineInputs(m.out)| == |prefixes| == |m.calls|
            && forall i :: 0 <= i < |prefixes| ==>
                 var (id, input) := EngineInputs(m.out)[i]; var text := m.calls[i].raw;
                 && ClientInputs(u.out)[i].0 == id == m.calls[i].id
                 && (prefixes[i] == "" ==>
                       (ClientInputs(u.out)[i].1 == Shown(input) <==>
                         text == "" || Shown(loads(text)) == Shown(parse(text))))
  {
    CallsAgreeIff(loads, parse, msgs);
    EngineReadsItsCalls(loads, msgs);
    ClientReadsItsCalls(parse, M.Process(loads, msgs).out);
    var m := M.Process(loads, msgs);
    var u, prefixes := U.Pump(parse, m.out), Prefixes(loads, msgs);
    forall i | 0 <= i < |prefixes| && prefixes[i] == ""
      ensures ClientInputs(u.out)[i].1 == Shown(EngineInputs(m.out)[i].1) <==>
              m.calls[i].raw == "" || Shown(loads(m.calls[i].raw)) == Shown(parse(m.calls[i].raw))
    {
      assert prefixes[i] + u.calls[i].raw == u.calls[i].raw;
      ReadAlikeIff(loads, parse, m.calls[i].raw);
    }
  }

  // ------------------------------------------------------------------ streams that part them

  lemma ProcessSnoc(loads: Parser, msgs: seq<M.Message>, msg: M.Message)
    ensures M.Process(loads, msgs + [msg]) == M.StepOn(loads, M.Process(loads, msgs), msg)
  {
    assert (msgs + [msg])[..|msgs|] == msgs;
  }

  function Fragment(idx: nat, f: string): M.Message { M.DeltaAt(idx, M.InputDelta(f)) }

  function Tool(idx: nat, id: string): M.Message { M.Start(idx, M.ToolBlock(id, "tool")) }

  /** Both ends after one more message that makes one event. */
  lemma BothSnoc(loads: Parser, parse: Parser, msgs: seq<M.Message>, msg: M.Message, ev: Event)
    requires M.StepOn(loads, M.Process(loads, msgs), msg).out == M.Process(loads, msgs).out + [ev]
    ensures M.Process(loads, msgs + [msg]) == M.StepOn(loads, M.Process(loads, msgs), msg)
    ensures U.Pump(parse, M.Process(loads, msgs + [msg]).out) ==
            U.Handle(parse, U.Pump(parse, M.Process(loads, msgs).out), ev)
  {
    ProcessSnoc(loads, msgs, msg);
    PumpSnoc(parse, M.Process(loads, msgs).out, ev);
  }

  /** Both ends after the stop of an open tool block. */
  lemma BothStop(loads: Parser, parse: Parser, msgs: seq<M.Message>, idx: nat)
    requires ToolOpen(M.Process(loads, msgs), idx)
    ensures var m, u := M.Process(loads, msgs), U.Pump(parse, M.Process(loads, msgs).out);
            var n := M.Process(loads, msgs + [M.Stop(idx)]); var id := m.blocks[idx].id;
            && n.calls == m.calls + [Call(id, Lookup(m.buffers, idx, ""))]
            && U.Pump(parse, n.out).calls == u.calls + [Call(id, Lookup(u.buffers, id, "{}"))]
  {
    var m := M.Process(loads, msgs);
    ProcessSnoc(loads, msgs, M.Stop(idx));
    StopMakesCall(loads, parse, m, idx);
  }

  /** A tool block at index 0 with one fragment, still open. */
  function OpenTool(id: string, f: string): seq<M.Message> { [Tool(0, id)] + [Fragment(0, f)] }

  lemma OpenToolHolds(loads: Parser, id: string, f: string)
    requires id != ""
    ensures M.Process(loads, OpenTool(id, f)) ==
              M.State(map[0 := M.OpenBlock(id, M.ToolKind, "tool")], map[0 := f], 0, None,
                      [ToolStart(id, "tool"), ToolInputDelta(id, f)], [])
  {
    assert [] + [Tool(0, id)] == [Tool(0, id)];
    ProcessSnoc(loads, [], Tool(0, id));
    assert [] + [ToolStart(id, "tool")] == [ToolStart(id, "tool")];
    ProcessSnoc(loads, [Tool(0, id)], Fragment(0, f));
    assert "" + f == f;
    assert [ToolStart(id, "tool")] + [ToolInputDelta(id, f)] == [ToolStart(id, "tool"), ToolInputDelta(id, f)];
  }

  lemma ToolEventsMakeNoCall(parse: Parser, id: string, f: string, again: string)
    ensures var u := U.Pump(parse, [ToolStart(id, "tool"), ToolInputDelta(id, f)] + [ToolStart(again, "tool")]);
            u.calls == [] && again in u.buffers && u.buffers[again] == ""
  {
    var out := [ToolStart(id, "tool"), ToolInputDelta(id, f)];
    assert [] + [ToolStart(id, "tool")] == [ToolStart(id, "tool")];
    assert [ToolStart(id, "tool")] + [ToolInputDelta(id, f)] == out;
    PumpSnoc(parse, [], ToolStart(id, "tool"));
    PumpSnoc(parse, [ToolStart(id, "tool")], ToolInputDelta(id, f));
    PumpSnoc(parse, out, ToolStart(again, "tool"));
  }

  /** The condition fails when a tool block is never stopped: the engine puts its fragments in front
      of those of the next tool block at that index, the client does not. */
  lemma StaleFragmentsDiverge(loads: Parser, parse: Parser, f: string)
    ensures var msgs := OpenTool("t1", f) + [Tool(0, "t2")] + [M.Stop(0)];
            && M.Process(loads, msgs).calls == [Call("t2", f)]
            && U.Pump(parse, M.Process(loads, msgs).out).calls == [Call("t2", "")]
            && (M.Process(loads, msgs).calls != U.Pump(parse, M.Process(loads, msgs).out).calls <==> f != "")
  {
    OpenToolHolds(loads, "t1", f);
    ProcessSnoc(loads, OpenTool("t1", f), Tool(0, "t2"));
    ToolEventsMakeNoCall(parse, "t1", f, "t2");
    BothStop(loads, parse, OpenTool("t1", f) + [Tool(0, "t2")], 0);
    assert f != "" ==> [Call("t2", f)][0] != [Call("t2", "")][0];
  }

  /** A block of another kind with one fragment, started and stopped. */
  function OtherBlock(f: string): seq<M.Message> { [M.Start(0, M.OtherBlock)] + [Fragment(0, f)] + [M.Stop(0)] }

  lemma OtherBlockOpens(loads: Parser, f: string)
    ensures var msgs := [M.Start(0, M.OtherBlock)] + [Fragment(0, f)];
            M.Process(loads, msgs) == M.State(map[], map[0 := f], 0, None, [ToolInputDelta(M.BlockId(0), f)], [])
  {
    var start := M.Start(0, M.OtherBlock);
    assert [] + [start] == [start];
    ProcessSnoc(loads, [], start);
    assert M.Process(loads, [start]) == M.INIT;
    ProcessSnoc(loads, [start], Fragment(0, f));
    assert "" + f == f;
    assert [] + [ToolInputDelta(M.BlockId(0), f)] == [ToolInputDelta(M.BlockId(0), f)];
  }

  lemma ProseMakesNoCall(parse: Parser, id: string, f: string, stop: Event)
    requires stop.BlockStop?
    ensures U.Pump(parse, [ToolInputDelta(id, f)] + [stop]).calls == []
  {
    assert [] + [ToolInputDelta(id, f)] == [ToolInputDelta(id, f)];
    PumpSnoc(parse, [], ToolInputDelta(id, f));
    PumpSnoc(parse, [ToolInputDelta(id, f)], stop);
  }

  lemma OtherBlockLeaves(loads: Parser, parse: Parser, f: string)
    ensures var m := M.Process(loads, OtherBlock(f));
            m.buffers == map[0 := f] && m.calls == [] && U.Pump(parse, m.out).calls == []
  {
    OtherBlockOpens(loads, f);
    ProcessSnoc(loads, [M.Start(0, M.OtherBlock)] + [Fragment(0, f)], M.Stop(0));
    ProseMakesNoCall(parse, M.BlockId(0), f, BlockStop(Text, M.BlockId(0)));
  }

  /** It fails even when every block is started before use and stopped before its index is used again:
      a block of another kind is not opened by the mapper, its fragments are kept all the same, and
      no stop clears them. */
  lemma OtherBlockFragmentsDiverge(loads: Parser, parse: Parser, f: string)
    ensures var msgs := OtherBlock(f) + [Tool(0, "t")] + [M.Stop(0)];
            && M.Process(loads, msgs).calls == [Call("t", f)]
            && U.Pump(parse, M.Process(loads, msgs).out).calls == [Call("t", "")]
            && (M.Process(loads, msgs).calls != U.Pump(parse, M.Process(loads, msgs).out).calls <==> f != "")
  {
    OtherBlockLeaves(loads, parse, f);
    BothSnoc(loads, parse, OtherBlock(f), Tool(0, "t"), ToolStart("t", "tool"));
    BothStop(loads, parse, OtherBlock(f) + [Tool(0, "t")], 0);
    assert f != "" ==> [Call("t", f)][0] != [Call("t", "")][0];
  }

  /** Unshared ids are needed too: the start of a second block under an open id empties the client's
      one buffer for both, and the engine keeps one for each. */
  lemma SharedIdDiverges(loads: Parser, parse: Parser, f: string)
    ensures var msgs := OpenTool("t", f) + [Tool(1, "t")] + [M.Stop(0)];
            && M.Process(loads, msgs).calls == [Call("t", f)]
            && U.Pump(parse, M.Process(loads, msgs).out).calls == [Call("t", "")]
            && (M.Process(loads, msgs).calls != U.Pump(parse, M.Process(loads, msgs).out).calls <==> f != "")
  {
    OpenToolHolds(loads, "t", f);
    ProcessSnoc(loads, OpenTool("t", f), Tool(1, "t"));
    ToolEventsMakeNoCall(parse, "t", f, "t");
    BothStop(loads, parse, OpenTool("t", f) + [Tool(1, "t")], 0);
    assert f != "" ==> [Call("t", f)][0] != [Call("t", "")][0];
  }
}
