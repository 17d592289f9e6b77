/** The events that pass from the engine through the backend to the web client. */
module Protocol {
  import opened Wrappers

  /** A JSON value, by its canonical text. */
  datatype Json = Json(canonical: string)

  /** The two kinds of streamed prose: `text.*` and `thinking.*` events. */
  datatype Lane = Text | Thinking

  /** An absent name or message is the empty string, which the backend leaves out of its JSON. */
  datatype Event =
    | BlockStart(lane: Lane, id: string)
    | BlockDelta(lane: Lane, id: string, text: string)
    | BlockStop(lane: Lane, id: string)
    | ToolStart(id: string, name: string)
    | ToolInputDelta(id: string, json: string)
    | ToolInputDone(id: string, name: string, input: Option<Json>)
    | ToolResult(id: string, result: string)
    | AgentStep(step: nat, tool: string)
    | Result(status: string, sessionId: string)
    | Conversation(id: string)
    | Error(message: string)

  /** The raw input text a tool call was rebuilt from. */
  datatype Call = Call(id: string, raw: string)

  /** The tool and the text of a tool result. */
  function ToolResultOf(e: Event): seq<(string, string)> { if e.ToolResult? then [(e.id, e.result)] else [] }

  function Lookup<K, V>(m: map<K, V>, k: K, default: V): V { if k in m then m[k] else default }
}
