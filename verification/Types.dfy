/** The value types shared by providers, agent loop and conversation store. */
module Types {
  import opened Text

  /** A JSON value; its text form is left abstract. */
  datatype Json =
    | JNull
    | JBool(b: bool)
    | JNumber(n: int)
    | JString(s: string)
    | JArray(items: seq<Json>)
    | JObject(fields: map<string, Json>)
  {
    /** `json::size()`: elements of a container, 0 for null, 1 for a scalar. */
    function Size(): nat {
      match this
      case JNull => 0
      case JArray(items) => |items|
      case JObject(fields) => |fields|
      case _ => 1
    }
  }

  datatype Role = System | User | Assistant | Tool

  datatype ToolCall = ToolCall(id: string, name: string, arguments: Json)

  datatype Message = Message(
    role: Role,
    content: string,
    name: Option<string>,
    toolCalls: Option<seq<ToolCall>>,
    toolCallId: Option<string>,
    mode: string,
    planFile: string)

  function Plain(role: Role, content: string): Message {
    Message(role, content, None, None, None, "", "")
  }

  datatype Usage = Usage(inputTokens: int, outputTokens: int)

  datatype ChunkType = Content | ToolCallBegin | ToolCallDelta | ToolCallEnd | Done | Error

  datatype StreamChunk = StreamChunk(
    kind: ChunkType,
    data: string,
    toolCall: Option<ToolCall>,
    usage: Option<Usage>,
    finishReason: Option<string>)

  function Chunk(kind: ChunkType, data: string): StreamChunk {
    StreamChunk(kind, data, None, None, None)
  }

  function CallChunk(kind: ChunkType, call: ToolCall): StreamChunk {
    StreamChunk(kind, "", Some(call), None, None)
  }
}
