/** The chat messages and tool calls exchanged with the inference endpoint. */
module Chat {

  /** A tool call requested by the model; `kind` is the JSON field `type`, `arguments` is JSON text. */
  datatype ToolCall = ToolCall(id: string, kind: string, name: string, arguments: string)

  /** A chat message; `toolCalls` is empty when the model asked for no tool. */
  datatype Message = Message(role: string, content: string, toolCalls: seq<ToolCall>)
}
