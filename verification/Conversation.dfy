/** The messages of a conversation. */
module Conversation {

  datatype Role = System | User | Assistant | Tool

  datatype ToolCall = ToolCall(id: string, name: string)

  datatype Message = Message(role: Role, calls: seq<ToolCall>, toolCallId: string, name: string, content: string)
}
