/** The request and response records exchanged with the GLM HTTP API
    (types.go). A Go pointer field becomes an Option; `omitempty`
    string fields stay plain strings, empty meaning "not sent". */
module Types {
  import opened Wrappers

  /** Bytes as they cross the wire. */
  type byte = bv8

  // ----- chat completion -----

  datatype Message = Message(role: string, content: string)

  /** The thinking toggle; `kind` is the JSON field "type" ("enabled" or "disabled"). */
  datatype Thinking = Thinking(kind: string)

  datatype WebSearch = WebSearch(enable: bool, searchEngine: string, searchResult: string)

  datatype ChatRequest = ChatRequest(
    model: string,
    messages: seq<Message>,
    stream: bool,
    temperature: Option<real>,
    maxTokens: Option<int>,
    thinking: Option<Thinking>,
    webSearch: Option<WebSearch>)

  datatype FunctionCall = FunctionCall(name: string, arguments: string)

  /** `kind` is the JSON field "type". */
  datatype ToolCall = ToolCall(id: string, kind: string, call: FunctionCall)

  datatype ResponseMessage = ResponseMessage(
    role: string,
    content: string,
    reasoningContent: string,
    toolCalls: seq<ToolCall>)

  datatype Choice = Choice(index: int, finishReason: string, message: ResponseMessage)

  datatype Usage = Usage(promptTokens: int, completionTokens: int, totalTokens: int)

  datatype SearchRefer = SearchRefer(title: string, link: string, content: string)

  datatype WebSearchResult = WebSearchResult(refer: seq<SearchRefer>)

  datatype ChatResponse = ChatResponse(
    id: string,
    created: int,
    model: string,
    choices: seq<Choice>,
    usage: Usage,
    webSearch: Option<WebSearchResult>)

  // ----- image generation -----

  datatype ImageRequest = ImageRequest(model: string, prompt: string, quality: string, size: string)

  datatype ImageData = ImageData(url: string)

  datatype ImageResponse = ImageResponse(created: int, data: seq<ImageData>)

  // ----- error envelope -----

  datatype ErrorDetail = ErrorDetail(code: string, message: string)

  datatype ErrorResponse = ErrorResponse(error: ErrorDetail)
}
