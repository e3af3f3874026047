/** The tool adapter (tools.go): four tools that check their input, build
    one API request, hand it to the client and map the answer to tool
    output. A client call is a function parameter (`chat`, `generate`,
    `download`); a tool that rejects its input returns the same result
    whatever that function is, which is how "no client call" is stated. */
module Tools {
  import opened Wrappers
  import opened Types
  import opened Text
  import GlmClient

  const DefaultChatModel: string := "glm-4.7"

  const DefaultImageModel: string := "cogview-4-250304"

  const EmptyResponse: string := "(empty response)"

  const PromptRequiredText: string := "prompt is required. | prompt는 필수입니다. | promptは必須です。 | prompt为必填项。"

  const NoImageText: string := "No image generated. | 이미지 생성 결과가 없습니다. | 画像が生成されませんでした。 | 未生成图像。"

  const TemperatureRange: string := "temperature must be between 0.0 and 1.0"

  const MaxTokensRange: string := "max_tokens must be at least 1"

  const SearchEngine: string := "search_pro_jina"

  const SourcesHeader: string := "\n---\n**Sources:**"

  const ImageUrlNote: string := "Image URL (valid for 30 days): "

  // ----- tool inputs and outputs -----

  datatype ChatInput = ChatInput(prompt: string, model: string, systemMsg: string,
                                 temperature: Option<real>, maxTokens: Option<int>)

  datatype ThinkingInput = ThinkingInput(prompt: string, model: string, systemMsg: string, maxTokens: Option<int>)

  datatype WebSearchInput = WebSearchInput(prompt: string, model: string, systemMsg: string, maxTokens: Option<int>)

  datatype ImageGenInput = ImageGenInput(prompt: string, model: string, size: string, quality: string)

  datatype Content = TextContent(text: string) | ImageContent(data: seq<byte>, mimeType: string)

  datatype ToolResult = ToolResult(content: seq<Content>, isError: bool)

  /** The outcome of a tool's guard: a result returned without calling the
      client, or the request to send. */
  datatype Prepared<R> = Rejected(result: ToolResult) | Ready(request: R)

  /** The marked-error result for an empty prompt. */
  const PromptRequired: ToolResult := ToolResult([TextContent(PromptRequiredText)], true)

  function TextResult(text: string): ToolResult { ToolResult([TextContent(text)], false) }

  // ----- shared helpers -----

  /** The default model the three chat tools are registered with. */
  function RegisterTools(defaultModel: string): (chatModel: string)
    ensures chatModel != ""
    ensures defaultModel != "" ==> chatModel == defaultModel
    ensures defaultModel == "" ==> chatModel == "glm-4.7"
  {
    if defaultModel == "" then DefaultChatModel else defaultModel
  }

  /** The caller's model when given, the default otherwise. */
  function ResolveModel(input: string, defaultModel: string): (model: string)
    ensures input != "" ==> model == input
    ensures input == "" ==> model == defaultModel
  {
    if input != "" then input else defaultModel
  }

  /** A chat tool never sends an empty model name. */
  lemma ResolvedModelNonEmpty(input: string, defaultModel: string)
    ensures ResolveModel(input, RegisterTools(defaultModel)) != ""
  {
  }

  /** The image model, with its own default distinct from the chat default. */
  function ImageModel(input: string): (model: string)
    ensures model != ""
    ensures input != "" ==> model == input
    ensures input == "" ==> model == "cogview-4-250304"
  {
    if input == "" then DefaultImageModel else input
  }

  /** Temperature, when given, lies in [0.0, 1.0]; max_tokens, when given, is at
      least 1; the temperature is reported first when both are wrong. */
  function ValidateChatParams(temperature: Option<real>, maxTokens: Option<int>): (r: Outcome<string>)
    ensures r.Pass? <==>
      (temperature.None? || 0.0 <= temperature.value <= 1.0) && (maxTokens.None? || maxTokens.value >= 1)
    ensures temperature.Some? && !(0.0 <= temperature.value <= 1.0) ==> r == Fail(TemperatureRange)
    ensures (temperature.None? || 0.0 <= temperature.value <= 1.0) && maxTokens.Some? && maxTokens.value < 1
            ==> r == Fail(MaxTokensRange)
  {
    if temperature.Some? && (temperature.value < 0.0 || temperature.value > 1.0) then Fail(TemperatureRange)
    else if maxTokens.Some? && maxTokens.value < 1 then Fail(MaxTokensRange)
    else Pass
  }

  /** An optional system message, then the prompt as the one user message. */
  function BuildMessages(systemMsg: string, prompt: string): (m: seq<Message>)
    ensures systemMsg != "" ==> m == [Message("system", systemMsg), Message("user", prompt)]
    ensures systemMsg == "" ==> m == [Message("user", prompt)]
    ensures m != [] && m[|m| - 1] == Message("user", prompt)
    ensures forall i :: 0 <= i < |m| - 1 ==> m[i].role == "system" && m[i].content != ""
  {
    (if systemMsg != "" then [Message("system", systemMsg)] else []) + [Message("user", prompt)]
  }

  /** The first choice's content when there is one and it is not empty, the
      placeholder otherwise; the text is never empty. */
  function ExtractContent(resp: ChatResponse): (text: string)
    ensures text != ""
    ensures |resp.choices| > 0 && resp.choices[0].message.content != "" ==> text == resp.choices[0].message.content
    ensures !(|resp.choices| > 0 && resp.choices[0].message.content != "") ==> text == EmptyResponse
  {
    if |resp.choices| > 0 && resp.choices[0].message.content != "" then resp.choices[0].message.content
    else EmptyResponse
  }

  /** An error becomes a marked-error result with the text "Error: <detail>". */
  function ErrorResult(err: string): (r: ToolResult)
    ensures r.isError && r.content == [TextContent("Error: " + err)]
  {
    ToolResult([TextContent("Error: " + err)], true)
  }

  // ----- glm_chat -----

  function PrepareChat(input: ChatInput, defaultModel: string): (p: Prepared<ChatRequest>)
    ensures p.Ready? <==> input.prompt != "" && ValidateChatParams(input.temperature, input.maxTokens).Pass?
    ensures input.prompt == "" ==> p == Rejected(PromptRequired)
    ensures input.prompt != "" && ValidateChatParams(input.temperature, input.maxTokens).Fail? ==>
      p == Rejected(ErrorResult(ValidateChatParams(input.temperature, input.maxTokens).error))
    ensures p.Ready? ==>
      && input.prompt != "" && ValidateChatParams(input.temperature, input.maxTokens).Pass?
      && p.request.model == ResolveModel(input.model, defaultModel)
      && p.request.messages == BuildMessages(input.systemMsg, input.prompt)
      && !p.request.stream
      && p.request.temperature == input.temperature && p.request.maxTokens == input.maxTokens
      && p.request.thinking.None? && p.request.webSearch.None?
  {
    if input.prompt == "" then Rejected(PromptRequired)
    else match ValidateChatParams(input.temperature, input.maxTokens)
      case Fail(e) => Rejected(ErrorResult(e))
      case Pass => Ready(ChatRequest(ResolveModel(input.model, defaultModel),
                                     BuildMessages(input.systemMsg, input.prompt),
                                     false, input.temperature, input.maxTokens, None, None))
  }

  function ChatTool(input: ChatInput, defaultModel: string,
                    chat: ChatRequest -> Result<ChatResponse, string>): ToolResult
  {
    match PrepareChat(input, defaultModel)
    case Rejected(r) => r
    case Ready(req) =>
      match chat(req)
      case Failure(e) => ErrorResult(e)
      case Success(resp) => TextResult(ExtractContent(resp))
  }

  /** The chat tool flags an error exactly when the prompt is empty, the
      parameters are out of range, or the client fails; otherwise it answers
      with the text extracted from the response to the request it prepared. */
  lemma ChatToolOutcome(input: ChatInput, defaultModel: string, chat: ChatRequest -> Result<ChatResponse, string>)
    ensures ChatTool(input, defaultModel, chat).isError <==>
      || input.prompt == ""
      || ValidateChatParams(input.temperature, input.maxTokens).Fail?
      || chat(PrepareChat(input, defaultModel).request).Failure?
    ensures !ChatTool(input, defaultModel, chat).isError ==>
      ChatTool(input, defaultModel, chat).content
        == [TextContent(ExtractContent(chat(PrepareChat(input, defaultModel).request).value))]
    ensures PrepareChat(input, defaultModel).Ready? && chat(PrepareChat(input, defaultModel).request).Failure? ==>
      ChatTool(input, defaultModel, chat) == ErrorResult(chat(PrepareChat(input, defaultModel).request).error)
  {
  }

  /** Given content "Hello", the chat tool answers "Hello". */
  lemma ChatHelloExample(input: ChatInput, defaultModel: string, chat: ChatRequest -> Result<ChatResponse, string>,
                         resp: ChatResponse)
    requires input.prompt != "" && input.temperature.None? && input.maxTokens.None?
    requires |resp.choices| > 0 && resp.choices[0].message.content == "Hello"
    requires forall req :: chat(req) == Success(resp)
    ensures ChatTool(input, defaultModel, chat) == ToolResult([TextContent("Hello")], false)
  {
  }

  // ----- glm_chat_with_thinking -----

  function PrepareThinking(input: ThinkingInput, defaultModel: string): (p: Prepared<ChatRequest>)
    ensures p.Ready? <==> input.prompt != "" && ValidateChatParams(None, input.maxTokens).Pass?
    ensures input.prompt == "" ==> p == Rejected(PromptRequired)
    ensures input.prompt != "" && ValidateChatParams(None, input.maxTokens).Fail? ==>
      p == Rejected(ErrorResult(MaxTokensRange))
    ensures p.Ready? ==>
      && input.prompt != "" && (input.maxTokens.None? || input.maxTokens.value >= 1)
      && p.request.model == ResolveModel(input.model, defaultModel)
      && p.request.messages == BuildMessages(input.systemMsg, input.prompt)
      && !p.request.stream && p.request.temperature.None? && p.request.maxTokens == input.maxTokens
      && p.request.thinking == Some(Thinking("enabled")) && p.request.webSearch.None?
  {
    if input.prompt == "" then Rejected(PromptRequired)
    else match ValidateChatParams(None, input.maxTokens)
      case Fail(e) => Rejected(ErrorResult(e))
      case Pass => Ready(ChatRequest(ResolveModel(input.model, defaultModel),
                                     BuildMessages(input.systemMsg, input.prompt),
                                     false, None, input.maxTokens, Some(Thinking("enabled")), None))
  }

  function ThinkingBlock(reasoning: string): string { "<thinking>\n" + reasoning + "\n</thinking>" }

  /** The reasoning block when there is reasoning, then the answer when there
      is one; every part is non-empty. */
  function ThinkingParts(resp: ChatResponse): (parts: seq<string>)
    ensures forall i :: 0 <= i < |parts| ==> parts[i] != ""
  {
    if |resp.choices| == 0 then []
    else
      var msg := resp.choices[0].message;
      (if msg.reasoningContent != "" then [ThinkingBlock(msg.reasoningContent)] else [])
        + (if msg.content != "" then [msg.content] else [])
  }

  /** The joined parts, or the placeholder when they join to nothing. */
  function ThinkingText(resp: ChatResponse): (t: string)
    ensures t != ""
    ensures t != EmptyResponse ==> t == Join(ThinkingParts(resp), "\n\n")
  {
    var text := Join(ThinkingParts(resp), "\n\n");
    if text == "" then EmptyResponse else text
  }

  /** The four shapes of the thinking tool's output. */
  lemma ThinkingTextCases(resp: ChatResponse)
    ensures ThinkingText(resp) != ""
    ensures |resp.choices| == 0 ==> ThinkingText(resp) == EmptyResponse
    ensures |resp.choices| > 0 ==>
      var r := resp.choices[0].message.reasoningContent;
      var c := resp.choices[0].message.content;
      && (r != "" && c != "" ==> ThinkingText(resp) == "<thinking>\n" + r + "\n</thinking>\n\n" + c)
      && (r != "" && c == "" ==> ThinkingText(resp) == "<thinking>\n" + r + "\n</thinking>")
      && (r == "" && c != "" ==> ThinkingText(resp) == c)
      && (r == "" && c == "" ==> ThinkingText(resp) == EmptyResponse)
  {
    var parts := ThinkingParts(resp);
    JoinEmptyIff(parts, "\n\n");
    if |resp.choices| > 0 {
      var msg := resp.choices[0].message;
      if msg.reasoningContent != "" && msg.content != "" {
        assert parts == [ThinkingBlock(msg.reasoningContent), msg.content];
      }
    }
  }

  /** The placeholder appears exactly when there is nothing to show: no choice,
      or no reasoning and an answer that is empty or is itself the placeholder. */
  lemma ThinkingPlaceholderIff(resp: ChatResponse)
    ensures ThinkingText(resp) == EmptyResponse <==>
      || |resp.choices| == 0
      || (resp.choices[0].message.reasoningContent == ""
          && (resp.choices[0].message.content == "" || resp.choices[0].message.content == EmptyResponse))
  {
    ThinkingTextCases(resp);
    if |resp.choices| > 0 && resp.choices[0].message.reasoningContent != "" {
      var t := ThinkingText(resp);
      assert t[0] == '<';
      assert EmptyResponse[0] == '(';
    }
  }

  function ThinkingTool(input: ThinkingInput, defaultModel: string,
                        chat: ChatRequest -> Result<ChatResponse, string>): ToolResult
  {
    match PrepareThinking(input, defaultModel)
    case Rejected(r) => r
    case Ready(req) =>
      match chat(req)
      case Failure(e) => ErrorResult(e)
      case Success(resp) => TextResult(ThinkingText(resp))
  }

  /** The thinking tool flags an error exactly when the prompt is empty,
      max_tokens is below 1, or the client fails; a client error becomes its
      error result, and a response becomes its reasoning-and-answer text. */
  lemma ThinkingToolOutcome(input: ThinkingInput, defaultModel: string, chat: ChatRequest -> Result<ChatResponse, string>)
    ensures ThinkingTool(input, defaultModel, chat).isError <==>
      || input.prompt == ""
      || ValidateChatParams(None, input.maxTokens).Fail?
      || chat(PrepareThinking(input, defaultModel).request).Failure?
    ensures !ThinkingTool(input, defaultModel, chat).isError ==>
      ThinkingTool(input, defaultModel, chat).content
        == [TextContent(ThinkingText(chat(PrepareThinking(input, defaultModel).request).value))]
    ensures PrepareThinking(input, defaultModel).Ready? && chat(PrepareThinking(input, defaultModel).request).Failure? ==>
      ThinkingTool(input, defaultModel, chat) == ErrorResult(chat(PrepareThinking(input, defaultModel).request).error)
  {
  }

  /** With empty answer and empty reasoning the thinking tool answers the placeholder. */
  lemma ThinkingEmptyExample(input: ThinkingInput, defaultModel: string,
                             chat: ChatRequest -> Result<ChatResponse, string>, resp: ChatResponse)
    requires input.prompt != "" && input.maxTokens.None?
    requires |resp.choices| > 0 && resp.choices[0].message.content == "" && resp.choices[0].message.reasoningContent == ""
    requires forall req :: chat(req) == Success(resp)
    ensures ThinkingTool(input, defaultModel, chat) == ToolResult([TextContent("(empty response)")], false)
  {
    ThinkingTextCases(resp);
  }

  // ----- glm_web_search -----

  function PrepareWebSearch(input: WebSearchInput, defaultModel: string): (p: Prepared<ChatRequest>)
    ensures p.Ready? <==> input.prompt != "" && ValidateChatParams(None, input.maxTokens).Pass?
    ensures input.prompt == "" ==> p == Rejected(PromptRequired)
    ensures input.prompt != "" && ValidateChatParams(None, input.maxTokens).Fail? ==>
      p == Rejected(ErrorResult(MaxTokensRange))
    ensures p.Ready? ==>
      && input.prompt != "" && (input.maxTokens.None? || input.maxTokens.value >= 1)
      && p.request.model == ResolveModel(input.model, defaultModel)
      && p.request.messages == BuildMessages(input.systemMsg, input.prompt)
      && !p.request.stream && p.request.temperature.None? && p.request.maxTokens == input.maxTokens
      && p.request.thinking.None? && p.request.webSearch == Some(WebSearch(true, "search_pro_jina", ""))
  {
    if input.prompt == "" then Rejected(PromptRequired)
    else match ValidateChatParams(None, input.maxTokens)
      case Fail(e) => Rejected(ErrorResult(e))
      case Pass => Ready(ChatRequest(ResolveModel(input.model, defaultModel),
                                     BuildMessages(input.systemMsg, input.prompt),
                                     false, None, input.maxTokens, None, Some(WebSearch(true, SearchEngine, ""))))
  }

  /** "n. [title](link)" */
  function SourceLine(n: nat, ref: SearchRefer): string
  {
    NatToString(n) + ". [" + ref.title + "](" + ref.link + ")"
  }

  /** The lines for `refs`, numbered from `first` in the order received. */
  function SourceLines(refs: seq<SearchRefer>, first: nat): (lines: seq<string>)
    ensures |lines| == |refs|
    ensures forall i :: 0 <= i < |refs| ==> lines[i] == SourceLine(first + i, refs[i])
  {
    seq(|refs|, i requires 0 <= i < |refs| => SourceLine(first + i, refs[i]))
  }

  function References(resp: ChatResponse): seq<SearchRefer>
  {
    if resp.webSearch.Some? then resp.webSearch.value.refer else []
  }

  /** The extracted content, then the sources header and one numbered line
      per reference when there are references. */
  function WebSearchParts(resp: ChatResponse): seq<string>
  {
    [ExtractContent(resp)]
      + (if |References(resp)| > 0 then [SourcesHeader] + SourceLines(References(resp), 1) else [])
  }

  /** The parts joined by newlines: the answer always comes first. */
  function WebSearchOutput(resp: ChatResponse): (out: string)
    ensures ExtractContent(resp) <= out
  {
    JoinStartsWithFirst(WebSearchParts(resp), "\n");
    Join(WebSearchParts(resp), "\n")
  }

  /** The handler's loop: append the header and then one line per reference. */
  method WebSearchText(resp: ChatResponse) returns (text: string)
    ensures text == WebSearchOutput(resp)
  {
    var parts := [ExtractContent(resp)];
    if resp.webSearch.Some? && |resp.webSearch.value.refer| > 0 {
      var refer := resp.webSearch.value.refer;
      parts := parts + [SourcesHeader];
      for i := 0 to |refer|
        invariant parts == [ExtractContent(resp), SourcesHeader] + SourceLines(refer[..i], 1)
      {
        assert SourceLines(refer[..i + 1], 1) == SourceLines(refer[..i], 1) + [SourceLine(i + 1, refer[i])];
        parts := parts + [SourceLine(i + 1, refer[i])];
      }
      assert refer[..|refer|] == refer;
    }
    assert parts == WebSearchParts(resp);
    text := Join(parts, "\n");
  }

  /** The sources section written out line by line: each reference on its own
      line, numbered from `first`. */
  function SourcesSection(refs: seq<SearchRefer>, first: nat): string
  {
    if refs == [] then "" else "\n" + SourceLine(first, refs[0]) + SourcesSection(refs[1..], first + 1)
  }

  lemma SourceLinesCons(refs: seq<SearchRefer>, first: nat)
    requires refs != []
    ensures SourceLines(refs, first) == [SourceLine(first, refs[0])] + SourceLines(refs[1..], first + 1)
  {
    var lhs := SourceLines(refs, first);
    var rhs := [SourceLine(first, refs[0])] + SourceLines(refs[1..], first + 1);
    assert |lhs| == |rhs|;
    forall i | 0 <= i < |lhs| ensures lhs[i] == rhs[i] {
      if i > 0 {
        assert rhs[i] == SourceLines(refs[1..], first + 1)[i - 1];
      }
    }
  }

  lemma {:induction false} JoinSourceLines(head: string, refs: seq<SearchRefer>, first: nat)
    ensures Join([head] + SourceLines(refs, first), "\n") == head + SourcesSection(refs, first)
    decreases |refs|
  {
    if refs == [] {
      assert [head] + SourceLines(refs, first) == [head];
    } else {
      var line := SourceLine(first, refs[0]);
      var rest := SourceLines(refs[1..], first + 1);
      var all := [head] + SourceLines(refs, first);
      SourceLinesCons(refs, first);
      assert all[1..] == [line] + rest;
      JoinSourceLines(line, refs[1..], first + 1);
      assert Join(all, "\n") == head + "\n" + Join(all[1..], "\n");
      assert SourcesSection(refs, first) == "\n" + line + SourcesSection(refs[1..], first + 1);
    }
  }

  /** The web-search output is the extracted content, followed, when the
      response carries references, by "\n" + the header and "\n<i>. [title](link)"
      for i = 1..n in the order received. */
  lemma WebSearchOutputShape(resp: ChatResponse)
    ensures |References(resp)| == 0 ==> WebSearchOutput(resp) == ExtractContent(resp)
    ensures |References(resp)| > 0 ==>
      WebSearchOutput(resp) == ExtractContent(resp) + "\n" + SourcesHeader + SourcesSection(References(resp), 1)
  {
    var refs := References(resp);
    if |refs| > 0 {
      var parts := WebSearchParts(resp);
      assert parts[1..] == [SourcesHeader] + SourceLines(refs, 1);
      JoinSourceLines(SourcesHeader, refs, 1);
    }
  }

  /** Two references give a "Sources:" section with two numbered links in order. */
  lemma WebSearchTwoSourcesExample(resp: ChatResponse)
    requires |resp.choices| > 0 && resp.choices[0].message.content == "Answer"
    requires resp.webSearch == Some(WebSearchResult([SearchRefer("A", "https://a", ""), SearchRefer("B", "https://b", "")]))
    ensures WebSearchOutput(resp) == "Answer" + "\n" + SourcesHeader + ("\n" + "1. [A](https://a)" + "\n" + "2. [B](https://b)")
  {
    WebSearchOutputShape(resp);
    var refs := References(resp);
    assert NatToString(1) == "1" && NatToString(2) == "2";
    var first := SourceLine(1, refs[0]);
    var second := SourceLine(2, refs[1]);
    assert first == "1. [A](https://a)";
    assert second == "2. [B](https://b)";
    assert refs[1..][1..] == [];
    assert SourcesSection(refs[1..], 2) == "\n" + second;
    assert SourcesSection(refs, 1) == "\n" + first + "\n" + second;
    assert ExtractContent(resp) == "Answer";
  }

  function WebSearchTool(input: WebSearchInput, defaultModel: string,
                         chat: ChatRequest -> Result<ChatResponse, string>): ToolResult
  {
    match PrepareWebSearch(input, defaultModel)
    case Rejected(r) => r
    case Ready(req) =>
      match chat(req)
      case Failure(e) => ErrorResult(e)
      case Success(resp) => TextResult(WebSearchOutput(resp))
  }

  /** The web-search tool flags an error exactly when the prompt is empty,
      max_tokens is below 1, or the client fails; a client error becomes its
      error result, and a response becomes the answer with its sources. */
  lemma WebSearchToolOutcome(input: WebSearchInput, defaultModel: string, chat: ChatRequest -> Result<ChatResponse, string>)
    ensures WebSearchTool(input, defaultModel, chat).isError <==>
      || input.prompt == ""
      || ValidateChatParams(None, input.maxTokens).Fail?
      || chat(PrepareWebSearch(input, defaultModel).request).Failure?
    ensures !WebSearchTool(input, defaultModel, chat).isError ==>
      WebSearchTool(input, defaultModel, chat).content
        == [TextContent(WebSearchOutput(chat(PrepareWebSearch(input, defaultModel).request).value))]
    ensures PrepareWebSearch(input, defaultModel).Ready? && chat(PrepareWebSearch(input, defaultModel).request).Failure? ==>
      WebSearchTool(input, defaultModel, chat) == ErrorResult(chat(PrepareWebSearch(input, defaultModel).request).error)
  {
  }

  // ----- glm_image_gen -----

  function PrepareImage(input: ImageGenInput): (p: Prepared<ImageRequest>)
    ensures input.prompt == "" <==> p == Rejected(PromptRequired)
    ensures p.Rejected? <==> input.prompt == ""
    ensures p.Ready? ==> p.request == ImageRequest(ImageModel(input.model), input.prompt, input.quality, input.size)
  {
    if input.prompt == "" then Rejected(PromptRequired)
    else Ready(ImageRequest(ImageModel(input.model), input.prompt, input.quality, input.size))
  }

  /** No image entries is a marked error. Otherwise the first entry's URL is
      downloaded: the image comes first when that succeeded, and the URL note
      always comes last. */
  function ImageOutput(resp: ImageResponse, download: string -> Result<GlmClient.Downloaded, string>): (r: ToolResult)
    ensures |resp.data| == 0 ==> r == ToolResult([TextContent(NoImageText)], true)
    ensures |resp.data| > 0 ==>
      var url := resp.data[0].url;
      && !r.isError
      && r.content != [] && r.content[|r.content| - 1] == TextContent(ImageUrlNote + url)
      && (r.content[0].ImageContent? <==> download(url).Success?)
      && (download(url).Success? ==>
            r.content == [ImageContent(download(url).value.data, download(url).value.mimeType), TextContent(ImageUrlNote + url)])
      && (download(url).Failure? ==> r.content == [TextContent(ImageUrlNote + url)])
  {
    if |resp.data| == 0 then ToolResult([TextContent(NoImageText)], true)
    else
      var url := resp.data[0].url;
      var inline := match download(url)
        case Success(d) => [ImageContent(d.data, d.mimeType)]
        case Failure(_) => [];
      ToolResult(inline + [TextContent(ImageUrlNote + url)], false)
  }

  function ImageGenTool(input: ImageGenInput,
                        generate: ImageRequest -> Result<ImageResponse, string>,
                        download: string -> Result<GlmClient.Downloaded, string>): ToolResult
  {
    match PrepareImage(input)
    case Rejected(r) => r
    case Ready(req) =>
      match generate(req)
      case Failure(e) => ErrorResult(e)
      case Success(resp) => ImageOutput(resp, download)
  }

  /** A response without image entries is reported without any download. */
  lemma NoImageNoDownload(input: ImageGenInput, generate: ImageRequest -> Result<ImageResponse, string>,
                          download1: string -> Result<GlmClient.Downloaded, string>,
                          download2: string -> Result<GlmClient.Downloaded, string>)
    requires input.prompt != ""
    requires generate(PrepareImage(input).request).Success? && |generate(PrepareImage(input).request).value.data| == 0
    ensures ImageGenTool(input, generate, download1) == ImageGenTool(input, generate, download2)
    ensures ImageGenTool(input, generate, download1) == ToolResult([TextContent(NoImageText)], true)
  {
  }

  /** Wired to the client, an upstream URL that fails the SSRF check is never
      fetched, and the tool still succeeds with the URL note alone. */
  lemma UnsafeImageUrlDegrades(input: ImageGenInput, generate: ImageRequest -> Result<ImageResponse, string>,
                               c: GlmClient.Client, lib: GlmClient.UrlLib, net: GlmClient.HttpRequest -> GlmClient.Exchange)
    requires input.prompt != ""
    requires generate(PrepareImage(input).request).Success? && |generate(PrepareImage(input).request).value.data| > 0
    requires GlmClient.ValidateImageURL(generate(PrepareImage(input).request).value.data[0].url, lib).Fail?
    ensures ImageGenTool(input, generate, u => GlmClient.DownloadImage(c, u, lib, net))
            == ToolResult([TextContent(ImageUrlNote + generate(PrepareImage(input).request).value.data[0].url)], false)
  {
    var url := generate(PrepareImage(input).request).value.data[0].url;
    GlmClient.DownloadValidatesFirst(c, url, lib, net, net);
  }

  /** The image tool flags an error exactly when the prompt is empty, the
      generation fails or the response holds no image; a generated response
      is rendered by ImageOutput with the download function. */
  lemma ImageGenToolOutcome(input: ImageGenInput,
                            generate: ImageRequest -> Result<ImageResponse, string>,
                            download: string -> Result<GlmClient.Downloaded, string>)
    ensures ImageGenTool(input, generate, download).isError <==>
      || input.prompt == ""
      || generate(PrepareImage(input).request).Failure?
      || |generate(PrepareImage(input).request).value.data| == 0
    ensures input.prompt != "" && generate(PrepareImage(input).request).Failure? ==>
      ImageGenTool(input, generate, download) == ErrorResult(generate(PrepareImage(input).request).error)
    ensures input.prompt != "" && generate(PrepareImage(input).request).Success? ==>
      ImageGenTool(input, generate, download) == ImageOutput(generate(PrepareImage(input).request).value, download)
  {
  }

  /** Wired to the client, an accepted URL answered with a readable 200 is
      shown inline: the capped bytes with their MIME type, then the URL note. */
  lemma SafeImageUrlInlined(input: ImageGenInput, generate: ImageRequest -> Result<ImageResponse, string>,
                            c: GlmClient.Client, lib: GlmClient.UrlLib, net: GlmClient.HttpRequest -> GlmClient.Exchange)
    requires input.prompt != ""
    requires generate(PrepareImage(input).request).Success? && |generate(PrepareImage(input).request).value.data| > 0
    requires var url := generate(PrepareImage(input).request).value.data[0].url;
             var x := net(GlmClient.DownloadRequest(url));
             && GlmClient.ValidateImageURL(url, lib).Pass?
             && x.Received? && x.status == 200
             && GlmClient.ReadLimited(x.body, x.readFailure, GlmClient.MaxImageDownload).Success?
    ensures var url := generate(PrepareImage(input).request).value.data[0].url;
            var x := net(GlmClient.DownloadRequest(url));
            ImageGenTool(input, generate, u => GlmClient.DownloadImage(c, u, lib, net))
              == ToolResult([ImageContent(GlmClient.ReadLimited(x.body, x.readFailure, GlmClient.MaxImageDownload).value,
                                          GlmClient.MimeTypeOrDefault(x.contentType)),
                             TextContent(ImageUrlNote + url)], false)
  {
  }

  // ----- rejections before any client call -----

  /** An empty prompt gives the marked prompt-required result, whatever the
      client would have answered. */
  lemma EmptyPromptChat(input: ChatInput, defaultModel: string, chat: ChatRequest -> Result<ChatResponse, string>)
    requires input.prompt == ""
    ensures ChatTool(input, defaultModel, chat) == PromptRequired
    ensures PromptRequired.isError && PromptRequired.content == [TextContent(PromptRequiredText)]
  {
  }

  lemma EmptyPromptThinking(input: ThinkingInput, defaultModel: string, chat: ChatRequest -> Result<ChatResponse, string>)
    requires input.prompt == ""
    ensures ThinkingTool(input, defaultModel, chat) == PromptRequired
  {
  }

  lemma EmptyPromptWebSearch(input: WebSearchInput, defaultModel: string, chat: ChatRequest -> Result<ChatResponse, string>)
    requires input.prompt == ""
    ensures WebSearchTool(input, defaultModel, chat) == PromptRequired
  {
  }

  lemma EmptyPromptImage(input: ImageGenInput, generate: ImageRequest -> Result<ImageResponse, string>,
                         download: string -> Result<GlmClient.Downloaded, string>)
    requires input.prompt == ""
    ensures ImageGenTool(input, generate, download) == PromptRequired
  {
  }

  /** Out-of-range temperature or max_tokens is rejected by glm_chat with the
      validation error, the same for every client. */
  lemma InvalidParamsChat(input: ChatInput, defaultModel: string,
                          chat1: ChatRequest -> Result<ChatResponse, string>,
                          chat2: ChatRequest -> Result<ChatResponse, string>)
    requires input.prompt != "" && ValidateChatParams(input.temperature, input.maxTokens).Fail?
    ensures ChatTool(input, defaultModel, chat1) == ChatTool(input, defaultModel, chat2)
    ensures ChatTool(input, defaultModel, chat1) == ErrorResult(ValidateChatParams(input.temperature, input.maxTokens).error)
  {
  }

  /** The thinking tool checks max_tokens only, before any client call. */
  lemma InvalidParamsThinking(input: ThinkingInput, defaultModel: string,
                              chat1: ChatRequest -> Result<ChatResponse, string>,
                              chat2: ChatRequest -> Result<ChatResponse, string>)
    requires input.prompt != "" && ValidateChatParams(None, input.maxTokens).Fail?
    ensures ThinkingTool(input, defaultModel, chat1) == ThinkingTool(input, defaultModel, chat2)
    ensures ThinkingTool(input, defaultModel, chat1) == ErrorResult(MaxTokensRange)
  {
  }

  /** Likewise the web-search tool. */
  lemma InvalidParamsWebSearch(input: WebSearchInput, defaultModel: string,
                               chat1: ChatRequest -> Result<ChatResponse, string>,
                               chat2: ChatRequest -> Result<ChatResponse, string>)
    requires input.prompt != "" && ValidateChatParams(None, input.maxTokens).Fail?
    ensures WebSearchTool(input, defaultModel, chat1) == WebSearchTool(input, defaultModel, chat2)
    ensures WebSearchTool(input, defaultModel, chat1) == ErrorResult(MaxTokensRange)
  {
  }
}
