# GLM tool server: a Dafny model of its client and tool adapter

The Go program exposes four tools (`glm_chat`, `glm_chat_with_thinking`,
`glm_web_search`, `glm_image_gen`) to a tool-calling host. Each tool turns into
one call to the Z.AI GLM HTTP API. This project models the decision logic
around those calls and proves what it promises.

- `wrappers.dfy`: `Option`, `Result` and `Outcome`.
- `types.dfy`: the request and response records of `types.go`. A Go pointer
  field becomes an `Option`.
- `text.dfy`: Go's `strings.Join`, and `%d` formatting with its inverse
  (`IntValue(IntToString(i)) == i`).
- `glm_client.dfy` (module `GlmClient`): client construction, the two JSON API
  calls, the image download, the SSRF check and error normalisation.
- `tools.dfy` (module `Tools`): input checks, model defaulting, message
  construction and the mapping from a response to tool output, for each tool.

What the Go code hands to libraries comes in as a parameter:

- the HTTP transport: `net: HttpRequest -> Exchange`;
- the JSON decoders: the `Codec` record;
- `url.Parse`/`u.Hostname()` and `net.ParseIP`: the `UrlLib` record;
- in the tools, the client calls: `chat`, `generate` and `download`.

"No client call" is stated as independence: when a tool rejects its input, its
result is the same for every client function. In the same way, a URL the SSRF
check refuses gives the same error for every transport.

Each handler is split in two. `Prepare*` holds the guard and builds the request;
its `Rejected` branch is the path on which no call happens. The output mapping
(`ExtractContent`, `ThinkingText`, `WebSearchOutput`, `ImageOutput`) comes after
the call. The web-search handler builds its sources list in a loop. That loop is
the method `Tools.WebSearchText`, proved equal to the function `WebSearchOutput`.
A lemma then relates `WebSearchOutput` to an independent line-by-line rendering,
`SourcesSection`.

IP classification follows Go's `net.IP` methods. `To4` turns an IPv4-mapped
16-byte address back into IPv4. Then come loopback (127/8, `::1`), private
(10/8, 172.16/12, 192.168/16, fc00::/7), link-local unicast (169.254/16,
fe80::/10) and link-local multicast (224.0.0/24, ff02::/16 with any flags
nibble).

Two behaviours of the code are easy to misread:

- For a non-200 reply without a usable error envelope, the error is only
  "GLM API returned status N": the response body is never part of the text
  (glmclient.go:183).
- The thinking tool shows "(empty response)" when there is no choice, or when
  both reasoning and content are empty. It also shows it, verbatim, when there
  is no reasoning and the upstream content is itself "(empty response)".
  `ThinkingPlaceholderIff` states all three cases.

Further behaviour the proofs make explicit:

- The unspecified address 0.0.0.0 is in none of the four blocked classes, so it
  passes the SSRF check (`PrivateRangeBoundary`).
- In the API calls the body is read before the status is checked. In the
  download the status is checked first (`ApiCallReadBeforeStatus`,
  `DownloadStatusBeforeRead`).
- A body longer than the cap is read as exactly its first cap bytes, even when
  the stream would fail later (`ReadLimited`).

## Model

| member | source | states |
|---|---|---|
| `Text.NatToString` | tools.go:198 | `%d` of a natural number: a non-empty digit string with no leading zero and with value exactly n |
| `Text.IntToStringRoundTrip` | glmclient.go:183 | the integer written by `%d` is recovered exactly from its text |
| `Text.JoinEmptyIff` | tools.go:148 | joining non-empty parts gives "" exactly when there are no parts |
| `GlmClient.NewGLMClient` | glmclient.go:32-43 | an empty base URL becomes the default endpoint, any other is kept verbatim; the key is kept and the timeout is 120 s; the base URL is never empty |
| `GlmClient.DefaultClientEndpoints` | glmclient.go:21-35 | the POST requests of a client built without an override go to the default host's /chat/completions and /images/generations |
| `GlmClient.PostRequest` | glmclient.go:51-56 | an API request is a POST to base URL + path that carries the JSON content type and the bearer credential |
| `GlmClient.ReadLimited` | glmclient.go:64 | a body at or over the cap reads as exactly its first cap bytes; a read fails exactly when the stream fails before the cap, with the stream's error; a body within the cap is returned whole |
| `GlmClient.ParseAPIError` | glmclient.go:178-184 | an envelope with a message gives "GLM API error (code): message", anything else "GLM API returned status N"; the body is not an input |
| `GlmClient.ParseAPIErrorStatusRecoverable` | glmclient.go:183 | the status fallback cannot be confused with an upstream message, and it carries back the exact status code |
| `GlmClient.ApiCall` | glmclient.go:58-77 | a success is a 200 reply whose capped body the decoder turned into exactly that value, and a 200 reply whose capped body decodes is that success |
| `GlmClient.ChatCompletion` | glmclient.go:45-78 | a chat response is exactly the decoding of the body capped at 10 MiB of a 200 reply to the authenticated POST to base + "/chat/completions"; such a reply whose capped body decodes always succeeds |
| `GlmClient.ImageGeneration` | glmclient.go:80-113 | an image response is exactly the decoding of the body capped at 10 MiB of a 200 reply to the authenticated POST to base + "/images/generations"; such a reply whose capped body decodes always succeeds |
| `GlmClient.ApiCallSendsOnlyItsRequest` | glmclient.go:51-58 | the result depends on the transport only through the one request it sends |
| `GlmClient.ApiCallStatusBeforeDecode` | glmclient.go:69-71 | a non-200 status goes to ParseAPIError on the capped body, and the success decoder is never consulted |
| `GlmClient.ApiCallReadBeforeStatus` | glmclient.go:64-71 | a read failure before the cap is reported as "read response: ..." whatever the status |
| `GlmClient.ApiCallDecodesCappedBody` | glmclient.go:64-77 | on a readable 200 reply the result is the decoder's value for the body capped at 10485760 bytes, or "unmarshal response: " + the decoder's error |
| `GlmClient.ApiCallTransportFailures` | glmclient.go:51-61 | a request that cannot be built fails as "create request: " + cause, one that cannot be sent as "send request: " + cause |
| `GlmClient.ValidateImageURL` | glmclient.go:149-175 | accepted exactly when the URL parses, the scheme is "https", the host is not a loopback name, and any IP literal host is none of the four internal classes; every refusal has one of the four fixed reasons |
| `GlmClient.NonHttpsRejected` | glmclient.go:155-157 | every scheme other than exactly "https" is refused for that reason, whatever the host |
| `GlmClient.LoopbackNamesRejected` | glmclient.go:159-164 | "localhost", "::1" and every host starting "127." are refused as loopback before the IP parser is asked |
| `GlmClient.IPLiteralHosts` | glmclient.go:166-172 | an IP literal host is accepted exactly when it is not loopback, private, link-local unicast or link-local multicast |
| `GlmClient.NamesAreNotResolved` | glmclient.go:166-174 | a host that is no IP literal and no loopback name passes: names are not resolved |
| `GlmClient.PrivateAddressExample` | glmclient.go:166-172 | https://10.0.0.5/x is refused as internal |
| `GlmClient.LoopbackPrefixExample` | glmclient.go:162 | https://127.foo/ is refused although it is no IP literal |
| `GlmClient.PublicNameExamples` | glmclient.go:155-174 | http://example.com is refused; https://example.com/image.png is accepted |
| `GlmClient.IPv4Classes` | glmclient.go:169 | for every IPv4 address: loopback iff 127/8, private iff 10/8, 172.16/12 or 192.168/16, link-local unicast iff 169.254/16, link-local multicast iff 224.0.0/24 |
| `GlmClient.IPv6Classes` | glmclient.go:169 | for every 16-byte address holding no IPv4 address: loopback iff ::1, private iff fc00::/7, link-local unicast iff fe80::/10, link-local multicast iff ff02::/16 with any flags nibble |
| `GlmClient.PrivateRangeBoundary` | glmclient.go:169 | 172.31.255.1 is private and 172.32.0.1 is not; 169.254.169.254 is internal; ::1 is loopback and 128.0.0.1 is not; 0.0.0.0 is not internal |
| `GlmClient.DownloadRequest` | glmclient.go:120 | a download is a GET of the URL itself, with no body and no Authorization header |
| `GlmClient.MimeTypeOrDefault` | glmclient.go:140-143 | the Content-Type header when non-empty, "image/png" otherwise; never empty |
| `GlmClient.DownloadImage` | glmclient.go:115-146 | a refused URL gives "invalid image URL: reason"; a success needs an accepted URL and a 200 reply, and holds exactly the body capped at 50 MiB with the header MIME type or "image/png"; an accepted URL with a readable 200 reply always succeeds |
| `GlmClient.DownloadOutcomes` | glmclient.go:120-145 | past the SSRF check: "create download request: " or "download image: " + cause for transport failures, "read image data: " + cause for a failing read, and otherwise the capped body with its MIME type |
| `GlmClient.DownloadValidatesFirst` | glmclient.go:116-118 | a refused URL is never fetched: the same error for every transport |
| `GlmClient.DownloadSendsOnlyItsRequest` | glmclient.go:120-125 | the download depends on the transport only through the GET of that URL |
| `GlmClient.DownloadStatusBeforeRead` | glmclient.go:131-133 | a non-200 status is an error that carries that exact status, even when the body stream would fail |
| `Tools.RegisterTools` | tools.go:45-53 | an empty default chat model becomes "glm-4.7", any other is kept; the result is never empty |
| `Tools.ResolveModel` | tools.go:55-60 | the caller's model when non-empty, the default otherwise |
| `Tools.ResolvedModelNonEmpty` | tools.go:45-60 | a chat tool never sends an empty model name |
| `Tools.ImageModel` | tools.go:220-223 | an empty image model becomes "cogview-4-250304", any other is kept |
| `Tools.ValidateChatParams` | tools.go:62-70 | passes exactly when the temperature is absent or in [0.0, 1.0] and max_tokens is absent or at least 1; the temperature error is reported first |
| `Tools.BuildMessages` | tools.go:269-276 | exactly [system, user] with a non-empty system message, else exactly [user]; the last message is the prompt verbatim and every earlier one is a non-empty system message |
| `Tools.ExtractContent` | tools.go:278-283 | the first choice's content when it exists and is non-empty, "(empty response)" otherwise; never empty |
| `Tools.ErrorResult` | tools.go:285-290 | a marked-error result holding the single text "Error: " + detail |
| `Tools.PrepareChat` | tools.go:77-94 | a request is sent exactly when the prompt is non-empty and the parameters are valid; empty prompt: the prompt-required result; bad parameters: the validation error; the request is non-streaming with the resolved model, built messages, and the caller's temperature and max_tokens |
| `Tools.ChatToolOutcome` | tools.go:76-105 | the glm_chat handler's result is error-flagged exactly when the prompt is empty, the parameters are out of range, or the client fails; a client error becomes its error result; otherwise it is the single text extracted from the response to the prepared request |
| `Tools.ChatHelloExample` | tools.go:101-104 | a reply whose content is "Hello" gives the output "Hello" |
| `Tools.PrepareThinking` | tools.go:113-130 | a request is sent exactly when the prompt is non-empty and max_tokens is absent or at least 1; the request enables thinking and has no temperature |
| `Tools.ThinkingParts` | tools.go:137-146 | every part of the thinking output is non-empty |
| `Tools.ThinkingTextCases` | tools.go:137-151 | the output is the thinking block, then a blank line, then the answer, each present only when non-empty; the placeholder when both are missing; never empty |
| `Tools.ThinkingPlaceholderIff` | tools.go:148-151 | the output is "(empty response)" exactly when there is no choice, or there is no reasoning and the content is empty or is that placeholder |
| `Tools.ThinkingText` | tools.go:148-151 | the thinking output is never empty, and anything but the placeholder is the parts joined by a blank line |
| `Tools.ThinkingToolOutcome` | tools.go:112-156 | the thinking handler's result is error-flagged exactly when the prompt is empty, max_tokens is below 1, or the client fails; a client error becomes its error result; otherwise it is the single thinking text of the response |
| `Tools.ThinkingEmptyExample` | tools.go:132-155 | empty content and empty reasoning give "(empty response)" |
| `Tools.PrepareWebSearch` | tools.go:164-184 | a request is sent exactly when the prompt is non-empty and max_tokens is absent or at least 1; the request enables web search with engine "search_pro_jina" |
| `Tools.SourceLines` | tools.go:197-199 | one line per reference, in the order received, the i-th reading "(first + i). [title](link)" |
| `Tools.WebSearchText` | tools.go:191-203 | the handler's loop yields exactly the web-search output |
| `Tools.WebSearchOutputShape` | tools.go:191-203 | the output is the extracted content, then, only when there are references, a newline, the Sources header and "\n<i>. [title](link)" for i = 1..n |
| `Tools.WebSearchOutput` | tools.go:191-203 | the web-search output always starts with the extracted answer |
| `Tools.WebSearchToolOutcome` | tools.go:163-205 | the web-search handler's result is error-flagged exactly when the prompt is empty, max_tokens is below 1, or the client fails; a client error becomes its error result; otherwise it is the single web-search text of the response |
| `Tools.WebSearchTwoSourcesExample` | tools.go:195-203 | two references give the Sources section with "1. [A](https://a)" then "2. [B](https://b)" |
| `Tools.PrepareImage` | tools.go:213-230 | rejected exactly when the prompt is empty; otherwise the request carries the defaulted model, prompt, quality and size |
| `Tools.ImageOutput` | tools.go:237-263 | no entries give the marked "No image generated" error; otherwise not an error, an image first exactly when the download succeeded, and the URL note for the first entry always last |
| `Tools.ImageGenToolOutcome` | tools.go:212-264 | the image handler's result is error-flagged exactly when the prompt is empty, generation fails or no image came back; a generation error becomes its error result; a generated response is rendered by ImageOutput |
| `Tools.SafeImageUrlInlined` | tools.go:248-259 | wired to DownloadImage, an accepted URL with a readable 200 reply gives the inline image (capped bytes and MIME type) followed by the URL note, with no error flag |
| `Tools.NoImageNoDownload` | tools.go:237-242 | a response without entries is reported the same whatever the download would do |
| `Tools.UnsafeImageUrlDegrades` | tools.go:244-263 | wired to DownloadImage, an upstream URL the SSRF check refuses is never fetched, and the tool still succeeds with the URL note alone |
| `Tools.EmptyPromptChat` | tools.go:77-82 | glm_chat answers an empty prompt with the marked prompt-required text, whatever the client would answer |
| `Tools.EmptyPromptThinking` | tools.go:113-118 | the thinking tool answers an empty prompt with the prompt-required result, whatever the client would answer |
| `Tools.EmptyPromptWebSearch` | tools.go:164-169 | the web-search tool answers an empty prompt with the prompt-required result, whatever the client would answer |
| `Tools.EmptyPromptImage` | tools.go:213-218 | the image tool answers an empty prompt with the prompt-required result, whatever generation or download would answer |
| `Tools.InvalidParamsChat` | tools.go:83-85 | out-of-range temperature or max_tokens give the validation error, the same for every client |
| `Tools.InvalidParamsThinking` | tools.go:119-121 | max_tokens below 1 gives the max_tokens error, the same for every client |
| `Tools.InvalidParamsWebSearch` | tools.go:170-172 | max_tokens below 1 gives the max_tokens error, the same for every client |

## Left out

- HTTP transport: `http.Client.Do`, request headers on the wire, the 120 s timeout and context cancellation are network I/O. They are reduced to the abstract `Exchange` a request receives. The timeout is kept only as a client field.
- Redirects: Go's HTTP client follows redirects, and the SSRF check applies only to the first URL. Redirect following is inside the transport and is not modelled.
- JSON encoding and decoding (`json.Marshal`, `json.Unmarshal`, `omitempty`) are library calls. Decoders are parameters. An encoded request is represented by the record it encodes.
- The "marshal request" error: `json.Marshal` of these records fails only for NaN or infinite floats, which the `real` temperature cannot hold.
- Float semantics of temperature: it is a `real`. A NaN temperature would pass Go's check and then fail to marshal. The model does not capture that.
- `max_tokens` is an unbounded `int`, where Go's is 64 bits. Only the comparison with 1 matters.
- `url.Parse`, `u.Hostname()` and `net.ParseIP` internals are library calls, taken as parameters. The `net.IP` classification predicates are written out.
- DNS: a host name is never resolved, as in the source, so a name that resolves to an internal address passes.
- The MCP SDK: tool registration, names, descriptions, JSON schema tags and the stdio transport are framework plumbing. Each tool handler is a function; `RegisterTools` keeps only the default-model rule.
- main.go: flags, the `GLM_API_KEY` lookup, the choice of `CodingBaseURL`, logging and exit codes are process start-up I/O.
- `log.Printf` on download failure is a side effect with no observable result.
