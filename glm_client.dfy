/** The HTTP client for the GLM API (glmclient.go): client construction,
    the two JSON calls, the image download and its SSRF check, and the
    normalisation of upstream errors.

    What the Go code hands to libraries is a parameter here: the transport
    (`net`, standing for `http.NewRequestWithContext` plus `httpClient.Do`),
    the JSON decoders (`Codec`) and the URL and IP parsers (`UrlLib`).
    Errors are the text `err.Error()` would print. */
module GlmClient {
  import opened Wrappers
  import opened Types
  import opened Text

  const MiB: nat := 1048576

  /** Body ceiling for the chat and image API responses (`10 << 20`). */
  const MaxAPIResponseSize: nat := 10 * MiB

  /** Body ceiling for image downloads (`50 << 20`). */
  const MaxImageDownload: nat := 50 * MiB

  const DefaultBaseURL: string := "https://api.z.ai/api/paas/v4"

  /** The coding-plan endpoint; chosen by the program's caller, never here. */
  const CodingBaseURL: string := "https://api.z.ai/api/coding/paas/v4"

  const TimeoutSeconds: nat := 120

  const StatusOK: int := 200

  const ChatCompletionsPath: string := "/chat/completions"

  const ImageGenerationsPath: string := "/images/generations"

  const DefaultImageMimeType: string := "image/png"

  // ----- the client -----

  /** The read-only configuration fixed at construction. */
  datatype Client = Client(apiKey: string, baseURL: string, timeoutSeconds: nat)

  /** An empty base URL selects the default endpoint; any other is kept verbatim. */
  function NewGLMClient(apiKey: string, baseURL: string): (c: Client)
    ensures c.apiKey == apiKey
    ensures baseURL != "" ==> c.baseURL == baseURL
    ensures baseURL == "" ==> c.baseURL == DefaultBaseURL
    ensures c.baseURL != ""
    ensures c.timeoutSeconds == 120
  {
    Client(apiKey, if baseURL == "" then DefaultBaseURL else baseURL, TimeoutSeconds)
  }

  // ----- requests and the transport -----

  datatype HttpMethod = Get | Post

  datatype Header = Header(name: string, value: string)

  /** The request body, by the record it is the JSON encoding of. */
  datatype Payload = NoPayload | ChatPayload(chat: ChatRequest) | ImagePayload(image: ImageRequest)

  datatype HttpRequest = HttpRequest(verb: HttpMethod, url: string, headers: seq<Header>, payload: Payload)

  /** What the transport makes of a request: it could not be built, it could
      not be sent, or a response arrived. A response body is the bytes the
      server delivered; `readFailure` is an error the stream raises after them. */
  datatype Exchange =
    | CreateFailed(cause: string)
    | SendFailed(cause: string)
    | Received(status: int, contentType: string, body: seq<byte>, readFailure: Option<string>)

  /** The JSON decoders: `json.Unmarshal` into each response record. */
  datatype Codec = Codec(
    decodeChat: seq<byte> -> Result<ChatResponse, string>,
    decodeImage: seq<byte> -> Result<ImageResponse, string>,
    decodeError: seq<byte> -> Option<ErrorResponse>)

  /** An authenticated JSON POST to `path` under the client's base URL. */
  function PostRequest(c: Client, path: string, payload: Payload): (r: HttpRequest)
    ensures r.verb == Post && r.url == c.baseURL + path && r.payload == payload
    ensures Header("Content-Type", "application/json") in r.headers
    ensures Header("Authorization", "Bearer " + c.apiKey) in r.headers
  {
    HttpRequest(Post, c.baseURL + path,
      [Header("Content-Type", "application/json"), Header("Authorization", "Bearer " + c.apiKey)],
      payload)
  }

  /** A client built without an override talks to the default endpoint. */
  lemma DefaultClientEndpoints(apiKey: string, payload: Payload)
    ensures PostRequest(NewGLMClient(apiKey, ""), ChatCompletionsPath, payload).url
            == "https://api.z.ai/api/paas/v4/chat/completions"
    ensures PostRequest(NewGLMClient(apiKey, ""), ImageGenerationsPath, payload).url
            == "https://api.z.ai/api/paas/v4/images/generations"
  {
    var c := NewGLMClient(apiKey, "");
    assert c.baseURL == DefaultBaseURL;
    assert DefaultBaseURL + ChatCompletionsPath == "https://api.z.ai/api/paas/v4/chat/completions";
    assert DefaultBaseURL + ImageGenerationsPath == "https://api.z.ai/api/paas/v4/images/generations";
  }

  /** `io.ReadAll(io.LimitReader(body, limit))`: at most `limit` bytes are read;
      a stream failure is seen only when it comes before the limit. */
  function ReadLimited(body: seq<byte>, readFailure: Option<string>, limit: nat): (r: Result<seq<byte>, string>)
    ensures r.Success? ==> |r.value| <= limit && r.value <= body
    ensures |body| >= limit ==> r == Success(body[..limit])
    ensures r.Failure? <==> (|body| < limit && readFailure.Some?)
    ensures r.Failure? ==> r.error == readFailure.value
    ensures r.Success? && |body| <= limit ==> r.value == body
  {
    if |body| >= limit then Success(body[..limit])
    else if readFailure.Some? then Failure(readFailure.value)
    else Success(body)
  }

  // ----- error normalisation -----

  const ApiErrorPrefix: string := "GLM API error ("

  const StatusErrorPrefix: string := "GLM API returned status "

  /** A non-200 response becomes an error carrying the envelope's code and
      message when it decoded with a message, and only the status otherwise;
      the raw body is not an argument and never reaches the text. */
  function ParseAPIError(status: int, envelope: Option<ErrorResponse>): (e: string)
    ensures envelope.Some? && envelope.value.error.message != "" ==>
      e == ApiErrorPrefix + envelope.value.error.code + "): " + envelope.value.error.message
    ensures !(envelope.Some? && envelope.value.error.message != "") ==>
      e == StatusErrorPrefix + IntToString(status)
  {
    if envelope.Some? && envelope.value.error.message != "" then
      ApiErrorPrefix + envelope.value.error.code + "): " + envelope.value.error.message
    else
      StatusErrorPrefix + IntToString(status)
  }

  /** The status fallback gives back the exact status code to whoever reads it,
      and cannot be mistaken for an upstream error message. */
  lemma ParseAPIErrorStatusRecoverable(status: int, envelope: Option<ErrorResponse>)
    requires !(envelope.Some? && envelope.value.error.message != "")
    ensures StatusErrorPrefix <= ParseAPIError(status, envelope)
    ensures IntValue(ParseAPIError(status, envelope)[|StatusErrorPrefix|..]) == status
    ensures !(ApiErrorPrefix <= ParseAPIError(status, envelope))
  {
    var e := ParseAPIError(status, envelope);
    assert e[|StatusErrorPrefix|..] == IntToString(status);
    IntToStringRoundTrip(status);
    assert e[|ApiErrorPrefix| - 1] != ApiErrorPrefix[|ApiErrorPrefix| - 1];
  }

  // ----- the two API calls -----

  /** The shared shape of ChatCompletion and ImageGeneration: POST, read the
      capped body, send a non-200 status to ParseAPIError, decode otherwise. */
  function ApiCall<T>(c: Client, path: string, payload: Payload, net: HttpRequest -> Exchange,
                      decode: seq<byte> -> Result<T, string>,
                      decodeError: seq<byte> -> Option<ErrorResponse>): (r: Result<T, string>)
    ensures r.Success? ==>
      var x := net(PostRequest(c, path, payload));
      && x.Received? && x.status == StatusOK
      && ReadLimited(x.body, x.readFailure, MaxAPIResponseSize).Success?
      && decode(ReadLimited(x.body, x.readFailure, MaxAPIResponseSize).value) == Success(r.value)
    ensures
      var x := net(PostRequest(c, path, payload));
      x.Received? && x.status == StatusOK && ReadLimited(x.body, x.readFailure, MaxAPIResponseSize).Success?
      && decode(ReadLimited(x.body, x.readFailure, MaxAPIResponseSize).value).Success? ==>
        r == decode(ReadLimited(x.body, x.readFailure, MaxAPIResponseSize).value)
  {
    match net(PostRequest(c, path, payload))
    case CreateFailed(e) => Failure("create request: " + e)
    case SendFailed(e) => Failure("send request: " + e)
    case Received(status, _, body, readFailure) =>
      match ReadLimited(body, readFailure, MaxAPIResponseSize)
      case Failure(e) => Failure("read response: " + e)
      case Success(respBody) =>
        if status != StatusOK then Failure(ParseAPIError(status, decodeError(respBody)))
        else match decode(respBody)
          case Failure(e) => Failure("unmarshal response: " + e)
          case Success(v) => Success(v)
  }

  /** A chat response is exactly what the decoder made of the first 10 MiB of a
      200 answer to the authenticated POST of `req` to `<base>/chat/completions`,
      and a 200 answer whose capped body decodes is always a success. */
  function ChatCompletion(c: Client, req: ChatRequest, net: HttpRequest -> Exchange, codec: Codec): (r: Result<ChatResponse, string>)
    ensures r.Success? ==>
      var x := net(PostRequest(c, ChatCompletionsPath, ChatPayload(req)));
      && x.Received? && x.status == 200
      && ReadLimited(x.body, x.readFailure, MaxAPIResponseSize).Success?
      && codec.decodeChat(ReadLimited(x.body, x.readFailure, MaxAPIResponseSize).value) == Success(r.value)
    ensures
      var x := net(PostRequest(c, ChatCompletionsPath, ChatPayload(req)));
      x.Received? && x.status == 200 && ReadLimited(x.body, x.readFailure, MaxAPIResponseSize).Success?
      && codec.decodeChat(ReadLimited(x.body, x.readFailure, MaxAPIResponseSize).value).Success? ==>
        r == codec.decodeChat(ReadLimited(x.body, x.readFailure, MaxAPIResponseSize).value)
  {
    ApiCall(c, ChatCompletionsPath, ChatPayload(req), net, codec.decodeChat, codec.decodeError)
  }

  /** Likewise for `<base>/images/generations`. */
  function ImageGeneration(c: Client, req: ImageRequest, net: HttpRequest -> Exchange, codec: Codec): (r: Result<ImageResponse, string>)
    ensures r.Success? ==>
      var x := net(PostRequest(c, ImageGenerationsPath, ImagePayload(req)));
      && x.Received? && x.status == 200
      && ReadLimited(x.body, x.readFailure, MaxAPIResponseSize).Success?
      && codec.decodeImage(ReadLimited(x.body, x.readFailure, MaxAPIResponseSize).value) == Success(r.value)
    ensures
      var x := net(PostRequest(c, ImageGenerationsPath, ImagePayload(req)));
      x.Received? && x.status == 200 && ReadLimited(x.body, x.readFailure, MaxAPIResponseSize).Success?
      && codec.decodeImage(ReadLimited(x.body, x.readFailure, MaxAPIResponseSize).value).Success? ==>
        r == codec.decodeImage(ReadLimited(x.body, x.readFailure, MaxAPIResponseSize).value)
  {
    ApiCall(c, ImageGenerationsPath, ImagePayload(req), net, codec.decodeImage, codec.decodeError)
  }

  /** The only request an API call makes is the authenticated POST to its
      endpoint: two transports that answer it alike give the same result. */
  lemma ApiCallSendsOnlyItsRequest<T>(c: Client, path: string, payload: Payload,
                                      net1: HttpRequest -> Exchange, net2: HttpRequest -> Exchange,
                                      decode: seq<byte> -> Result<T, string>,
                                      decodeError: seq<byte> -> Option<ErrorResponse>)
    requires net1(PostRequest(c, path, payload)) == net2(PostRequest(c, path, payload))
    ensures ApiCall(c, path, payload, net1, decode, decodeError) == ApiCall(c, path, payload, net2, decode, decodeError)
  {
  }

  /** A non-200 status is normalised by ParseAPIError from the capped body and the
      success decoder is never consulted: the result does not mention `decode`. */
  lemma ApiCallStatusBeforeDecode<T>(c: Client, path: string, payload: Payload, net: HttpRequest -> Exchange,
                                     decode: seq<byte> -> Result<T, string>,
                                     decodeError: seq<byte> -> Option<ErrorResponse>)
    requires net(PostRequest(c, path, payload)).Received?
    requires net(PostRequest(c, path, payload)).status != StatusOK
    requires ReadLimited(net(PostRequest(c, path, payload)).body, net(PostRequest(c, path, payload)).readFailure, MaxAPIResponseSize).Success?
    ensures var x := net(PostRequest(c, path, payload));
            ApiCall(c, path, payload, net, decode, decodeError)
              == Failure(ParseAPIError(x.status, decodeError(ReadLimited(x.body, x.readFailure, MaxAPIResponseSize).value)))
  {
  }

  /** The body is read before the status is looked at: a read failure is
      reported as such whatever the status. */
  lemma ApiCallReadBeforeStatus<T>(c: Client, path: string, payload: Payload, net: HttpRequest -> Exchange,
                                   decode: seq<byte> -> Result<T, string>,
                                   decodeError: seq<byte> -> Option<ErrorResponse>)
    requires net(PostRequest(c, path, payload)).Received?
    requires |net(PostRequest(c, path, payload)).body| < MaxAPIResponseSize
    requires net(PostRequest(c, path, payload)).readFailure.Some?
    ensures ApiCall(c, path, payload, net, decode, decodeError)
              == Failure("read response: " + net(PostRequest(c, path, payload)).readFailure.value)
  {
  }

  /** A 200 response is decoded from exactly the body capped at 10 MiB: the
      decoder's value is the result, and its error becomes "unmarshal response: ...". */
  lemma ApiCallDecodesCappedBody<T>(c: Client, path: string, payload: Payload, net: HttpRequest -> Exchange,
                                    decode: seq<byte> -> Result<T, string>,
                                    decodeError: seq<byte> -> Option<ErrorResponse>)
    requires net(PostRequest(c, path, payload)).Received?
    requires net(PostRequest(c, path, payload)).status == StatusOK
    requires ReadLimited(net(PostRequest(c, path, payload)).body, net(PostRequest(c, path, payload)).readFailure, MaxAPIResponseSize).Success?
    ensures var x := net(PostRequest(c, path, payload));
            var b := ReadLimited(x.body, x.readFailure, MaxAPIResponseSize).value;
            && |b| <= 10485760 && b <= x.body
            && ApiCall(c, path, payload, net, decode, decodeError)
                 == (match decode(b) case Failure(e) => Failure("unmarshal response: " + e) case Success(v) => Success(v))
  {
  }

  /** A request that cannot be built or sent fails with its cause, labelled by
      the step that failed. */
  lemma ApiCallTransportFailures<T>(c: Client, path: string, payload: Payload, net: HttpRequest -> Exchange,
                                    decode: seq<byte> -> Result<T, string>,
                                    decodeError: seq<byte> -> Option<ErrorResponse>)
    ensures net(PostRequest(c, path, payload)).CreateFailed? ==>
      ApiCall(c, path, payload, net, decode, decodeError) == Failure("create request: " + net(PostRequest(c, path, payload)).cause)
    ensures net(PostRequest(c, path, payload)).SendFailed? ==>
      ApiCall(c, path, payload, net, decode, decodeError) == Failure("send request: " + net(PostRequest(c, path, payload)).cause)
  {
  }

  // ----- the SSRF check -----

  /** What `url.Parse` and `u.Hostname()` yield: the scheme and the host
      without port or IPv6 brackets. */
  datatype Url = Url(scheme: string, hostname: string)

  /** `net.ParseIP` answers with the 16-byte form, IPv4 included;
      4-byte addresses are handled as Go does. */
  type IP = seq<byte>

  /** The library calls the SSRF check relies on. */
  datatype UrlLib = UrlLib(parse: string -> Option<Url>, parseIP: string -> Option<IP>)

  /** `ip.To4()`: the IPv4 address held in a 4-byte or IPv4-mapped 16-byte IP. */
  function To4(ip: IP): (r: Option<seq<byte>>)
    ensures r.Some? ==> |r.value| == 4
  {
    if |ip| == 4 then Some(ip)
    else if |ip| == 16 && (forall i :: 0 <= i < 10 ==> ip[i] == 0) && ip[10] == 0xff && ip[11] == 0xff then Some(ip[12..16])
    else None
  }

  /** `::1` */
  const IPv6Loopback: IP := [0, 0, 0, 0, 0, 0, 0, 0, 0, 0, 0, 0, 0, 0, 0, 1]

  /** The 16-byte form `net.ParseIP` gives for the dotted quad a.b.c.d. */
  function IPv4Mapped(a: byte, b: byte, c: byte, d: byte): (ip: IP)
    ensures To4(ip) == Some([a, b, c, d])
  {
    var ip := [0, 0, 0, 0, 0, 0, 0, 0, 0, 0, 0xff, 0xff, a, b, c, d];
    assert ip[12..16] == [a, b, c, d];
    ip
  }

  /** `ip.IsLoopback()`: 127.0.0.0/8 or ::1. */
  predicate IsLoopback(ip: IP) {
    match To4(ip)
    case Some(v4) => v4[0] == 127
    case None => ip == IPv6Loopback
  }

  /** `ip.IsPrivate()`: 10/8, 172.16/12 and 192.168/16 (RFC 1918), or fc00::/7 (RFC 4193). */
  predicate IsPrivate(ip: IP) {
    match To4(ip)
    case Some(v4) => v4[0] == 10 || (v4[0] == 172 && v4[1] & 0xf0 == 16) || (v4[0] == 192 && v4[1] == 168)
    case None => |ip| == 16 && ip[0] & 0xfe == 0xfc
  }

  /** `ip.IsLinkLocalUnicast()`: 169.254/16 or fe80::/10. */
  predicate IsLinkLocalUnicast(ip: IP) {
    match To4(ip)
    case Some(v4) => v4[0] == 169 && v4[1] == 254
    case None => |ip| == 16 && ip[0] == 0xfe && ip[1] & 0xc0 == 0x80
  }

  /** `ip.IsLinkLocalMulticast()`: 224.0.0/24 or ff02::/16 (any flags nibble). */
  predicate IsLinkLocalMulticast(ip: IP) {
    match To4(ip)
    case Some(v4) => v4[0] == 224 && v4[1] == 0 && v4[2] == 0
    case None => |ip| == 16 && ip[0] == 0xff && ip[1] & 0x0f == 0x02
  }

  predicate IsInternal(ip: IP) {
    IsLoopback(ip) || IsPrivate(ip) || IsLinkLocalUnicast(ip) || IsLinkLocalMulticast(ip)
  }

  /** The textual loopback forms rejected before any IP parsing. */
  predicate IsLoopbackName(host: string) {
    host == "localhost" || "127." <= host || host == "::1"
  }

  const MalformedURL: string := "malformed URL"
  const HttpsOnly: string := "only https URLs are allowed"
  const LoopbackRefused: string := "loopback addresses are not allowed"
  const InternalRefused: string := "private/internal addresses are not allowed"

  /** The SSRF check run before every download. It sees only the literal
      host: a name is never resolved, so a name that resolves to an internal
      address passes (the accepted DNS limitation). */
  function ValidateImageURL(rawURL: string, lib: UrlLib): (r: Outcome<string>)
    ensures r.Pass? <==>
      && lib.parse(rawURL).Some?
      && lib.parse(rawURL).value.scheme == "https"
      && !IsLoopbackName(lib.parse(rawURL).value.hostname)
      && (lib.parseIP(lib.parse(rawURL).value.hostname).Some? ==> !IsInternal(lib.parseIP(lib.parse(rawURL).value.hostname).value))
    ensures r.Fail? ==> r.error in {MalformedURL, HttpsOnly, LoopbackRefused, InternalRefused}
  {
    match lib.parse(rawURL)
    case None => Fail(MalformedURL)
    case Some(u) =>
      if u.scheme != "https" then Fail(HttpsOnly)
      else if IsLoopbackName(u.hostname) then Fail(LoopbackRefused)
      else match lib.parseIP(u.hostname)
        case Some(ip) => if IsInternal(ip) then Fail(InternalRefused) else Pass
        case None => Pass
  }

  /** Every scheme but exactly "https" is refused, whatever the host, and that
      is the reason given. */
  lemma NonHttpsRejected(rawURL: string, lib: UrlLib)
    requires lib.parse(rawURL).Some? && lib.parse(rawURL).value.scheme != "https"
    ensures ValidateImageURL(rawURL, lib) == Fail(HttpsOnly)
  {
  }

  /** "localhost", "::1" and anything starting "127." are refused on their
      text alone, before (and whatever) the IP parser says. */
  lemma LoopbackNamesRejected(rawURL: string, lib: UrlLib)
    requires lib.parse(rawURL).Some? && lib.parse(rawURL).value.scheme == "https"
    requires IsLoopbackName(lib.parse(rawURL).value.hostname)
    ensures ValidateImageURL(rawURL, lib) == Fail(LoopbackRefused)
  {
  }

  /** An https URL whose host is an IP literal is accepted exactly when the
      address is none of loopback, private, link-local unicast or multicast. */
  lemma IPLiteralHosts(rawURL: string, lib: UrlLib, ip: IP)
    requires lib.parse(rawURL).Some? && lib.parse(rawURL).value.scheme == "https"
    requires !IsLoopbackName(lib.parse(rawURL).value.hostname)
    requires lib.parseIP(lib.parse(rawURL).value.hostname) == Some(ip)
    ensures ValidateImageURL(rawURL, lib).Pass? <==> !IsInternal(ip)
    ensures IsInternal(ip) ==> ValidateImageURL(rawURL, lib) == Fail(InternalRefused)
  {
  }

  /** A host that is not an IP literal and not a loopback name passes: names are
      not resolved. */
  lemma NamesAreNotResolved(rawURL: string, lib: UrlLib)
    requires lib.parse(rawURL).Some? && lib.parse(rawURL).value.scheme == "https"
    requires !IsLoopbackName(lib.parse(rawURL).value.hostname)
    requires lib.parseIP(lib.parse(rawURL).value.hostname).None?
    ensures ValidateImageURL(rawURL, lib) == Pass
  {
  }

  /** https://10.0.0.5/x is refused as internal. */
  lemma PrivateAddressExample(lib: UrlLib)
    requires lib.parse("https://10.0.0.5/x") == Some(Url("https", "10.0.0.5"))
    requires lib.parseIP("10.0.0.5") == Some(IPv4Mapped(10, 0, 0, 5))
    ensures ValidateImageURL("https://10.0.0.5/x", lib) == Fail(InternalRefused)
  {
    assert !IsLoopbackName("10.0.0.5") by {
      assert "10.0.0.5"[1] != "127."[1];
    }
  }

  /** 172.31.255.1 is private and 172.32.0.1 is not (the /12 mask); 169.254.169.254
      is link-local; the unspecified address 0.0.0.0 is in none of the four classes. */
  lemma PrivateRangeBoundary()
    ensures IsPrivate(IPv4Mapped(172, 31, 255, 1))
    ensures !IsInternal(IPv4Mapped(172, 32, 0, 1))
    ensures IsInternal(IPv4Mapped(169, 254, 169, 254))
    ensures IsLoopback(IPv6Loopback) && !IsLoopback(IPv4Mapped(128, 0, 0, 1))
    ensures !IsInternal(IPv4Mapped(0, 0, 0, 0))
  {
  }

  /** The four classes on every IPv4 address, as the standard ranges read:
      127/8; 10/8, 172.16/12 and 192.168/16; 169.254/16; 224.0.0/24. */
  lemma IPv4Classes(a: byte, b: byte, c: byte, d: byte)
    ensures IsLoopback(IPv4Mapped(a, b, c, d)) <==> a == 127
    ensures IsPrivate(IPv4Mapped(a, b, c, d)) <==> a == 10 || (a == 172 && 16 <= b <= 31) || (a == 192 && b == 168)
    ensures IsLinkLocalUnicast(IPv4Mapped(a, b, c, d)) <==> a == 169 && b == 254
    ensures IsLinkLocalMulticast(IPv4Mapped(a, b, c, d)) <==> a == 224 && b == 0 && c == 0
  {
  }

  /** The same for 16-byte addresses that hold no IPv4 address:
      ::1; fc00::/7; fe80::/10; ff02::/16 with any flags nibble. */
  lemma IPv6Classes(ip: IP)
    requires |ip| == 16 && To4(ip).None?
    ensures IsLoopback(ip) <==> ip == IPv6Loopback
    ensures IsPrivate(ip) <==> ip[0] == 0xfc || ip[0] == 0xfd
    ensures IsLinkLocalUnicast(ip) <==> ip[0] == 0xfe && 0x80 <= ip[1] <= 0xbf
    ensures IsLinkLocalMulticast(ip) <==> ip[0] == 0xff && ip[1] % 16 == 2
  {
  }

  /** https://127.foo/ is refused although it is no IP literal. */
  lemma LoopbackPrefixExample(lib: UrlLib)
    requires lib.parse("https://127.foo/") == Some(Url("https", "127.foo"))
    ensures ValidateImageURL("https://127.foo/", lib) == Fail(LoopbackRefused)
  {
  }

  /** http://example.com is refused, https://example.com/image.png accepted. */
  lemma PublicNameExamples(lib: UrlLib)
    requires lib.parse("http://example.com") == Some(Url("http", "example.com"))
    requires lib.parse("https://example.com/image.png") == Some(Url("https", "example.com"))
    requires lib.parseIP("example.com") == None
    ensures ValidateImageURL("http://example.com", lib) == Fail(HttpsOnly)
    ensures ValidateImageURL("https://example.com/image.png", lib) == Pass
  {
    assert !IsLoopbackName("example.com") by {
      assert "example.com"[0] != "127."[0];
    }
  }

  // ----- image download -----

  datatype Downloaded = Downloaded(data: seq<byte>, mimeType: string)

  const DownloadStatusPrefix: string := "download image returned status "

  /** The unauthenticated GET of an image URL. */
  function DownloadRequest(imageURL: string): (r: HttpRequest)
    ensures r.verb == Get && r.url == imageURL && r.payload == NoPayload
    ensures forall h :: h in r.headers ==> h.name != "Authorization"
  {
    HttpRequest(Get, imageURL, [], NoPayload)
  }

  /** The Content-Type header when the server sent one, "image/png" otherwise. */
  function MimeTypeOrDefault(contentType: string): (m: string)
    ensures m != ""
    ensures contentType != "" ==> m == contentType
    ensures contentType == "" ==> m == "image/png"
  {
    if contentType == "" then DefaultImageMimeType else contentType
  }

  /** Validate, fetch, check the status, read at most 50 MiB. Unlike the API
      calls, the status is checked before the body is read. */
  function DownloadImage(c: Client, imageURL: string, lib: UrlLib, net: HttpRequest -> Exchange): (r: Result<Downloaded, string>)
    ensures ValidateImageURL(imageURL, lib).Fail? ==> r == Failure("invalid image URL: " + ValidateImageURL(imageURL, lib).error)
    ensures r.Success? ==>
      var x := net(DownloadRequest(imageURL));
      && ValidateImageURL(imageURL, lib).Pass?
      && x.Received? && x.status == 200
      && ReadLimited(x.body, x.readFailure, MaxImageDownload).Success?
      && r.value.data == ReadLimited(x.body, x.readFailure, MaxImageDownload).value
      && |r.value.data| <= 52428800 && r.value.data <= x.body
      && r.value.mimeType == MimeTypeOrDefault(x.contentType)
    ensures
      var x := net(DownloadRequest(imageURL));
      ValidateImageURL(imageURL, lib).Pass? && x.Received? && x.status == 200
      && ReadLimited(x.body, x.readFailure, MaxImageDownload).Success? ==>
        r == Success(Downloaded(ReadLimited(x.body, x.readFailure, MaxImageDownload).value, MimeTypeOrDefault(x.contentType)))
  {
    match ValidateImageURL(imageURL, lib)
    case Fail(e) => Failure("invalid image URL: " + e)
    case Pass =>
      match net(DownloadRequest(imageURL))
      case CreateFailed(e) => Failure("create download request: " + e)
      case SendFailed(e) => Failure("download image: " + e)
      case Received(status, contentType, body, readFailure) =>
        if status != StatusOK then Failure(DownloadStatusPrefix + IntToString(status))
        else match ReadLimited(body, readFailure, MaxImageDownload)
          case Failure(e) => Failure("read image data: " + e)
          case Success(data) => Success(Downloaded(data, MimeTypeOrDefault(contentType)))
  }

  /** A URL the SSRF check refuses is never fetched: the result is the same
      error for every transport. */
  lemma DownloadValidatesFirst(c: Client, imageURL: string, lib: UrlLib,
                               net1: HttpRequest -> Exchange, net2: HttpRequest -> Exchange)
    requires ValidateImageURL(imageURL, lib).Fail?
    ensures DownloadImage(c, imageURL, lib, net1) == DownloadImage(c, imageURL, lib, net2)
    ensures DownloadImage(c, imageURL, lib, net1) == Failure("invalid image URL: " + ValidateImageURL(imageURL, lib).error)
  {
  }

  /** Otherwise the only request made is the unauthenticated GET of that URL. */
  lemma DownloadSendsOnlyItsRequest(c: Client, imageURL: string, lib: UrlLib,
                                    net1: HttpRequest -> Exchange, net2: HttpRequest -> Exchange)
    requires net1(DownloadRequest(imageURL)) == net2(DownloadRequest(imageURL))
    ensures DownloadImage(c, imageURL, lib, net1) == DownloadImage(c, imageURL, lib, net2)
  {
  }

  /** Past the SSRF check, every failure carries its cause under the label of
      the step that failed, and a 200 answer whose capped body reads is the
      image: the first 50 MiB with the server's or the default MIME type. */
  lemma DownloadOutcomes(c: Client, imageURL: string, lib: UrlLib, net: HttpRequest -> Exchange)
    requires ValidateImageURL(imageURL, lib).Pass?
    ensures var x := net(DownloadRequest(imageURL));
            x.CreateFailed? ==> DownloadImage(c, imageURL, lib, net) == Failure("create download request: " + x.cause)
    ensures var x := net(DownloadRequest(imageURL));
            x.SendFailed? ==> DownloadImage(c, imageURL, lib, net) == Failure("download image: " + x.cause)
    ensures var x := net(DownloadRequest(imageURL));
            x.Received? && x.status == StatusOK && ReadLimited(x.body, x.readFailure, MaxImageDownload).Failure? ==>
              DownloadImage(c, imageURL, lib, net) == Failure("read image data: " + x.readFailure.value)
    ensures var x := net(DownloadRequest(imageURL));
            x.Received? && x.status == StatusOK && ReadLimited(x.body, x.readFailure, MaxImageDownload).Success? ==>
              DownloadImage(c, imageURL, lib, net)
                == Success(Downloaded(ReadLimited(x.body, x.readFailure, MaxImageDownload).value, MimeTypeOrDefault(x.contentType)))
  {
  }

  /** A non-200 status is an error carrying that status, checked before the
      body is read, so a failing stream does not mask it. */
  lemma DownloadStatusBeforeRead(c: Client, imageURL: string, lib: UrlLib, net: HttpRequest -> Exchange)
    requires ValidateImageURL(imageURL, lib).Pass?
    requires net(DownloadRequest(imageURL)).Received? && net(DownloadRequest(imageURL)).status != StatusOK
    ensures DownloadImage(c, imageURL, lib, net).Failure?
    ensures var e := DownloadImage(c, imageURL, lib, net).error;
            DownloadStatusPrefix <= e &&
            IntValue(e[|DownloadStatusPrefix|..]) == net(DownloadRequest(imageURL)).status
  {
    var x := net(DownloadRequest(imageURL));
    var e := DownloadImage(c, imageURL, lib, net).error;
    assert e[|DownloadStatusPrefix|..] == IntToString(x.status);
    IntToStringRoundTrip(x.status);
  }
}
