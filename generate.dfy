/** The `generate` edge function without its HTTP plumbing: request validation,
    normalisation of image references to `data:` URLs (RFC 2397), the multimodal
    content and messages sent to the AI gateway, and the mapping of the gateway's
    answer to the reply. The gateway is an input: its status and parsed body. */
module Generate {
  import opened Seqs
  import opened Decimal

  datatype Request = Request(prompt: Option<string>, systemInstruction: Option<string>, images: Option<seq<string>>)

  datatype Part = TextPart(text: string) | ImagePart(url: string)

  datatype Message = SystemMessage(text: string) | UserMessage(content: seq<Part>)

  /** The JSON body of the reply: `{ error }` or `{ text }`. */
  datatype Body = ErrorBody(error: string) | TextBody(text: string)

  datatype Reply = Reply(status: nat, body: Body)

  /** The gateway's JSON body: not parseable (with the parser's message), or parsed, with
      `choices[0].message.content` if that path exists. */
  datatype GatewayBody = Unparsable(reason: string) | Completion(firstContent: Option<string>)

  /** What the `fetch` to the gateway produced: a thrown error, or a response. */
  datatype Gateway = Unreachable(reason: string) | Responded(status: nat, body: GatewayBody)

  const MissingInput := "Prompt or images required"
  const MissingKey := "LOVABLE_API_KEY is not configured"
  const RateLimited := "Rate limit exceeded. Please try again in a moment."
  const CreditsExhausted := "AI credits exhausted. Please add credits to continue."
  const GatewayError := "AI Gateway error: "
  const NoResponse := "No response generated"

  // ---------------------------------------------------------------- validation

  function ImageList(req: Request): seq<string> {
    req.images.GetOr([])
  }

  /** `!prompt && !images?.length`: neither a prompt nor any image. */
  predicate Rejected(req: Request)
    ensures Rejected(req) <==> (req.prompt.None? || req.prompt == Some(""))
                               && (req.images.None? || req.images == Some([]))
  {
    !Truthy(req.prompt) && |ImageList(req)| == 0
  }

  // ---------------------------------------------------------------- data URLs

  const DataScheme := "data:"
  const Base64Marker := ";base64,"
  const DefaultMime := "image/jpeg"

  /** The characters JavaScript's `.` does not match. */
  predicate IsLineTerminator(c: char) {
    c == '\n' || c == '\r' || c == '\U{2028}' || c == '\U{2029}'
  }

  /** What `([^;]+)` matches. */
  predicate ValidMime(m: string) {
    m != [] && forall i :: 0 <= i < |m| ==> m[i] != ';'
  }

  /** What `(.+)$` matches at the end of the input. */
  predicate ValidPayload(p: string) {
    p != [] && forall i :: 0 <= i < |p| ==> !IsLineTerminator(p[i])
  }

  /** `data:${mime};base64,${payload}`. */
  function DataUrl(mime: string, payload: string): string {
    DataScheme + mime + Base64Marker + payload
  }

  /** The position of the first ';' in `s`, or `|s|` when there is none. */
  function IndexOfSemicolon(s: string): (i: nat)
    ensures i <= |s| && (i < |s| ==> s[i] == ';')
    ensures forall j :: 0 <= j < i ==> s[j] != ';'
  {
    if s == [] then 0 else if s[0] == ';' then 0 else 1 + IndexOfSemicolon(s[1..])
  }

  /** `s.match(/^data:([^;]+);base64,(.+)$/)`: the two groups, when it matches. Since the first
      group cannot hold a ';', it must end at the first ';' after the scheme. */
  function MatchDataUrl(s: string): (r: Option<(string, string)>)
    ensures r.Some? ==> ValidMime(r.value.0) && ValidPayload(r.value.1) && s == DataUrl(r.value.0, r.value.1)
  {
    if !StartsWith(s, DataScheme) then None
    else
      var rest := s[|DataScheme|..];
      var i := IndexOfSemicolon(rest);
      var mime, tail := rest[..i], rest[i..];
      if mime != [] && StartsWith(tail, Base64Marker) && ValidPayload(tail[|Base64Marker|..]) then
        var payload := tail[|Base64Marker|..];
        assert tail == Base64Marker + payload;
        assert s == DataScheme + (mime + tail);
        Some((mime, payload))
      else None
  }

  /** The matcher finds every well-formed data URL, with its own MIME type and payload. */
  lemma MatchDataUrlComplete(mime: string, payload: string)
    requires ValidMime(mime) && ValidPayload(payload)
    ensures MatchDataUrl(DataUrl(mime, payload)) == Some((mime, payload))
  {
    var s := DataUrl(mime, payload);
    var rest := mime + Base64Marker + payload;
    assert s == DataScheme + rest;
    assert s[..|DataScheme|] == DataScheme;
    assert s[|DataScheme|..] == rest;
    var i := IndexOfSemicolon(rest);
    assert rest[|mime|] == ';';
    assert i == |mime|;
    assert rest[..i] == mime;
    assert rest[i..] == Base64Marker + payload;
    assert (Base64Marker + payload)[|Base64Marker|..] == payload;
  }

  /** The MIME type and payload the loop settles on: the matched groups, or `image/jpeg` and the
      whole string. */
  function ImageParts(s: string): (string, string) {
    match MatchDataUrl(s)
    case Some(groups) => groups
    case None => (DefaultMime, s)
  }

  /** A matching reference splits into a valid MIME type and payload that rebuild it exactly;
      any other reference is taken whole as an `image/jpeg` payload. */
  lemma ImagePartsRejoin(s: string)
    ensures MatchDataUrl(s).Some? ==> var (mime, payload) := ImageParts(s);
              ValidMime(mime) && ValidPayload(payload) && DataUrl(mime, payload) == s
    ensures MatchDataUrl(s).None? ==> ImageParts(s) == (DefaultMime, s)
  {
  }

  /** The URL sent for one image reference. */
  function NormalizeImage(s: string): (r: string)
    ensures StartsWith(r, DataScheme)
    ensures MatchDataUrl(s).Some? ==> r == s
    ensures MatchDataUrl(s).None? ==> r == DataScheme + DefaultMime + Base64Marker + s
  {
    var (mime, payload) := ImageParts(s);
    assert DataUrl(mime, payload) == DataScheme + (mime + Base64Marker + payload);
    DataUrl(mime, payload)
  }

  /** For a non-empty reference without line breaks, the normalised URL is a well-formed data URL,
      and normalising it again changes nothing. */
  lemma NormalizeImageIdempotent(s: string)
    requires ValidPayload(s)
    ensures MatchDataUrl(NormalizeImage(s)).Some?
    ensures NormalizeImage(NormalizeImage(s)) == NormalizeImage(s)
  {
    if MatchDataUrl(s).None? {
      assert ValidMime(DefaultMime);
      MatchDataUrlComplete(DefaultMime, s);
    }
  }

  // ---------------------------------------------------------------- content and messages

  /** The part sent for one image reference. */
  function ImagePartOf(s: string): Part {
    ImagePart(NormalizeImage(s))
  }

  /** The content the request should carry: the prompt, if truthy, then one image part per image. */
  function ExpectedContent(prompt: Option<string>, images: seq<string>): (r: seq<Part>)
    ensures |r| == (if Truthy(prompt) then 1 else 0) + |images|
    ensures Truthy(prompt) ==> r[0] == TextPart(prompt.value)
  {
    (if Truthy(prompt) then [TextPart(prompt.value)] else []) + Map(ImagePartOf, images)
  }

  /** After the prompt part come the images, each as its normalised data URL, in request order. */
  lemma ExpectedContentImages(prompt: Option<string>, images: seq<string>, i: nat)
    requires i < |images|
    ensures var offset := if Truthy(prompt) then 1 else 0;
            offset + i < |ExpectedContent(prompt, images)|
            && ExpectedContent(prompt, images)[offset + i] == ImagePartOf(images[i])
  {
    if Truthy(prompt) {
      MapAfter([TextPart(prompt.value)], ImagePartOf, images, i);
    } else {
      MapAfter([], ImagePartOf, images, i);
    }
  }

  /** The body of the image loop: the MIME type and payload of one image reference, from the
      pattern's groups when it is a matching data URL, else `image/jpeg` and the whole reference. */
  method SplitImage(imageBase64: string) returns (mimeType: string, base64Data: string)
    ensures (mimeType, base64Data) == ImageParts(imageBase64)
    ensures DataUrl(mimeType, base64Data) == NormalizeImage(imageBase64)
  {
    base64Data := imageBase64;
    mimeType := DefaultMime;
    if StartsWith(imageBase64, DataScheme) {
      var groups := MatchDataUrl(imageBase64);
      if groups.Some? {
        mimeType := groups.value.0;
        base64Data := groups.value.1;
      }
    }
  }

  /** One more image adds one normalised image part at the end. */
  lemma ExpectedContentStep(prompt: Option<string>, images: seq<string>, i: nat)
    requires i < |images|
    ensures ExpectedContent(prompt, images[..i + 1])
         == ExpectedContent(prompt, images[..i]) + [ImagePartOf(images[i])]
  {
    assert images[..i + 1] == images[..i] + [images[i]];
    MapAppend(ImagePartOf, images[..i], [images[i]]);
  }

  /** The `content` array, built by the source's loop. */
  method BuildContent(prompt: Option<string>, images: seq<string>) returns (content: seq<Part>)
    ensures content == ExpectedContent(prompt, images)
  {
    content := [];
    if Truthy(prompt) {
      content := content + [TextPart(prompt.value)];
    }
    assert images[..0] == [];
    for i := 0 to |images|
      invariant content == ExpectedContent(prompt, images[..i])
    {
      var mimeType, base64Data := SplitImage(images[i]);
      ExpectedContentStep(prompt, images, i);
      content := content + [ImagePart(DataUrl(mimeType, base64Data))];
    }
    assert images[..|images|] == images;
  }

  // ---------------------------------------------------------------- replies

  /** The text of a successful reply: the completion when it is a non-empty string, the fallback otherwise. */
  function CompletionText(firstContent: Option<string>): (r: string)
    ensures r != ""
    ensures Truthy(firstContent) ==> r == firstContent.value
    ensures !Truthy(firstContent) ==> r == NoResponse
  {
    if Truthy(firstContent) then firstContent.value else NoResponse
  }

  /** The reply for a gateway response outside 200..299. */
  function FailedStatusReply(status: nat): (r: Reply)
    ensures r.body.ErrorBody?
    ensures status == 429 ==> r == Reply(429, ErrorBody(RateLimited))
    ensures status == 402 ==> r == Reply(402, ErrorBody(CreditsExhausted))
    ensures r.status == 429 <==> status == 429
    ensures r.status == 402 <==> status == 402
    ensures r.status != 429 && r.status != 402 ==>
              r.status == 500 && StartsWith(r.body.error, GatewayError)
              && AllDigits(r.body.error[|GatewayError|..]) && ParseNat(r.body.error[|GatewayError|..]) == status
              && r.body.error[|GatewayError|..] == NatToString(status)
  {
    if status == 429 then Reply(429, ErrorBody(RateLimited))
    else if status == 402 then Reply(402, ErrorBody(CreditsExhausted))
    else
      var msg := GatewayError + NatToString(status);
      assert msg[|GatewayError|..] == NatToString(status);
      ParseNatToString(status);
      Reply(500, ErrorBody(msg))
  }

  /** `response.ok`. */
  predicate IsOk(status: nat) {
    200 <= status < 300
  }

  /** The reply once the request has been sent. */
  function GatewayReply(gateway: Gateway): (r: Reply)
    ensures r.status in {200, 402, 429, 500}
    ensures r.status == 200 <==> gateway.Responded? && IsOk(gateway.status) && gateway.body.Completion?
    ensures r.status == 200 ==> r.body == TextBody(CompletionText(gateway.body.firstContent))
    ensures r.status == 429 <==> gateway.Responded? && gateway.status == 429
    ensures r.status == 402 <==> gateway.Responded? && gateway.status == 402
    ensures r.status != 200 ==> r.body.ErrorBody?
    ensures gateway.Responded? && !IsOk(gateway.status) ==> r == FailedStatusReply(gateway.status)
    ensures gateway.Unreachable? ==> r == Reply(500, ErrorBody(gateway.reason))
    ensures gateway.Responded? && IsOk(gateway.status) && gateway.body.Unparsable? ==>
              r == Reply(500, ErrorBody(gateway.body.reason))
  {
    match gateway
    case Unreachable(reason) => Reply(500, ErrorBody(reason))
    case Responded(status, body) =>
      if !IsOk(status) then FailedStatusReply(status)
      else match body
        case Unparsable(reason) => Reply(500, ErrorBody(reason))
        case Completion(firstContent) => Reply(200, TextBody(CompletionText(firstContent)))
  }

  /** The messages the request should carry: the system instruction, if truthy, then the user turn. */
  function ExpectedMessages(req: Request): (r: seq<Message>)
    ensures |r| == (if Truthy(req.systemInstruction) then 2 else 1)
    ensures Truthy(req.systemInstruction) ==> r[0] == SystemMessage(req.systemInstruction.value)
    ensures r[|r| - 1] == UserMessage(ExpectedContent(req.prompt, ImageList(req)))
  {
    (if Truthy(req.systemInstruction) then [SystemMessage(req.systemInstruction.value)] else [])
    + [UserMessage(ExpectedContent(req.prompt, ImageList(req)))]
  }

  /** The handler: validate, check the key, build and send the messages, shape the reply.
      `sent` is what would be posted to the gateway, absent when nothing is sent. */
  method Handle(req: Request, apiKey: Option<string>, gateway: Gateway) returns (reply: Reply, sent: Option<seq<Message>>)
    ensures reply.status == 400 <==> Rejected(req)
    ensures Rejected(req) ==> reply.body == ErrorBody(MissingInput) && sent.None?
    ensures !Rejected(req) && !Truthy(apiKey) ==> reply == Reply(500, ErrorBody(MissingKey)) && sent.None?
    ensures sent.Some? <==> !Rejected(req) && Truthy(apiKey)
    ensures sent.Some? ==> reply == GatewayReply(gateway)
    ensures sent.Some? ==> sent.value == ExpectedMessages(req)
                           && (|sent.value| == 1 || |sent.value| == 2)
                           && (sent.value[0].SystemMessage? <==> Truthy(req.systemInstruction))
                           && sent.value[|sent.value| - 1].UserMessage?
  {
    if Rejected(req) {
      return Reply(400, ErrorBody(MissingInput)), None;
    }
    if !Truthy(apiKey) {
      return Reply(500, ErrorBody(MissingKey)), None;
    }
    var content := BuildContent(req.prompt, ImageList(req));
    var messages: seq<Message> := [];
    if Truthy(req.systemInstruction) {
      messages := messages + [SystemMessage(req.systemInstruction.value)];
    }
    messages := messages + [UserMessage(content)];
    sent := Some(messages);
    reply := GatewayReply(gateway);
  }
}
