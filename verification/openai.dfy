/** The pure parts of `transcribeImage` (openai.js): shaping the chat
    completion request from a page's data URL and the settings, and reading
    the reply. The HTTP exchange itself is a parameter: the `Response` the
    service gave. */
module OpenAI {
  import opened Wrappers
  import opened Text

  const DefaultModel := "gpt-4o-mini"
  const DefaultPrompt := "You are a helpful assistant that transcribes handwritten text."
  /** The image is always declared as PNG, whatever the data URL says. */
  const ImageMimeType := "image/png"

  /** The request body and authorisation header that are sent. `imageData` is
      `None` when the data URL has no comma (the payload field is `undefined`). */
  datatype Request = Request(
    model: string,
    systemContent: string,
    imageMime: string,
    imageData: Option<string>,
    authorization: string)

  /** The parts of the service's JSON reply that are read; a missing member
      along the optional chain is `None`. */
  datatype Message = Message(content: Option<string>)
  datatype Choice = Choice(message: Option<Message>)
  datatype Reply = Reply(choices: Option<seq<Choice>>)

  /** What the HTTP exchange produced: `body` is `None` when the body is not JSON. */
  datatype Response = Response(ok: bool, status: nat, statusText: string, body: Option<Reply>)

  datatype TranscribeError =
    | ApiError(status: nat, statusText: string)   // non-OK HTTP status
    | MalformedBody                               // `res.json()` rejected

  /** `dataUrl.split(',')[1]`: the second comma-separated segment. */
  function ImagePayload(dataUrl: string): (r: Option<string>)
    ensures r.None? <==> ',' !in dataUrl
    ensures r.Some? ==> ',' !in r.value
  {
    var parts := SplitOn(dataUrl, ',');
    if |parts| >= 2 then Some(parts[1]) else None
  }

  /** For a well-formed data URL (one comma, after the header) the payload is
      everything after the comma. */
  lemma PayloadOfDataUrl(header: string, data: string)
    requires ',' !in header && ',' !in data
    ensures ImagePayload(header + "," + data) == Some(data)
  {
    SplitOnFirst(header, ',', data);
    SplitOnAbsent(data, ',');
  }

  /** A canvas data URL sent with no stored model: the request names the
      default model and carries exactly the data after the header's comma. */
  lemma RequestOfDataUrl(header: string, data: string, apiKey: string, prompt: Option<string>)
    requires ',' !in header && ',' !in data
    ensures BuildRequest(header + "," + data, apiKey, None, prompt).imageData == Some(data)
    ensures BuildRequest(header + "," + data, apiKey, None, prompt).model == DefaultModel
  {
    PayloadOfDataUrl(header, data);
  }

  /** The system message: the supplied prompt when non-empty, else the default. */
  function SystemPrompt(prompt: Option<string>): (r: string)
    ensures r != ""
    ensures prompt.Some? && prompt.value != "" ==> r == prompt.value
    ensures prompt.None? || prompt.value == "" ==> r == DefaultPrompt
  {
    match prompt
    case Some(p) => if p != "" then p else DefaultPrompt
    case None => DefaultPrompt
  }

  /** The payload `transcribeImage(dataUrl, apiKey, model, prompt)` sends. The
      model defaults only when the argument is `undefined`: an empty model
      string is sent as it is. */
  function BuildRequest(dataUrl: string, apiKey: string, model: Option<string>, prompt: Option<string>): (r: Request)
    ensures model.None? ==> r.model == DefaultModel
    ensures model.Some? ==> r.model == model.value
    ensures r.systemContent == SystemPrompt(prompt)
    ensures r.imageMime == ImageMimeType
    ensures r.imageData == ImagePayload(dataUrl)
    ensures StartsWith(r.authorization, "Bearer ") && r.authorization[7..] == apiKey
  {
    Request(model.GetOr(DefaultModel), SystemPrompt(prompt), ImageMimeType,
            ImagePayload(dataUrl), "Bearer " + apiKey)
  }

  /** `json.choices?.[0]?.message?.content?.trim() || ''`. */
  function ReplyText(reply: Reply): (r: string)
    ensures Trim(r) == r
  {
    match reply.choices
    case Some(cs) =>
      if |cs| == 0 then ""
      else (match cs[0].message
            case Some(Message(Some(text))) => TrimIdempotent(text); Trim(text)
            case _ => "")
    case None => ""
  }

  /** Reading the response: a non-OK status fails with the status and status
      text and no transcript; an unparsable body fails; otherwise the first
      choice's content, trimmed, or `""` when the chain is broken anywhere. */
  function DecodeResponse(res: Response): (r: Result<string, TranscribeError>)
    ensures !res.ok <==> r == Failure(ApiError(res.status, res.statusText))
    ensures res.ok && res.body.None? <==> r == Failure(MalformedBody)
    ensures r.Success? ==> Trim(r.value) == r.value
  {
    if !res.ok then Failure(ApiError(res.status, res.statusText))
    else match res.body
      case None => Failure(MalformedBody)
      case Some(reply) => Success(ReplyText(reply))
  }

  /** A complete reply yields the first choice's content, trimmed; later
      choices are ignored. */
  lemma DecodeFirstChoice(status: nat, statusText: string, text: string, rest: seq<Choice>)
    ensures DecodeResponse(Response(true, status, statusText,
              Some(Reply(Some([Choice(Some(Message(Some(text))))] + rest)))))
            == Success(Trim(text))
  {
  }

  /** Any missing link in the chain yields the empty transcript, not an error. */
  lemma DecodeBrokenChain(status: nat, statusText: string, reply: Reply)
    requires || reply.choices.None?
             || (reply.choices.Some? && |reply.choices.value| == 0)
             || (reply.choices.Some? && |reply.choices.value| > 0 && reply.choices.value[0].message.None?)
             || (reply.choices.Some? && |reply.choices.value| > 0 && reply.choices.value[0].message.Some?
                 && reply.choices.value[0].message.value.content.None?)
    ensures DecodeResponse(Response(true, status, statusText, Some(reply))) == Success("")
  {
  }
}
