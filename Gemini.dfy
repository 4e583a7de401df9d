/**
 * `generateText(prompt)`: one chat-completions request to the AvalAI endpoint
 * and the checks applied to its answer. The HTTP exchange itself is a
 * parameter, `fetch`, from the request sent to the response received;
 * the environment variables are parameters too.
 */
module Gemini {
  import opened Wrappers
  import Strings

  const ApiUrl := "https://api.avalai.ir/v1/chat/completions"
  const DefaultModel := "gemini-2.5-pro"

  /** A parsed JSON value. */
  datatype Json =
    | JNull
    | JBool(b: bool)
    | JNum(n: int)
    | JStr(s: string)
    | JArr(items: seq<Json>)
    | JObj(fields: map<string, Json>)

  /** JavaScript truthiness of a value read from the body; `None` is `undefined`. */
  predicate Truthy(v: Option<Json>) {
    match v
    case None => false
    case Some(JNull) => false
    case Some(JBool(b)) => b
    case Some(JNum(n)) => n != 0
    case Some(JStr(s)) => s != ""
    case Some(_) => true
  }

  /** `v?.key`: `undefined` unless `v` is an object with that property. */
  function Member(v: Option<Json>, key: string): (r: Option<Json>)
    ensures r.Some? ==> v.Some? && v.value.JObj? && key in v.value.fields
    ensures v.Some? && v.value.JObj? && key in v.value.fields ==> r == Some(v.value.fields[key])
  {
    match v
    case Some(JObj(fields)) => if key in fields then Some(fields[key]) else None
    case _ => None
  }

  /** `v?.[0]`: the first element of an array, property `"0"` of an object, the first character of a string. */
  function First(v: Option<Json>): (r: Option<Json>)
    ensures v.Some? && v.value.JArr? && v.value.items != [] ==> r == Some(v.value.items[0])
    ensures v.Some? && v.value.JArr? && v.value.items == [] ==> r.None?
    ensures r.Some? ==> v.Some? && (v.value.JArr? || v.value.JObj? || v.value.JStr?)
  {
    match v
    case Some(JArr(items)) => if items == [] then None else Some(items[0])
    case Some(JObj(_)) => Member(v, "0")
    case Some(JStr(s)) => if s == "" then None else Some(JStr([s[0]]))
    case _ => None
  }

  /** `data?.choices?.[0]?.message?.content` */
  function ContentOf(data: Json): (content: Option<Json>)
    ensures content.Some? ==> data.JObj? && "choices" in data.fields
    ensures var choices := Member(Some(data), "choices");
      choices.Some? && choices.value.JArr? && choices.value.items != [] ==>
      content == Member(Member(Some(choices.value.items[0]), "message"), "content")
    ensures var choices := Member(Some(data), "choices");
      choices.Some? && choices.value.JArr? && choices.value.items == [] ==> content.None?
  {
    Member(Member(First(Member(Some(data), "choices")), "message"), "content")
  }

  /** One entry of the request's `messages` list. */
  datatype Message = Message(role: string, content: string)

  /** The request `fetch` is called with; the JSON body is kept as its two fields. */
  datatype Request = Request(
    url: string,
    httpMethod: string,
    headers: seq<(string, string)>,
    model: string,
    messages: seq<Message>)

  /**
   * What `fetch` gives back: a rejected promise, or a response whose body may
   * be unreadable as text (`text == None`) or not JSON (`json == None`).
   */
  datatype Response =
    | NetworkError
    | Response(ok: bool, status: nat, statusText: string, text: Option<string>, json: Option<Json>)

  /** The errors `generateText` throws. */
  datatype GenerateError =
    | MissingApiKey
    | FetchFailed
    | RequestFailed(status: nat, statusText: string, detail: string)
    | MalformedBody
    | MissingContent
    | NonTextContent

  /** The model named in the request: `AI_MODEL_NAME || 'gemini-2.5-pro'`. */
  function ModelName(aiModelName: Option<string>): (model: string)
    ensures Strings.Truthy(aiModelName) ==> model == aiModelName.value
    ensures !Strings.Truthy(aiModelName) ==> model == DefaultModel
    ensures model != ""
  {
    Strings.OrDefault(aiModelName, DefaultModel)
  }

  /** The value of the first header called `name`. */
  function Header(headers: seq<(string, string)>, name: string): (r: Option<string>)
    ensures r.Some? ==> (name, r.value) in headers
    ensures r.None? ==> forall h :: h in headers ==> h.0 != name
  {
    if headers == [] then None
    else if headers[0].0 == name then Some(headers[0].1)
    else Header(headers[1..], name)
  }

  /**
   * The POST request for `prompt`: it carries the model, exactly one `user`
   * message whose content is the prompt, a JSON content type and the key as a
   * bearer token.
   */
  function BuildRequest(apiKey: string, model: string, prompt: string): (req: Request)
    ensures req.url == ApiUrl && req.httpMethod == "POST"
    ensures req.model == model && req.messages == [Message("user", prompt)]
    ensures Header(req.headers, "Authorization") == Some("Bearer " + apiKey)
    ensures Header(req.headers, "Content-Type") == Some("application/json")
  {
    Request(
      ApiUrl,
      "POST",
      [("Content-Type", "application/json"), ("Authorization", "Bearer " + apiKey)],
      model,
      [Message("user", prompt)])
  }

  /** The answer of a successful exchange: a non-empty string at `choices[0].message.content`. */
  predicate Answered(res: Response)
  {
    && res.Response?
    && res.ok
    && res.json.Some?
    && var content := ContentOf(res.json.value);
       content.Some? && content.value.JStr? && content.value.s != ""
  }

  /** `generateText(prompt)` under the given environment and exchange. */
  function GenerateText(apiKey: Option<string>, aiModelName: Option<string>, prompt: string,
                        fetch: Request -> Response): (r: Result<string, GenerateError>)
    ensures !Strings.Truthy(apiKey) ==> r == Err(MissingApiKey)
    ensures Strings.Truthy(apiKey) ==>
      var res := fetch(BuildRequest(apiKey.value, ModelName(aiModelName), prompt));
      && (r.Ok? <==> Answered(res))
      && (r.Ok? ==> ContentOf(res.json.value) == Some(JStr(r.value)) && r.value != "")
      && (res.NetworkError? ==> r == Err(FetchFailed))
      && (res.Response? && !res.ok ==> r == Err(RequestFailed(res.status, res.statusText, Strings.OrDefault(res.text, ""))))
      && (res.Response? && res.ok && res.json.Some? && !Truthy(ContentOf(res.json.value)) ==> r == Err(MissingContent))
  {
    if !Strings.Truthy(apiKey) then Err(MissingApiKey)
    else
      var res := fetch(BuildRequest(apiKey.value, ModelName(aiModelName), prompt));
      if res.NetworkError? then Err(FetchFailed)
      else if !res.ok then Err(RequestFailed(res.status, res.statusText, if res.text.Some? then res.text.value else ""))
      else if res.json.None? then Err(MalformedBody)
      else
        var content := ContentOf(res.json.value);
        if !Truthy(content) then Err(MissingContent)
        else if !content.value.JStr? then Err(NonTextContent)
        else Ok(content.value.s)
  }

  /** With no usable key the outcome does not depend on the exchange: no request is issued. */
  lemma MissingKeyIssuesNoRequest(apiKey: Option<string>, aiModelName: Option<string>, prompt: string,
                                  fetch1: Request -> Response, fetch2: Request -> Response)
    requires !Strings.Truthy(apiKey)
    ensures GenerateText(apiKey, aiModelName, prompt, fetch1) == GenerateText(apiKey, aiModelName, prompt, fetch2)
  {
  }

  /** A rejected request never yields the body's content, whatever the body holds. */
  lemma RejectedResponseNotReturned(apiKey: Option<string>, aiModelName: Option<string>, prompt: string,
                                    fetch: Request -> Response)
    requires Strings.Truthy(apiKey)
    requires var res := fetch(BuildRequest(apiKey.value, ModelName(aiModelName), prompt));
      res.Response? && !res.ok
    ensures GenerateText(apiKey, aiModelName, prompt, fetch).Err?
    ensures GenerateText(apiKey, aiModelName, prompt, fetch).error.RequestFailed?
  {
  }

  /** The number a string of decimal digits spells, most significant digit first. */
  function DigitsValue(s: string): (v: nat)
  {
    if s == [] then 0
    else
      var d := s[|s| - 1] as int - '0' as int;
      DigitsValue(s[..|s| - 1]) * 10 + (if 0 <= d <= 9 then d else 0)
  }

  /** `${n}`: the decimal digits of `n`, without leading zeros. */
  function DecimalString(n: nat): (s: string)
    ensures s != []
    ensures forall k :: 0 <= k < |s| ==> '0' <= s[k] <= '9'
    ensures DigitsValue(s) == n
    ensures s[0] == '0' ==> s == "0"
  {
    var digit := ['0' + (n % 10) as char];
    if n < 10 then digit
    else
      var high := DecimalString(n / 10);
      assert (high + digit)[..|high + digit| - 1] == high;
      high + digit
  }

  /** The `message` of each thrown error whose text the source fixes. */
  function ErrorMessage(e: GenerateError): (msg: Option<string>)
    ensures msg.Some? <==> e.MissingApiKey? || e.RequestFailed? || e.MissingContent?
    ensures e.MissingApiKey? ==> msg == Some("AVALAI_API_KEY is not set in the environment")
    ensures e.MissingContent? ==> msg == Some("Invalid response from AvalAI: missing choices[0].message.content")
    ensures e.RequestFailed? ==>
      var prefix := "AvalAI request failed: " + DecimalString(e.status) + " ";
      && prefix <= msg.value
      && msg.value[|prefix|..] == e.statusText + " " + e.detail
  {
    match e
    case MissingApiKey => Some("AVALAI_API_KEY is not set in the environment")
    case RequestFailed(status, statusText, detail) =>
      Some("AvalAI request failed: " + DecimalString(status) + " " + statusText + " " + detail)
    case MissingContent => Some("Invalid response from AvalAI: missing choices[0].message.content")
    case NonTextContent => None
    case FetchFailed => None
    case MalformedBody => None
  }
}
