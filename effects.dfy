/** What one inbound message can make the bot do, and what the three backends
    it calls (aggregator, sources, deletion requests) can answer. */
module Effects {
  import opened JavaLang

  /** A decoded JSON object, each value as `String.valueOf` renders it. A key that
      is absent and a key whose value is JSON null are the same to `Map.get`. */
  type Obj = map<string, string>

  datatype Method = Get | Post | Patch

  /** One WebClient call: the client's base URL, the URI template with its
      variables (expanded and encoded by WebClient), and the JSON body if any. */
  datatype Request = Request(verb: Method, baseUrl: Option<string>, uri: string, uriVars: seq<string>, body: Option<Obj>)

  /** What the bot does, in order: a backend call, a Markdown text to the chat, a photo. */
  datatype Effect =
    | Call(request: Request)
    | Reply(chatId: int, text: string)
    | Photo(chatId: int, url: string, caption: string)

  /** The exceptions `onUpdateReceived` tells apart: WebClientResponseException,
      IllegalArgumentException and every other exception. */
  datatype Failure =
    | HttpStatus(status: int, responseBody: string)
    | IllegalArgument(usage: string)
    | OtherException(detail: Option<string>)

  datatype Result<T> = Ok(value: T) | Failed(failure: Failure)

  /** How a blocking `.retrieve()...block()` ends: with the decoded body (null when
      the response has none), an HTTP error status, or another exception
      (connection refused, timeout, undecodable body). */
  datatype Answer<T> =
    | Received(body: T)
    | HttpError(status: int, responseBody: string)
    | CallError(message: Option<string>)

  /** The backends as functions of the request: `fetchList` answers the
      `bodyToFlux(...).collectList()` call, `fetchOne` the `bodyToMono` calls. */
  datatype Backend = Backend(fetchList: Request -> Answer<Option<seq<Obj>>>, fetchOne: Request -> Answer<Option<Obj>>)

  /** The exception a failed call throws out of the handler. */
  function CallFailure<T>(a: Answer<T>): (f: Failure)
    requires !a.Received?
    ensures a.HttpError? <==> f.HttpStatus?
    ensures f.HttpStatus? ==> f.status == a.status && f.responseBody == a.responseBody
    ensures f.OtherException? ==> f.detail == a.message
    ensures !f.IllegalArgument?
  {
    if a.HttpError? then HttpStatus(a.status, a.responseBody) else OtherException(a.message)
  }

  /** The base URLs of the four WebClients. */
  datatype Clients = Clients(agregador: Option<string>, fuentes: Option<string>, pdi: Option<string>, solicitudes: Option<string>)

  /** How a command handler ends: normally, after its effects, or by throwing after
      the effects it already had. */
  datatype Run = Done(effects: seq<Effect>) | Threw(effects: seq<Effect>, failure: Failure)
}
