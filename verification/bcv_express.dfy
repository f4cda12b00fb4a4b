/** The Express back end (`bcvApi/server.js`): the CORS middleware and the
    `/api/bcv` handler, in the form it is written and in the form its
    response mapping intends. */
module BcvExpress {
  import opened Wrappers
  import opened Ascii
  import opened Decimal
  import opened Segments
  import opened Rewrite

  /** Response headers, by name. */
  type Headers = map<string, string>

  const AllowOrigin: string := "Access-Control-Allow-Origin"
  const AllowHeaders: string := "Access-Control-Allow-Headers"
  const AllowedHeaders: string := "Origin, X-Requested-With, Content-Type, Accept"

  /** The headers a middleware leaves on the response and whether it passed
      control on with `next()`. */
  datatype Passed = Passed(headers: Headers, calledNext: bool)

  /** The CORS middleware: any origin and the four request headers are
      allowed, every other header is left alone, and `next` is always
      called. */
  function Cors(headers: Headers): (r: Passed)
    ensures r.calledNext
    ensures r.headers.Keys == headers.Keys + {AllowOrigin, AllowHeaders}
    ensures r.headers[AllowOrigin] == "*" && r.headers[AllowHeaders] == AllowedHeaders
    ensures forall h :: h in headers && h != AllowOrigin && h != AllowHeaders ==> r.headers[h] == headers[h]
  {
    Passed(headers[AllowOrigin := "*"][AllowHeaders := AllowedHeaders], true)
  }

  /** Running the middleware twice leaves the same headers as running it once. */
  lemma CorsIdempotent(headers: Headers)
    ensures Cors(Cors(headers).headers) == Cors(headers)
  {
  }

  /** What `axios.get` returned: a thrown network error with its message, or
      a response with its status and the text of `#dolar strong` (cheerio
      gives "" when the element is missing). */
  datatype Fetch = NetworkError(message: string) | HttpAnswer(status: int, strongText: string)

  /** axios rejects every status outside 2xx with this message. */
  function AxiosRejection(status: int): (msg: string)
    requires !(200 <= status < 300)
    ensures Contains(msg, IntToString(status))
    ensures |msg| > 32 && ParseInt(msg[32..]) == Some(status)
  {
    ContainsSuffix("Request failed with status code ", IntToString(status));
    ParseIntToString(status);
    "Request failed with status code " + IntToString(status)
  }

  /** `tasaTexto.replace(',', '.')` with `tasaTexto` trimmed: only the first
      comma becomes a point. */
  function Normalise(text: string): (r: string)
    ensures |r| == |Trim(text)|
    ensures ',' !in Trim(text) ==> r == Trim(text)
    ensures ',' in Trim(text) ==> r[IndexOf(Trim(text), ',')] == '.'
    ensures ',' in Trim(text) ==> forall k :: 0 <= k < |r| && k != IndexOf(Trim(text), ',') ==> r[k] == Trim(text)[k]
    ensures |r| > 0 ==> !IsSpace(r[0]) && !IsSpace(r[|r| - 1])
  {
    var t := Trim(text);
    ReplaceFirstEnds(t, ',', '.');
    assert !IsSpace('.');
    ReplaceFirst(t, ',', '.')
  }

  /** Every comma after the first survives, so text with two commas still
      holds one after normalising. */
  lemma LaterCommasSurvive(text: string)
    ensures Count(Normalise(text), ',') == if ',' in Trim(text) then Count(Trim(text), ',') - 1 else 0
  {
    ReplaceFirstCount(Trim(text), ',', '.');
  }

  const Source: string := "Banco Central de Venezuela"
  const SuccessMessage: string := "Datos obtenidos exitosamente"
  const FailureMessage: string := "Hubo un error al intentar obtener la tasa del BCV"

  /** The two JSON bodies; `tasaNumerica` is `None` for NaN (sent as `null`). */
  datatype Json =
    | SuccessJson(exito: bool, fuente: string, monedaOrigen: string, monedaDestino: string,
                  tasaNumerica: Option<real>, fechaConsulta: string, mensaje: string)
    | ErrorJson(exito: bool, mensaje: string, error: string)

  /** How a request ended: a response sent with a status and a body, or
      never answered because the handler itself threw. */
  datatype Reply = Sent(status: int, body: Json) | Unanswered(error: string)

  /** The object the handler calls `.json` and `.status` on: Express passes
      the request first and the response second. */
  datatype Receiver = RequestObject | ResponseObject

  /** The `TypeError` messages for the two methods the request lacks: the
      one called first is the one named. */
  const NoStatusMethod: string := "res.status is not a function"
  const NoJsonMethod: string := "res.json is not a function"

  /** `recv.json(body)` after an optional `recv.status(code)`: a response
      object sends it; the request object has neither method, so the call
      throws a `TypeError` naming the first missing one. */
  function SendJson(recv: Receiver, status: Option<int>, body: Json): (r: Result<Reply>)
    ensures recv.ResponseObject? ==> r == Ok(Sent(if status.Some? then status.value else 200, body))
    ensures r.Ok? <==> recv.ResponseObject?
    ensures r.Err? ==> r.message == if status.Some? then NoStatusMethod else NoJsonMethod
  {
    match recv
    case ResponseObject => Ok(Sent(if status.Some? then status.value else 200, body))
    case RequestObject => Err(if status.Some? then NoStatusMethod else NoJsonMethod)
  }

  /** The body of the handler with `res` bound to `recv`; `parseFloat` is
      JavaScript's (`None` is NaN) and `now` the ISO time of the request. */
  function Handle(recv: Receiver, fetch: Fetch, parseFloat: string -> Option<real>, now: string): Reply
  {
    var attempt :=
      match fetch
      case NetworkError(m) => Err(m)
      case HttpAnswer(status, text) =>
        if !(200 <= status < 300) then Err(AxiosRejection(status))
        else SendJson(recv, None, SuccessJson(true, Source, "USD", "VED", parseFloat(Normalise(text)), now, SuccessMessage));
    match attempt
    case Ok(reply) => reply
    case Err(message) =>
      match SendJson(recv, Some(500), ErrorJson(false, FailureMessage, message))
      case Ok(reply) => reply
      case Err(thrown) => Unanswered(thrown)
  }

  /** The route as registered, `async (res) => …`: `res` is the request. */
  function HandleAsWritten(fetch: Fetch, parseFloat: string -> Option<real>, now: string): Reply
  {
    Handle(RequestObject, fetch, parseFloat, now)
  }

  /** As written, no request is ever answered: the success path throws on
      `res.json`, and the `catch` throws again on `res.status`. */
  lemma AsWrittenNeverAnswers(fetch: Fetch, parseFloat: string -> Option<real>, now: string)
    ensures HandleAsWritten(fetch, parseFloat, now) == Unanswered(NoStatusMethod)
  {
  }

  /** The route as `async (req, res) => …`: every request gets one of the
      two bodies. A 2xx answer gives status 200 and the success body with
      the parsed rate of the normalised text; any failure gives status 500
      and the error body carrying the failure's message. */
  function HandleIntended(fetch: Fetch, parseFloat: string -> Option<real>, now: string): (r: Reply)
    ensures r.Sent?
    ensures r.body.SuccessJson? <==> fetch.HttpAnswer? && 200 <= fetch.status < 300
    ensures r.body.SuccessJson? ==>
              && r.status == 200 && r.body.exito
              && r.body.fuente == Source && r.body.monedaOrigen == "USD"
              && r.body.monedaDestino == "VED" && r.body.mensaje == SuccessMessage
              && r.body.tasaNumerica == parseFloat(Normalise(fetch.strongText))
              && r.body.fechaConsulta == now
    ensures r.body.ErrorJson? ==> r.status == 500 && !r.body.exito && r.body.mensaje == FailureMessage
    ensures fetch.NetworkError? ==> r.body == ErrorJson(false, FailureMessage, fetch.message)
    ensures fetch.HttpAnswer? && !(200 <= fetch.status < 300) ==>
              r.body.ErrorJson? && Contains(r.body.error, IntToString(fetch.status))
  {
    Handle(ResponseObject, fetch, parseFloat, now)
  }

  /** A missing `#dolar strong` is not an error: the text is "", and the
      success body goes out with a NaN rate. */
  lemma MissingRateStillSucceeds(parseFloat: string -> Option<real>, now: string)
    requires parseFloat("") == None
    ensures HandleIntended(HttpAnswer(200, ""), parseFloat, now).body.SuccessJson?
    ensures HandleIntended(HttpAnswer(200, ""), parseFloat, now).body.tasaNumerica.None?
  {
    assert Trim("") == "";
  }
}
