/**
 * The probe executor: one GET for one candidate word (`Wrapper.get` and
 * `http_get_with_aiohttp`). The network is replaced by a `Transport` value
 * that says what the aiohttp calls would have produced.
 */
module Executor {
  import opened Wrappers

  type Byte = b: int | 0 <= b < 256

  /**
   * A decoded JSON document. Its structure is opaque to the model except for
   * the `null` literal, which Python decodes to `None` (aiohttp also returns
   * `None` for a body that is empty after stripping white space).
   */
  datatype Json = JNull | JValue(text: string)

  /** What `await response.json(content_type=None)` does. */
  datatype JsonOutcome =
    | Decoded(value: Json)
      /** `json.decoder.JSONDecodeError`, the one exception the source catches. */
    | DecodeError
      /** Any other exception: a body that cannot be read or decoded to text. */
    | OtherError

  /** What `await response.read()` does; the source catches every exception here. */
  datatype ReadOutcome = Read(body: seq<Byte>) | ReadFailed

  /** What `session.get(url, ...)` does; `Failed` is any exception, which `Wrapper.get` turns into `None`. */
  datatype Transport =
    | Failed
    | Response(status: int, json: JsonOutcome, read: ReadOutcome)

  /** One candidate: the base URL, the word and the URL probed for it. */
  datatype Request = Request(baseUrl: string, word: string, url: string)

  /**
   * The 6-tuple the probe returns, fields in the column order of the CSV
   * header: base_url, word_tested, url, status_code, response_json,
   * response_content.
   */
  datatype Record = Record(
    baseUrl: string,
    word: string,
    url: string,
    status: Option<int>,
    json: Option<Json>,
    content: Option<seq<Byte>>)

  /** The value left in `response_json`: a decode failure of any kind, and a decoded `null`, leave `None`. */
  function JsonField(o: JsonOutcome): (r: Option<Json>)
    ensures r.Some? <==> o.Decoded? && o.value != JNull
    ensures r.Some? ==> r.value == o.value
  {
    match o
    case Decoded(v) => if v == JNull then None else Some(v)
    case _ => None
  }

  /** The value left in `response_content`. */
  function ContentField(o: ReadOutcome): (r: Option<seq<Byte>>)
    ensures r.Some? <==> o.Read?
    ensures r.Some? ==> r.value == o.body
  {
    match o
    case Read(body) => Some(body)
    case ReadFailed => None
  }

  /**
   * The record one probe yields, every failure absorbed into a `None` field.
   * The request's three fields are kept; the status is `None` exactly when
   * the transport call failed, and is then the received status otherwise;
   * the JSON and the content fields depend on their own outcome only.
   */
  function Probe(req: Request, t: Transport): (r: Record)
    ensures r.baseUrl == req.baseUrl && r.word == req.word && r.url == req.url
    ensures r.status.None? <==> t.Failed?
    ensures t.Response? ==> r.status == Some(t.status)
    ensures t.Failed? ==> r.json.None? && r.content.None?
    ensures r.json.Some? <==> t.Response? && t.json.Decoded? && t.json.value != JNull
    ensures r.json.Some? ==> r.json.value == t.json.value
    ensures r.content.Some? <==> t.Response? && t.read.Read?
    ensures r.content.Some? ==> r.content.value == t.read.body
  {
    match t
    case Failed => Record(req.baseUrl, req.word, req.url, None, None, None)
    case Response(status, j, body) =>
      Record(req.baseUrl, req.word, req.url, Some(status), JsonField(j), ContentField(body))
  }

  /**
   * The corrected `http_get_with_aiohttp`, statement by statement: the
   * wrapper's GET, then `response_json` and `response_content` each set to
   * `None` and overwritten when their call succeeds. Unlike the source, a
   * failure of `response.json` other than a decode error also leaves
   * `response_json` as `None` instead of raising (see `ProbeAsWritten`).
   */
  method HttpGet(req: Request, t: Transport) returns (r: Record)
    ensures r == Probe(req, t)
  {
    var response := t;
    if response.Response? {
      var responseJson: Option<Json> := None;
      if response.json.Decoded? && response.json.value != JNull {
        responseJson := Some(response.json.value);
      }
      var responseContent: Option<seq<Byte>> := None;
      if response.read.Read? {
        responseContent := Some(response.read.body);
      }
      r := Record(req.baseUrl, req.word, req.url, Some(response.status), responseJson, responseContent);
    } else {
      r := Record(req.baseUrl, req.word, req.url, None, None, None);
    }
  }

  /** The JSON field does not depend on the read outcome, and the content field not on the JSON outcome. */
  lemma OutcomesIndependent(req: Request, status: int, j1: JsonOutcome, j2: JsonOutcome, b1: ReadOutcome, b2: ReadOutcome)
    ensures Probe(req, Response(status, j1, b1)).json == Probe(req, Response(status, j1, b2)).json
    ensures Probe(req, Response(status, j1, b1)).content == Probe(req, Response(status, j2, b1)).content
    ensures Probe(req, Response(status, j1, b1)).status == Probe(req, Response(status, j2, b2)).status
  {
  }

  // ---------------------------------------------------------------------
  // The probe as written: only `JSONDecodeError` is caught around
  // `response.json`, so any other exception there leaves the probe.

  /** The outcome of awaiting one probe task: its record, or an exception it raised. */
  datatype Probed = Completed(record: Record) | Raised

  /** `http_get_with_aiohttp` as written, with the escaping exception made explicit. */
  function ProbeAsWritten(req: Request, t: Transport): (p: Probed)
    ensures p.Raised? <==> t.Response? && t.json.OtherError?
    ensures p.Completed? ==> p.record == Probe(req, t)
  {
    match t
    case Failed => Completed(Probe(req, t))
    case Response(_, j, _) => if j.OtherError? then Raised else Completed(Probe(req, t))
  }

  /** A 200 response whose body breaks off while `response.json` reads it makes the probe raise. */
  lemma ProbeAsWrittenRaises()
    ensures ProbeAsWritten(Request("https://example.com/api/", "users", "https://example.com/api/users"),
                           Response(200, OtherError, ReadFailed)) == Raised
  {
  }
}
