/**
 * The response side of one HTTP request: the server's response object and
 * `BodyWriter`, the text writer over its body stream that frames a JSON or
 * JSONP payload and commits the headers exactly once.
 */
module WebServer {
  import opened Wrappers
  import opened Text
  import opened Payload

  const CacheControl: string := "Cache-Control"
  const NoCache: string := "no-cache, no-store, must-revalidate, max-age=0"
  const JsonContentType: string := "application/json"
  const StatusOK: int := 200

  /** Everything a response carries, as one value. */
  datatype ResponseState = ResponseState(
    headersSent: bool,
    headers: map<string, string>,
    status: int,
    reason: string,
    contentType: string,
    contentLength: int,
    body: string)

  /**
   * The server's `IHttpResponse`. Transmission is not modelled: `Send` only
   * records that the headers are committed, and the ghost counter `sends`
   * records how often that happened.
   */
  class Response {
    var headersSent: bool
    var headers: map<string, string>
    var status: int
    var reason: string
    var contentType: string
    var contentLength: int
    var body: string      // what has reached the body stream
    ghost var sends: nat

    /** Headers are committed at most once, and never before they are marked sent. */
    ghost predicate Valid()
      reads this
    {
      sends <= 1 && (!headersSent ==> sends == 0)
    }

    ghost function State(): ResponseState
      reads this
    {
      ResponseState(headersSent, headers, status, reason, contentType, contentLength, body)
    }

    /** A response as the server hands it to a handler; a streaming caller may already have sent its headers. */
    constructor (initial: ResponseState)
      ensures Valid() && State() == initial && sends == 0
    {
      headersSent := initial.headersSent;
      headers := initial.headers;
      status := initial.status;
      reason := initial.reason;
      contentType := initial.contentType;
      contentLength := initial.contentLength;
      body := initial.body;
      sends := 0;
    }

    method AddHeader(name: string, value: string)
      modifies this
      ensures State() == old(State()).(headers := old(headers)[name := value])
      ensures sends == old(sends)
    {
      headers := headers[name := value];
    }

    /** Commits the headers; the server refuses to do this twice. */
    method Send()
      requires Valid() && !headersSent
      modifies this
      ensures Valid()
      ensures State() == old(State()).(headersSent := true)
      ensures sends == old(sends) + 1
    {
      headersSent := true;
      sends := sends + 1;
    }
  }

  /** The body `WriteJsonObject` produces: the JSON text, wrapped as `callback(...)` when a callback is named. */
  function Frame(jsonp: Option<string>, json: string): string {
    if IsNullOrEmpty(jsonp) then json else jsonp.value + "(" + json + ")"
  }

  /** What a JSONP client does with the body: drop `callback(` and `)` when a callback was named. */
  function Unframe(jsonp: Option<string>, body: string): Option<string> {
    if IsNullOrEmpty(jsonp) then Some(body)
    else
      var n := |jsonp.value|;
      if |body| >= n + 2 && body[..n] == jsonp.value && body[n] == '(' && body[|body| - 1] == ')'
      then Some(body[n + 1..|body| - 1])
      else None
  }

  /** The callback framing loses nothing: a client that knows the callback name recovers the JSON text. */
  lemma FrameRoundTrip(jsonp: Option<string>, json: string)
    ensures Unframe(jsonp, Frame(jsonp, json)) == Some(json)
  {
    if !IsNullOrEmpty(jsonp) {
      var cb := jsonp.value;
      var b := Frame(jsonp, json);
      assert b == cb + "(" + json + ")";
      assert b[..|cb|] == cb;
      assert b[|cb|] == '(';
      assert b[|cb| + 1..|b| - 1] == json;
    }
  }

  /** With a named callback the body is `callback(`, the JSON text and `)`; without one it is the JSON text alone. */
  lemma FrameShape(jsonp: Option<string>, json: string)
    ensures IsNullOrEmpty(jsonp) ==> Frame(jsonp, json) == json
    ensures !IsNullOrEmpty(jsonp) ==>
      var b := Frame(jsonp, json);
      |b| == |jsonp.value| + |json| + 2 &&
      b[..|jsonp.value|] == jsonp.value && b[|jsonp.value|] == '(' &&
      b[|jsonp.value| + 1..|b| - 1] == json && b[|b| - 1] == ')'
  {
    FrameRoundTrip(jsonp, json);
  }

  /**
   * The response once a handler's answer has gone out with `body` as its
   * body: status 200 "OK", and, when the headers were still unsent, the JSON
   * content type, the body's length and the headers committed. The header
   * map is left alone.
   */
  function Answered(before: ResponseState, body: string): ResponseState {
    if before.headersSent then before.(status := StatusOK, reason := "OK", body := body)
    else before.(status := StatusOK, reason := "OK", contentType := JsonContentType,
                 body := body, contentLength := |body|, headersSent := true)
  }

  /**
   * `BodyWriter`: a `StreamWriter` over the response body. The characters it
   * has been given but not yet flushed to the body stream are in `buffer`.
   * The serializer the source calls is the function `json`.
   */
  class BodyWriter {
    const resp: Response
    const jsonp: Option<string>
    const json: Obj -> string
    var buffer: string
    var disposed: bool

    /** Once disposed, the writer has flushed everything and the headers are sent. */
    ghost predicate Valid()
      reads this, resp
    {
      resp.Valid() && (disposed ==> resp.headersSent && buffer == [])
    }

    /** Disables caching, unless the headers have already gone out. */
    constructor (resp: Response, jsonp: Option<string>, json: Obj -> string)
      requires resp.Valid()
      modifies resp
      ensures Valid()
      ensures this.resp == resp && this.jsonp == jsonp && this.json == json
      ensures buffer == [] && !disposed
      ensures old(resp.headersSent) ==> resp.State() == old(resp.State())
      ensures !old(resp.headersSent) ==>
        resp.State() == old(resp.State()).(headers := old(resp.headers)[CacheControl := NoCache])
      ensures resp.sends == old(resp.sends)
    {
      this.resp := resp;
      this.jsonp := jsonp;
      this.json := json;
      buffer := [];
      disposed := false;
      new;
      if !resp.headersSent {
        resp.AddHeader(CacheControl, NoCache);
      }
    }

    method Write(s: string)
      requires !disposed
      modifies this
      ensures buffer == old(buffer) + s && disposed == old(disposed)
    {
      buffer := buffer + s;
    }

    method Flush()
      modifies this, resp
      ensures buffer == [] && disposed == old(disposed)
      ensures resp.State() == old(resp.State()).(body := old(resp.body) + old(buffer))
      ensures resp.sends == old(resp.sends)
    {
      resp.body := resp.body + buffer;
      buffer := [];
    }

    /**
     * If the headers are still unsent: flush, set the content length to the
     * size of the body stream and send. Then release the writer, which
     * flushes whatever is left. Disposing again changes nothing.
     */
    method Dispose()
      requires Valid()
      modifies this, resp
      ensures Valid() && disposed && resp.headersSent
      ensures old(resp.headersSent) ==>
        resp.State() == old(resp.State()).(body := old(resp.body) + old(buffer)) &&
        resp.sends == old(resp.sends)
      ensures !old(resp.headersSent) ==>
        var b := old(resp.body) + old(buffer);
        resp.State() == old(resp.State()).(body := b, contentLength := |b|, headersSent := true) &&
        resp.sends == old(resp.sends) + 1
    {
      if !resp.headersSent {
        Flush();
        resp.contentLength := |resp.body|;
        resp.Send();
      }
      Flush();
      disposed := true;
    }

    method SetOK()
      modifies resp
      ensures resp.State() == old(resp.State()).(status := StatusOK, reason := "OK")
      ensures resp.sends == old(resp.sends)
    {
      resp.reason := "OK";
      resp.status := StatusOK;
    }

    /**
     * Writes `o` as the whole remaining body and disposes the writer. A
     * writer that is already disposed refuses (`ok` is false: the source
     * throws) and nothing changes.
     */
    method WriteJsonObject(o: Obj) returns (ok: bool)
      requires Valid()
      modifies this, resp
      ensures Valid()
      ensures ok == !old(disposed)
      ensures !ok ==> resp.State() == old(resp.State()) && resp.sends == old(resp.sends) && buffer == old(buffer) && disposed
      ensures ok ==> disposed && resp.headersSent
      ensures ok ==> resp.body == old(resp.body) + old(buffer) + Frame(jsonp, json(o))
      ensures ok && old(resp.headersSent) ==>
        resp.State() == old(resp.State()).(body := resp.body) && resp.sends == old(resp.sends)
      ensures ok && !old(resp.headersSent) ==>
        resp.State() == old(resp.State()).(contentType := JsonContentType, body := resp.body,
                                           contentLength := |resp.body|, headersSent := true) &&
        resp.sends == old(resp.sends) + 1
    {
      if !resp.headersSent {
        resp.contentType := JsonContentType;
      }
      if disposed {
        return false;
      }
      ghost var before := resp.body + buffer;
      ghost var sent := resp.headersSent;
      if !IsNullOrEmpty(jsonp) {
        Write(jsonp.value);
        Write("(");
      }
      Write(json(o));
      if !IsNullOrEmpty(jsonp) {
        Write(")");
        Flush();
      }
      assert resp.body + buffer == before + Frame(jsonp, json(o));
      assert resp.headersSent == sent;
      Dispose();
      return true;
    }

    /** Status 200 "OK", then `result` or, when there is none, `{ Status = "OK" }`, as the body. */
    method OutputOK(result: Option<Obj>) returns (ok: bool)
      requires Valid()
      modifies this, resp
      ensures Valid()
      ensures ok == !old(disposed)
      ensures resp.status == StatusOK && resp.reason == "OK"
      ensures ok ==> disposed && resp.headersSent
      ensures ok ==> resp.body == old(resp.body) + old(buffer) + Frame(jsonp, json(result.GetOr(SuccessResponse)))
      ensures ok ==>
        resp.State() == Answered(old(resp.State()), resp.body) &&
        resp.sends == old(resp.sends) + (if old(resp.headersSent) then 0 else 1)
      ensures !ok ==>
        resp.State() == old(resp.State()).(status := StatusOK, reason := "OK") && resp.sends == old(resp.sends) &&
        disposed && buffer == old(buffer)
    {
      SetOK();
      ok := WriteJsonObject(result.GetOr(SuccessResponse));
    }
  }

  /**
   * How a handler's writer is used: the handler outputs its result, and the
   * request's own scope disposes the writer once more when it ends. The headers
   * still go out once, and only if they had not gone out before.
   */
  method OutputAndRelease(w: BodyWriter, result: Option<Obj>) returns (ok: bool)
    requires w.Valid()
    modifies w, w.resp
    ensures w.Valid() && w.disposed && w.resp.headersSent
    ensures ok == !old(w.disposed)
    ensures w.resp.sends == if old(w.resp.headersSent) then old(w.resp.sends) else 1
    ensures ok ==> w.resp.body == old(w.resp.body) + old(w.buffer) + Frame(w.jsonp, w.json(result.GetOr(SuccessResponse)))
  {
    ok := w.OutputOK(result);
    w.Dispose();
  }
}
