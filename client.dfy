/** The client-side message types and the response pipeline over raw bytes
    (src/http/client.rs). Every stage is a stub that returns fixed values
    whatever the input: the byte-level version parser consumes nothing and
    always answers `Version11`, the status line is always `Version11`, `Ok`
    and an empty reason phrase, and `Get` answers a fixed `OK` response. */
module Client {
  import opened Wrappers
  import opened Http
  import HttpMessage

  /** A parsed response: what its status line carried. */
  datatype Response = Response(httpVersion: HttpVersion, statusCode: StatusCode, reasonPhrase: string)

  /** A parsed HTTP message; responses are the only kind. */
  datatype Message = Response(response: Response)

  /** Byte-level version parser: answers `Version11` and hands back the whole
      input as the remainder. */
  function ParseHttpVersion(msg: seq<bv8>): (r: (HttpVersion, seq<bv8>))
    ensures r.0 == Version11
    ensures r.1 == msg
  {
    (Version11, msg)
  }

  /** Status-line parser: takes its version from the byte-level version
      parser and pairs it with a fixed `Ok` status and an empty reason
      phrase. */
  function ParseStatusLine(msg: seq<bv8>): (r: (HttpVersion, StatusCode, string))
    ensures r.0 == ParseHttpVersion(msg).0
    ensures r == (Version11, Ok, "")
  {
    var (httpVersion, remain) := ParseHttpVersion(msg);
    (httpVersion, Ok, "")
  }

  /** Message parser: builds a `Response` from the status-line triple and
      always succeeds. */
  function ParseMessage(msg: seq<bv8>): (r: Option<Message>)
    ensures r.Some?
    ensures r.value.response.httpVersion == ParseStatusLine(msg).0
    ensures r.value.response.statusCode == ParseStatusLine(msg).1
    ensures r.value.response.reasonPhrase == ParseStatusLine(msg).2
    ensures r == Some(Message.Response(Response.Response(Version11, Ok, "")))
  {
    var (httpVersion, statusCode, reasonPhrase) := ParseStatusLine(msg);
    var response := Response.Response(httpVersion, statusCode, reasonPhrase);
    Some(Message.Response(response))
  }

  /** The GET entry point: whatever the URL, a `Version11`, `Ok`, `"OK"`
      response. No request is sent. */
  function Get(url: string): (r: Option<Response>)
    ensures r == Some(Response.Response(Version11, Ok, "OK"))
  {
    var response := Response.Response(Version11, Ok, "OK");
    Some(response)
  }

  /** The parsed message does not depend on the bytes given. */
  lemma ParseMessageIgnoresInput(a: seq<bv8>, b: seq<bv8>)
    ensures ParseMessage(a) == ParseMessage(b)
  {
  }

  /** `ParseMessage` and `Get` agree on version and status and differ only in
      the reason phrase: empty against `"OK"`. */
  lemma ParseMessageDiffersFromGet(msg: seq<bv8>, url: string)
    ensures ParseMessage(msg).value.response.httpVersion == Get(url).value.httpVersion
    ensures ParseMessage(msg).value.response.statusCode == Get(url).value.statusCode
    ensures ParseMessage(msg).value.response.reasonPhrase == ""
    ensures Get(url).value.reasonPhrase == "OK"
    ensures ParseMessage(msg) != Some(Message.Response(Get(url).value))
  {
  }

  /** The bytes of `HTTP/1.1 200 OL`, a blank line and a small HTML body. */
  const ResponseTestBytes: seq<bv8> := [
    0x48, 0x54, 0x54, 0x50, 0x2f, 0x31, 0x2E, 0x31, 0x20, 0x32, 0x30, 0x30, 0x20, 0x4F, 0x4C, 0x0D, 0x0A,
    0x0D, 0x0A,
    0x3C, 0x21, 0x64, 0x6F, 0x63, 0x74, 0x79, 0x70, 0x65, 0x20, 0x68, 0x74, 0x6D, 0x6C, 0x3E, 0x3C, 0x68,
    0x74, 0x6D, 0x6c, 0x3E, 0x3C, 0x2F, 0x68, 0x74, 0x6D, 0x6c, 0x3E]

  /** On the response test's bytes the parser yields an empty reason phrase,
      so the `"OK"` reason phrase that the test expects is not what it
      returns. (The bytes themselves carry the reason phrase `OL`.) */
  lemma ParseResponseTestOutcome()
    ensures ParseMessage(ResponseTestBytes) == Some(Message.Response(Response.Response(Version11, Ok, "")))
    ensures ParseMessage(ResponseTestBytes) != Some(Message.Response(Response.Response(Version11, Ok, "OK")))
  {
  }

  /** The byte-level stub and the character-level recogniser disagree on an
      `HTTP/1.0` token: the recogniser answers `Version10` and consumes the
      token, the stub answers `Version11` and consumes nothing. */
  lemma StubDisagreesWithRecogniser()
    ensures HttpMessage.ParseHttpVersion("HTTP/1.0") == Some((Version10, []))
    ensures ParseHttpVersion([0x48, 0x54, 0x54, 0x50, 0x2f, 0x31, 0x2e, 0x30])
         == (Version11, [0x48, 0x54, 0x54, 0x50, 0x2f, 0x31, 0x2e, 0x30])
  {
  }
}
