# fanoracle HTTP: version recogniser and response pipeline

This project models the HTTP message code of the `http` crate in fanoracle, written in Rust.
It covers two files:

- `src/http/message.rs` recognises the HTTP-version token at the start of a slice of characters. The token is the literal `HTTP`, then `/`, one major digit, `.` and one minor digit. Only `1.0` and `1.1` are accepted. The parser returns the version and the rest of the slice. It is modelled in `HttpMessage` (message.dfy) over `seq<char>`.
- `src/http/client.rs` holds the `Response` and `Message` types and the pipeline `parse_message` → `parse_statusline` → `parse_httpversion` over a byte vector, plus `get`. Each stage is a stub: it returns fixed values whatever the input, and the byte-level version parser hands back its input unchanged as the remainder. The model proves exactly that. It is in `Client` (client.dfy) over `seq<bv8>`.

The shared types from `src/http/lib.rs` are in `Http` (http.dfy). `Option` is in `Wrappers` (wrappers.dfy).

Points a reader should know about this code:

- A complete HTTP/1.x client would scan the status code, reason phrase, headers and body of a response. This code scans none of them. Its status-line parser ignores its input (src/http/client.rs:27-33) and always produces `Version11`, `Ok` and an empty reason phrase.
- The crate root declares `HttpVersion` with the single variant `Version11`, but `message.rs` also uses `Version10`. The model's `HttpVersion` has both variants.
- The test `parse_response_test` (src/http/client.rs:67-84) expects the reason phrase `"OK"`. The code returns `""` (src/http/client.rs:30). `Client.ParseResponseTestOutcome` proves what the code returns and that the test's expected value differs from it.
- The same test's input bytes spell the reason phrase `OL` (0x4F 0x4C at src/http/client.rs:72), not `OK`. So the test's expectation would not hold even for a parser that did scan the reason phrase.

## Model

| member | source | states |
|---|---|---|
| HttpMessage.ParseHttpName | src/http/message.rs:5-12 | succeeds iff the input has at least four characters and starts with `HTTP`; the result is then the input minus those four |
| HttpMessage.ParseHttpNameCaseSensitive | src/http/message.rs:7-10 | `http` or `Http` followed by anything is rejected |
| HttpMessage.ParseHttpVersion | src/http/message.rs:19-35 | succeeds iff the first eight characters are `HTTP/1.0` or `HTTP/1.1`; on success those eight characters render the returned version and the remainder is exactly the input after them, of length `|msg| - 8` |
| HttpMessage.RoundTrip | src/http/message.rs:19-35 | rendering any version and appending any rest parses back to that version and that rest |
| HttpMessage.ParseHttpVersionCharacterised | src/http/message.rs:19-35 | the parse returns `(v, rest)` iff the input is the rendering of `v` followed by `rest` |
| HttpMessage.SupportedVersionsOnly | src/http/message.rs:24-29 | after `HTTP/`, a `major.minor` pair is accepted iff it is `1.0` or `1.1` |
| HttpMessage.ParseHttpVersionRejects | src/http/message.rs:22-34 | the result is `None` for input shorter than eight characters, with no `HTTP` prefix, without `/` at position 4, or without `.` at position 6 |
| HttpMessage.ParseHttpVersionExtends | src/http/message.rs:24-27 | appending input after a successful parse keeps the version and extends the remainder by exactly the appended input |
| HttpMessage.ExactTokens | src/http/message.rs:42-54 | the exact tokens `HTTP/1.1` and `HTTP/1.0` yield `Version11` and `Version10` with an empty remainder |
| Client.ParseHttpVersion | src/http/client.rs:35-37 | always `Version11`, and the remainder is the whole input, so nothing is consumed |
| Client.ParseStatusLine | src/http/client.rs:27-33 | the version is the one the byte parser returned; the triple is always `(Version11, Ok, "")` |
| Client.ParseMessage | src/http/client.rs:17-25 | always `Some(Message.Response(r))`, where the fields of `r` are exactly the status-line triple, so `(Version11, Ok, "")` |
| Client.Get | src/http/client.rs:39-47 | for every URL, `Some` of the response `(Version11, Ok, "OK")` |
| Client.ParseMessageIgnoresInput | src/http/client.rs:17-33 | any two inputs parse to the same message |
| Client.ParseMessageDiffersFromGet | src/http/client.rs:28-30 | `ParseMessage` and `Get` agree on version and status and differ in the reason phrase (`""` against `"OK"`) |
| Client.ParseResponseTestOutcome | src/http/client.rs:67-84 | on the test's bytes the parse gives reason phrase `""`, not the `"OK"` the test expects |
| Client.StubDisagreesWithRecogniser | src/http/client.rs:35-37 | on `HTTP/1.0` the byte stub answers `Version11` and consumes nothing, while the character recogniser answers `Version10` and consumes the token |

## Left out

- The `statuscodes` module (src/http/lib.rs:5,8) is not part of this model. `StatusCode` has only `Ok`, which the code uses, and `Other`, which stands for its remaining variants. There is no code registry.
- Network behaviour of `get`: the doc comment says it executes a GET request, but the body is a constant. Only the constant is modelled, and the URL is an ignored parameter.
- Status-code scanning, reason-phrase scanning, header parsing and body framing: the code has none of these, so the model has none.
- Module wiring: `src/http/lib.rs` does not declare `message`. `HttpMessage` is modelled on its own.
- The representation of data: the model uses `seq<char>` for the character slices and `seq<bv8>` for `Vec<u8>`/`&[u8]`. Allocation, `#[derive(Debug)]` and the `#![feature(convert)]` attribute are not modelled.
- The loop in `parse_httpversion_test` (src/http/message.rs:47-54): only the facts it asserts are modelled, in `HttpMessage.ExactTokens`.
- The `get_google_test` test (src/http/client.rs:55-65): its assertions follow from `Client.Get`'s contract.
