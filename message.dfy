/** Recogniser for the HTTP-version token at the start of a message, working on
    a slice of characters (src/http/message.rs). The token is fixed-width and
    case-sensitive: the four letters `HTTP`, a `/`, one major digit, a `.` and
    one minor digit. Each parser returns what it recognised together with the
    unconsumed rest of the slice. */
module HttpMessage {
  import opened Wrappers
  import opened Http

  /** The protocol name every version token starts with. */
  const HttpName: seq<char> := "HTTP"

  /** The eight-character wire form of a version. */
  function Render(v: HttpVersion): seq<char>
  {
    match v
    case Version10 => "HTTP/1.0"
    case Version11 => "HTTP/1.1"
  }

  /** Matches the literal `HTTP` prefix and returns what follows it. */
  function ParseHttpName(msg: seq<char>): (r: Option<seq<char>>)
    ensures r.Some? <==> |msg| >= 4 && msg[..4] == HttpName
    ensures r.Some? ==> r.value == msg[4..]
  {
    if |msg| >= 4 && msg[0] == 'H' && msg[1] == 'T' && msg[2] == 'T' && msg[3] == 'P' then
      Some(msg[4..])
    else
      None
  }

  /** Parses `HTTP/<major>.<minor>`; only `1.0` and `1.1` are accepted. On
      success returns the version and the characters after the token. */
  function ParseHttpVersion(msg: seq<char>): (r: Option<(HttpVersion, seq<char>)>)
    ensures r.Some? <==> |msg| >= 8 && (msg[..8] == Render(Version10) || msg[..8] == Render(Version11))
    ensures r.Some? ==> |msg| >= 8 && msg[..8] == Render(r.value.0) && r.value.1 == msg[8..]
  {
    match ParseHttpName(msg)
    case Some(remain) =>
      if |remain| >= 4 && remain[0] == '/' && remain[2] == '.' then
        var major, minor, rest := remain[1], remain[3], remain[4..];
        match (major, minor)
        case ('1', '0') => Some((Version10, rest))
        case ('1', '1') => Some((Version11, rest))
        case _ => None
      else
        None
    case None => None
  }

  /** The name match is case-sensitive: a lower-case `http` is not the
      protocol name, whatever follows it. */
  lemma ParseHttpNameCaseSensitive(rest: seq<char>)
    ensures ParseHttpName("http" + rest) == None
    ensures ParseHttpName("Http" + rest) == None
  {
  }

  /** Rendering a version, then appending anything, parses back to that
      version and exactly the appended characters. */
  lemma RoundTrip(v: HttpVersion, rest: seq<char>)
    ensures ParseHttpVersion(Render(v) + rest) == Some((v, rest))
  {
  }

  /** A successful parse splits the input into a rendered version and the
      rest, and every such split is a successful parse. */
  lemma ParseHttpVersionCharacterised(msg: seq<char>, v: HttpVersion, rest: seq<char>)
    ensures ParseHttpVersion(msg) == Some((v, rest)) <==> msg == Render(v) + rest
  {
  }

  /** After `HTTP/` the parser accepts a `<major>.<minor>` pair exactly when it
      is `1.0` or `1.1`; `2.0`, `1.2` and every other pair are rejected. */
  lemma SupportedVersionsOnly(major: char, minor: char, rest: seq<char>)
    ensures ParseHttpVersion("HTTP/" + [major, '.', minor] + rest).Some?
        <==> major == '1' && (minor == '0' || minor == '1')
  {
  }

  /** The ways a parse fails: input too short for the token, no `HTTP`
      prefix, a character other than `/` after the name, or a character other
      than `.` between the digits. */
  lemma ParseHttpVersionRejects(msg: seq<char>)
    ensures |msg| < 8 ==> ParseHttpVersion(msg) == None
    ensures ParseHttpName(msg) == None ==> ParseHttpVersion(msg) == None
    ensures |msg| > 4 && msg[4] != '/' ==> ParseHttpVersion(msg) == None
    ensures |msg| > 6 && msg[6] != '.' ==> ParseHttpVersion(msg) == None
  {
  }

  /** The parse looks at the first eight characters only: appending more
      input to a successful parse leaves the version unchanged and extends the
      remainder by exactly what was appended. */
  lemma ParseHttpVersionExtends(msg: seq<char>, more: seq<char>)
    requires ParseHttpVersion(msg).Some?
    ensures ParseHttpVersion(msg + more)
         == Some((ParseHttpVersion(msg).value.0, ParseHttpVersion(msg).value.1 + more))
  {
    var longer := msg + more;
    assert longer[..8] == msg[..8];
    assert longer[8..] == msg[8..] + more;
  }

  /** The exact tokens `HTTP/1.1` and `HTTP/1.0` parse to their versions and
      leave nothing over. */
  lemma ExactTokens()
    ensures ParseHttpVersion("HTTP/1.1") == Some((Version11, []))
    ensures ParseHttpVersion("HTTP/1.0") == Some((Version10, []))
  {
  }
}
