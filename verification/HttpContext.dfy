/**
 The parser as the original writes it: a request object filled in place, a buffer consumed in place
 and a loop over both. Every method is proved equal to its function in HttpParser.
 */
module HttpContexts {
  import opened Common
  import opened HttpParser

  function FindFrom(s: string, c: char, start: nat): nat
    requires start <= |s|
  {
    start + Find(s[start..], c)
  }

  /** One turn of the splitting loop: the next pair is dealt with, the rest of the text remains. */
  lemma QueryRound(q: map<string, string>, s: string, prev: nat, rest: string, a: nat)
    requires prev <= |s| && rest == s[prev..] && a == Find(rest, '&') < |rest|
    ensures ParseQuery(q, rest) == ParseQuery(AddPair(q, s[prev..prev + a]), s[prev + a + 1..])
  {
    assert rest[..a] == s[prev..prev + a];
    assert rest[a + 1..] == s[prev + a + 1..];
  }

  /** The part of the network buffer the parser uses. */
  class Buffer {
    var data: string

    constructor (bytes: string)
      ensures data == bytes
    {
      data := bytes;
    }

    method Retrieve(n: nat)
      requires n <= |data|
      modifies this
      ensures data == old(data)[n..]
    {
      data := data[n..];
    }
  }

  class HttpRequest {
    var verb: Method
    var version: string
    var path: string
    var queryParameters: map<string, string>
    var headers: map<string, string>
    var content: string
    var contentLength: nat
    var bodyTooLarge: bool
    /** Filled in by the router and from the clock; the parser's answers do not depend on them. */
    var pathParameters: map<string, string>
    var receiveTime: int

    function Contents(): Request
      reads this
    {
      Request(verb, version, path, queryParameters, headers, content, contentLength, bodyTooLarge)
    }

    constructor ()
      ensures Contents() == NoRequest && pathParameters == map[] && receiveTime == 0
    {
      pathParameters, receiveTime := map[], 0;
      verb, version, path := Invalid, "Unknown", "";
      queryParameters, headers := map[], map[];
      content, contentLength, bodyTooLarge := "", 0, false;
    }

    /** The original asserts that no method has been set yet. */
    method SetMethod(m: string) returns (ok: bool)
      requires verb.Invalid?
      modifies this
      ensures Contents() == old(Contents()).(verb := MethodOf(m))
      ensures ok <==> m in {"GET", "POST", "PUT", "DELETE", "OPTIONS"}
    {
      if m == "GET" { verb := Get; }
      else if m == "POST" { verb := Post; }
      else if m == "PUT" { verb := Put; }
      else if m == "DELETE" { verb := Delete; }
      else if m == "OPTIONS" { verb := Options; }
      else { verb := Invalid; }
      ok := !verb.Invalid?;
    }

    method SetPair(pair: string)
      modifies this
      ensures Contents() == old(Contents()).(query := AddPair(old(queryParameters), pair))
    {
      var e := Find(pair, '=');
      if e < |pair| {
        queryParameters := queryParameters[pair[..e] := pair[e + 1..]];
      }
    }

    method SetQueryParameters(s: string)
      modifies this
      ensures Contents() == old(Contents()).(query := ParseQuery(old(queryParameters), s))
    {
      var prev := 0;
      var pos := FindFrom(s, '&', prev);
      ghost var before, rest := Contents(), s;
      while pos < |s|
        invariant prev <= pos <= |s| && pos == FindFrom(s, '&', prev) && rest == s[prev..]
        invariant Contents() == before.(query := queryParameters)
        invariant ParseQuery(queryParameters, rest) == ParseQuery(before.query, s)
      {
        QueryRound(queryParameters, s, prev, rest, pos - prev);
        SetPair(s[prev..pos]);
        rest := s[pos + 1..];
        prev := pos + 1;
        pos := FindFrom(s, '&', prev);
      }
      SetPair(s[prev..]);
    }

    /** The target is split at the first question mark. */
    method SetTargetText(target: string)
      modifies this
      ensures Contents() == SetTarget(old(Contents()), target)
    {
      var mark := Find(target, '?');
      path := target[..mark];
      if mark < |target| {
        SetQueryParameters(target[mark + 1..]);
      } else {
        assert target[..mark] == target;
      }
    }

    /** "HTTP/1." and one more digit; anything else is refused and not stored. */
    method SetVersionText(v: string) returns (ok: bool)
      modifies this
      ensures ok <==> v == "HTTP/1.1" || v == "HTTP/1.0"
      ensures ok <==> VersionOf(v).Some?
      ensures Contents() == if ok then old(Contents()).(version := VersionOf(v).value) else old(Contents())
    {
      ok := |v| == 8 && v[..7] == "HTTP/1.";
      if ok {
        assert v == v[..7] + [v[7]];
        if v[7] == '1' { version := "HTTP/1.1"; }
        else if v[7] == '0' { version := "HTTP/1.0"; }
        else { ok := false; }
      }
    }

    method AddHeaderLine(line: string, colon: nat)
      requires colon < |line|
      modifies this
      ensures Contents() == AddHeader(old(Contents()), line, colon)
    {
      var at := colon + 1;
      while at < |line| && IsSpace(line[at])
        invariant colon < at <= |line| && TrimLeft(line[at..]) == TrimLeft(line[colon + 1..])
      {
        assert line[at..][1..] == line[at + 1..];
        at := at + 1;
      }
      var value := line[at..];
      while value != "" && IsSpace(value[|value| - 1])
        invariant TrimRight(value) == Trim(line[colon + 1..])
        decreases |value|
      {
        value := value[..|value| - 1];
      }
      headers := headers[line[..colon] := value];
    }

    method SwapRouting(that: HttpRequest)
      modifies this`pathParameters, this`receiveTime, that`pathParameters, that`receiveTime
      ensures pathParameters == old(that.pathParameters) && that.pathParameters == old(pathParameters)
      ensures receiveTime == old(that.receiveTime) && that.receiveTime == old(receiveTime)
    {
      pathParameters, that.pathParameters := that.pathParameters, pathParameters;
      receiveTime, that.receiveTime := that.receiveTime, receiveTime;
    }

    method SwapLine(that: HttpRequest)
      modifies this`verb, this`version, this`path, this`queryParameters, that`verb, that`version, that`path, that`queryParameters
      ensures verb == old(that.verb) && that.verb == old(verb) && version == old(that.version) && that.version == old(version)
      ensures path == old(that.path) && that.path == old(path)
      ensures queryParameters == old(that.queryParameters) && that.queryParameters == old(queryParameters)
    {
      verb, that.verb := that.verb, verb;
      version, that.version := that.version, version;
      path, that.path := that.path, path;
      queryParameters, that.queryParameters := that.queryParameters, queryParameters;
    }

    /** Everything is exchanged, field by field. */
    method Swap(that: HttpRequest)
      modifies this, that
      ensures Contents() == old(that.Contents()) && that.Contents() == old(Contents())
      ensures pathParameters == old(that.pathParameters) && that.pathParameters == old(pathParameters)
      ensures receiveTime == old(that.receiveTime) && that.receiveTime == old(receiveTime)
    {
      SwapRouting(that);
      SwapLine(that);
      headers, that.headers := that.headers, headers;
      content, that.content := that.content, content;
      contentLength, that.contentLength := that.contentLength, contentLength;
      bodyTooLarge, that.bodyTooLarge := that.bodyTooLarge, bodyTooLarge;
    }
  }

  class HttpContext {
    var state: State
    const request: HttpRequest
    const maxBodySize: nat

    function View(buf: Buffer): Parser
      reads this, request, buf
    {
      Parser(state, request.Contents(), buf.data)
    }

    /** A call is allowed: not complete, and no method set before the request line is read. */
    predicate Ready()
      reads this, request
    {
      state != GotAll && (state.ExpectRequestLine? ==> request.verb.Invalid?)
    }

    constructor (maxBody: nat)
      ensures fresh(request) && maxBodySize == maxBody && Ready()
      ensures state == ExpectRequestLine && request.Contents() == NoRequest
    {
      state := ExpectRequestLine;
      request := new HttpRequest();
      maxBodySize := maxBody;
    }

    method Reset()
      modifies this, request
      ensures Ready() && state == ExpectRequestLine && request.Contents() == NoRequest
      ensures request.pathParameters == map[] && request.receiveTime == 0
    {
      state := ExpectRequestLine;
      var dummy := new HttpRequest();
      request.Swap(dummy);
    }

    method ProcessRequestLine(line: string) returns (ok: bool)
      requires request.verb.Invalid?
      modifies request
      ensures (ok, request.Contents()) == RequestLine(old(request.Contents()), line)
    {
      ok := false;
      var space := Find(line, ' ');
      if space < |line| {
        var known := request.SetMethod(line[..space]);
        if known {
          ok := TargetAndVersion(line[space + 1..]);
        }
      }
    }

    /** The rest of the line behind the method. */
    method TargetAndVersion(rest: string) returns (ok: bool)
      modifies request
      ensures (ok, request.Contents()) == HttpParser.TargetAndVersion(old(request.Contents()), rest)
    {
      ok := false;
      var space := Find(rest, ' ');
      if space < |rest| {
        request.SetTargetText(rest[..space]);
        ok := request.SetVersionText(rest[space + 1..]);
      }
    }

    /** The blank line that ends the headers; `more` tells whether the loop goes on. */
    method EndOfHeaders(buf: Buffer) returns (more: bool, verdict: Verdict)
      requires state.ExpectHeaders? && |buf.data| >= 2
      modifies this`state, request, buf
      ensures match EndHeaders(old(View(buf)), maxBodySize)
        case More(next) => more && View(buf) == next
        case Halt(end, v) => !more && View(buf) == end && verdict == v
    {
      more, verdict := false, Good;
      if request.verb == Post || request.verb == Put {
        var text := Header(request.Contents(), "Content-Length");
        if text != "" {
          var length := Stoul(text);
          if length.None? { return false, Thrown; }
          if length.value > maxBodySize {
            request.bodyTooLarge := true;
            state := GotAll;
            return;
          }
          request.contentLength := length.value;
          if request.contentLength > 0 {
            state, more := ExpectBody, true;
          } else {
            state := GotAll;
          }
        } else {
          verdict := Bad;
        }
      } else {
        state := GotAll;
      }
      buf.Retrieve(2);
    }

    /** One complete line in front of the buffer, `crlf` being its end. */
    method OneLine(buf: Buffer, crlf: nat) returns (more: bool, verdict: Verdict)
      requires Ready() && !state.ExpectBody? && FindCRLF(buf.data) == Some(crlf)
      modifies this`state, request, buf
      ensures match Advance(old(View(buf)), maxBodySize)
        case More(next) => more && View(buf) == next
        case Halt(end, v) => !more && View(buf) == end && verdict == v
    {
      more, verdict := true, Good;
      var line := buf.data[..crlf];
      if state.ExpectRequestLine? {
        var ok := ProcessRequestLine(line);
        if !ok { return false, Bad; }
        buf.Retrieve(crlf + 2);
        state := ExpectHeaders;
      } else {
        var colon := Find(line, ':');
        if colon < crlf {
          request.AddHeaderLine(line, colon);
          buf.Retrieve(crlf + 2);
        } else if crlf == 0 {
          more, verdict := EndOfHeaders(buf);
        } else {
          buf.Retrieve(crlf + 2);
          more, verdict := false, Bad;
        }
      }
    }

    /** The body, once all of it has arrived. */
    method ReadBody(buf: Buffer)
      requires state.ExpectBody?
      modifies this`state, request, buf
      ensures Advance(old(View(buf)), maxBodySize) == Halt(View(buf), Good)
    {
      if |buf.data| >= request.contentLength {
        request.content := buf.data[..request.contentLength];
        buf.Retrieve(request.contentLength);
        state := GotAll;
      }
    }

    method OneRound(buf: Buffer) returns (more: bool, verdict: Verdict)
      requires Ready()
      modifies this`state, request, buf
      ensures Advance(old(View(buf)), maxBodySize) == if more then More(View(buf)) else Halt(View(buf), verdict)
      ensures more || (verdict == Good && state != GotAll) ==> Ready()
    {
      more, verdict := false, Good;
      if state.ExpectBody? {
        ReadBody(buf);
      } else {
        var crlf := FindCRLF(buf.data);
        if crlf.Some? {
          more, verdict := OneLine(buf, crlf.value);
        }
      }
    }

    /** The whole call. Afterwards the object is ready for another one unless it is complete or failed. */
    method ParseRequest(buf: Buffer) returns (verdict: Verdict)
      requires Ready()
      modifies this`state, request, buf
      ensures (View(buf), verdict) == Parse(old(View(buf)), maxBodySize)
      ensures verdict == Good && state != GotAll ==> Ready()
    {
      verdict := Good;
      var more := true;
      while more
        invariant more ==> Ready() && Parse(View(buf), maxBodySize) == Parse(old(View(buf)), maxBodySize)
        invariant !more ==> (View(buf), verdict) == Parse(old(View(buf)), maxBodySize)
        invariant !more && verdict == Good && state != GotAll ==> Ready()
        decreases more, |buf.data|
      {
        ParseUnfolds(View(buf), maxBodySize);
        more, verdict := OneRound(buf);
      }
    }
  }

  lemma ParseUnfolds(p: Parser, maxBody: nat)
    requires p.state != GotAll
    ensures var r := Advance(p, maxBody); Parse(p, maxBody) == if r.More? then Parse(r.next, maxBody) else (r.end, r.verdict)
  {
  }
}
