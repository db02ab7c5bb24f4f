/**
 The resumable HTTP request parser as functions: one round of its loop, a whole call, and what the
 request object does with the pieces. Bytes are characters; the receive time is left out.
 */
module HttpParser {
  import opened Common

  datatype Method = Invalid | Get | Post | Head | Put | Delete | Options

  datatype Request = Request(verb: Method, version: string, path: string, query: map<string, string>,
                             headers: map<string, string>, body: string, contentLength: nat, bodyTooLarge: bool)

  const NoRequest := Request(Invalid, "Unknown", "", map[], map[], "", 0, false)

  datatype State = ExpectRequestLine | ExpectHeaders | ExpectBody | GotAll

  /** The context together with the unread bytes. */
  datatype Parser = Parser(state: State, req: Request, buf: string)

  /** What a call returns; Thrown stands for an exception leaving it. */
  datatype Verdict = Good | Bad | Thrown

  datatype Round = More(next: Parser) | Halt(end: Parser, verdict: Verdict)

  // ---------------------------------------------------------------- pieces of a request

  function MethodOf(m: string): Method {
    if m == "GET" then Get
    else if m == "POST" then Post
    else if m == "PUT" then Put
    else if m == "DELETE" then Delete
    else if m == "OPTIONS" then Options
    else Invalid
  }

  /** isspace in the C locale. */
  predicate IsSpace(c: char) { c == ' ' || 9 <= c as int <= 13 }

  function TrimLeft(s: string): string {
    if s != [] && IsSpace(s[0]) then TrimLeft(s[1..]) else s
  }

  function TrimRight(s: string): string {
    if s != [] && IsSpace(s[|s| - 1]) then TrimRight(s[..|s| - 1]) else s
  }

  function Trim(s: string): string { TrimRight(TrimLeft(s)) }

  /** One "key=value" piece of the query; a piece without '=' is dropped. */
  function AddPair(q: map<string, string>, pair: string): map<string, string> {
    var e := Find(pair, '=');
    if e < |pair| then q[pair[..e] := pair[e + 1..]] else q
  }

  function ParseQuery(q: map<string, string>, s: string): map<string, string>
    decreases |s|
  {
    var a := Find(s, '&');
    if a == |s| then AddPair(q, s) else ParseQuery(AddPair(q, s[..a]), s[a + 1..])
  }

  function SetTarget(r: Request, target: string): Request {
    var mark := Find(target, '?');
    if mark < |target| then r.(path := target[..mark], query := ParseQuery(r.query, target[mark + 1..]))
    else r.(path := target)
  }

  function VersionOf(v: string): Option<string> {
    if |v| == 8 && v[..7] == "HTTP/1." then
      if v[7] == '1' then Some("HTTP/1.1") else if v[7] == '0' then Some("HTTP/1.0") else None
    else None
  }

  /** The line behind the method. */
  function TargetAndVersion(r: Request, rest: string): (bool, Request) {
    var sp := Find(rest, ' ');
    if sp == |rest| then (false, r)
    else
      var r2 := SetTarget(r, rest[..sp]);
      match VersionOf(rest[sp + 1..])
      case Some(v) => (true, r2.(version := v))
      case None => (false, r2)
  }

  /** Whether the request line is accepted, and what it leaves in the request even when it is not. */
  function RequestLine(r: Request, line: string): (bool, Request) {
    var sp := Find(line, ' ');
    if sp == |line| then (false, r)
    else
      var r1 := r.(verb := MethodOf(line[..sp]));
      if r1.verb.Invalid? then (false, r1) else TargetAndVersion(r1, line[sp + 1..])
  }

  function AddHeader(r: Request, line: string, colon: nat): Request
    requires colon < |line|
  {
    r.(headers := r.headers[line[..colon] := Trim(line[colon + 1..])])
  }

  function Header(r: Request, field: string): string {
    if field in r.headers then r.headers[field] else ""
  }

  predicate IsDigit(c: char) { '0' <= c <= '9' }

  /** The value of the leading decimal digits, continuing from `acc`. */
  function Digits(s: string, acc: nat): nat {
    if s != [] && IsDigit(s[0]) then Digits(s[1..], acc * 10 + (s[0] as int - '0' as int)) else acc
  }

  const ULongMax: nat := 0xFFFF_FFFF_FFFF_FFFF

  /** std::stoul in base ten on 64 bits: leading space, a sign, digits, anything after; None when it throws. */
  function Stoul(s: string): Option<nat> {
    var t := TrimLeft(s);
    var negative := t != [] && t[0] == '-';
    var u := if t != [] && (t[0] == '-' || t[0] == '+') then t[1..] else t;
    if u == [] || !IsDigit(u[0]) then None
    else
      var n := Digits(u, 0);
      if n > ULongMax then None
      else if negative && n > 0 then Some(ULongMax + 1 - n)
      else Some(n)
  }

  // ---------------------------------------------------------------- one round of the loop

  function FindCRLF(s: string): (r: Option<nat>)
    ensures r.Some? ==> r.value + 2 <= |s| && s[r.value] == '\r' && s[r.value + 1] == '\n'
    ensures r.Some? ==> forall j :: 0 <= j < r.value ==> !(s[j] == '\r' && s[j + 1] == '\n')
    ensures r.None? ==> forall j :: 0 <= j < |s| - 1 ==> !(s[j] == '\r' && s[j + 1] == '\n')
  {
    if |s| < 2 then None
    else if s[0] == '\r' && s[1] == '\n' then Some(0)
    else match FindCRLF(s[1..])
      case Some(i) => Some(i + 1)
      case None => None
  }

  /** The blank line: does a body follow, is the request complete, or is it an error? */
  function EndHeaders(p: Parser, maxBody: nat): Round
    requires |p.buf| >= 2
  {
    if p.req.verb.Post? || p.req.verb.Put? then
      var text := Header(p.req, "Content-Length");
      if text == "" then Halt(p.(buf := p.buf[2..]), Bad)
      else match Stoul(text)
        case None => Halt(p, Thrown)
        case Some(n) =>
          if n > maxBody then Halt(Parser(GotAll, p.req.(bodyTooLarge := true), p.buf), Good)
          else if n > 0 then More(Parser(ExpectBody, p.req.(contentLength := n), p.buf[2..]))
          else Halt(Parser(GotAll, p.req.(contentLength := 0), p.buf[2..]), Good)
    else Halt(Parser(GotAll, p.req, p.buf[2..]), Good)
  }

  function Advance(p: Parser, maxBody: nat): (r: Round)
    requires p.state != GotAll
    ensures r.More? ==> |r.next.buf| < |p.buf| && r.next.state != GotAll
  {
    match p.state
    case ExpectRequestLine =>
      (match FindCRLF(p.buf)
       case None => Halt(p, Good)
       case Some(i) =>
         var (ok, r) := RequestLine(p.req, p.buf[..i]);
         if ok then More(Parser(ExpectHeaders, r, p.buf[i + 2..])) else Halt(p.(req := r), Bad))
    case ExpectHeaders =>
      (match FindCRLF(p.buf)
       case None => Halt(p, Good)
       case Some(i) =>
         var colon := Find(p.buf[..i], ':');
         if colon < i then More(Parser(ExpectHeaders, AddHeader(p.req, p.buf[..i], colon), p.buf[i + 2..]))
         else if i == 0 then EndHeaders(p, maxBody)
         else Halt(p.(buf := p.buf[i + 2..]), Bad))
    case ExpectBody =>
      if |p.buf| < p.req.contentLength then Halt(p, Good)
      else Halt(Parser(GotAll, p.req.(body := p.buf[..p.req.contentLength]), p.buf[p.req.contentLength..]), Good)
  }

  /** A whole call: rounds until one halts. Every further round has fewer unread bytes. */
  function Parse(p: Parser, maxBody: nat): (Parser, Verdict)
    requires p.state != GotAll
    decreases |p.buf|
  {
    match Advance(p, maxBody)
    case More(next) => Parse(next, maxBody)
    case Halt(end, verdict) => (end, verdict)
  }

  // ---------------------------------------------------------------- independence of segmentation

  function Grow(p: Parser, more: string): Parser { p.(buf := p.buf + more) }

  /** The call used up what it could and waits for bytes. */
  predicate Hungry(end: Parser, v: Verdict) { v == Good && end.state != GotAll }

  lemma {:induction false} CRLFExtends(s: string, more: string)
    requires FindCRLF(s).Some?
    ensures FindCRLF(s + more) == FindCRLF(s)
    decreases |s|
  {
    if !(s[0] == '\r' && s[1] == '\n') {
      CRLFExtends(s[1..], more);
      assert (s + more)[1..] == s[1..] + more;
    }
  }

  lemma Slices(s: string, more: string, i: nat)
    requires i <= |s|
    ensures (s + more)[..i] == s[..i] && (s + more)[i..] == s[i..] + more
  {
  }

  lemma EndHeadersExtends(p: Parser, more: string, maxBody: nat)
    requires |p.buf| >= 2
    ensures match EndHeaders(p, maxBody)
      case More(next) => EndHeaders(Grow(p, more), maxBody) == More(Grow(next, more))
      case Halt(end, v) => !Hungry(end, v) && EndHeaders(Grow(p, more), maxBody) == Halt(Grow(end, more), v)
  {
    Slices(p.buf, more, 2);
  }

  /** A round on a complete line, with the line and the bytes behind it made explicit. */
  function OnLine(p: Parser, line: string, rest: string): Round
    requires p.state.ExpectRequestLine? || (p.state.ExpectHeaders? && line != "")
  {
    if p.state.ExpectRequestLine? then
      var (ok, r) := RequestLine(p.req, line);
      if ok then More(Parser(ExpectHeaders, r, rest)) else Halt(p.(req := r), Bad)
    else
      var colon := Find(line, ':');
      if colon < |line| then More(Parser(ExpectHeaders, AddHeader(p.req, line, colon), rest)) else Halt(p.(buf := rest), Bad)
  }

  lemma AdvanceOnLine(p: Parser, maxBody: nat)
    requires p.state.ExpectRequestLine? || p.state.ExpectHeaders?
    requires FindCRLF(p.buf).Some?
    requires p.state.ExpectHeaders? ==> FindCRLF(p.buf).value > 0
    ensures var i := FindCRLF(p.buf).value; Advance(p, maxBody) == OnLine(p, p.buf[..i], p.buf[i + 2..])
  {
  }

  lemma OnLineExtends(p: Parser, line: string, rest: string, more: string)
    requires p.state.ExpectRequestLine? || (p.state.ExpectHeaders? && line != "")
    ensures match OnLine(p, line, rest)
      case More(next) => OnLine(Grow(p, more), line, rest + more) == More(Grow(next, more))
      case Halt(end, v) => OnLine(Grow(p, more), line, rest + more) == Halt(Grow(end, more), v)
  {
  }

  lemma LineExtends(p: Parser, more: string, maxBody: nat)
    requires p.state.ExpectRequestLine? || p.state.ExpectHeaders?
    requires FindCRLF(p.buf).Some?
    requires p.state.ExpectHeaders? ==> FindCRLF(p.buf).value > 0
    ensures match Advance(p, maxBody)
      case More(next) => Advance(Grow(p, more), maxBody) == More(Grow(next, more))
      case Halt(end, v) => Advance(Grow(p, more), maxBody) == Halt(Grow(end, more), v)
  {
    var i := FindCRLF(p.buf).value;
    var line, rest := p.buf[..i], p.buf[i + 2..];
    CRLFExtends(p.buf, more);
    Slices(p.buf, more, i);
    Slices(p.buf, more, i + 2);
    AdvanceOnLine(p, maxBody);
    AdvanceOnLine(Grow(p, more), maxBody);
    OnLineExtends(p, line, rest, more);
    assert Advance(p, maxBody) == OnLine(p, line, rest);
    assert Advance(Grow(p, more), maxBody) == OnLine(Grow(p, more), line, rest + more);
  }

  lemma BlankExtends(p: Parser, more: string, maxBody: nat)
    requires p.state.ExpectHeaders? && FindCRLF(p.buf) == Some(0)
    ensures match Advance(p, maxBody)
      case More(next) => Advance(Grow(p, more), maxBody) == More(Grow(next, more))
      case Halt(end, v) => Advance(Grow(p, more), maxBody) == Halt(Grow(end, more), v)
  {
    CRLFExtends(p.buf, more);
    Slices(p.buf, more, 0);
    EndHeadersExtends(p, more, maxBody);
    assert Advance(p, maxBody) == EndHeaders(p, maxBody);
    assert Advance(Grow(p, more), maxBody) == EndHeaders(Grow(p, more), maxBody);
  }

  /** A round that does not wait for bytes does the same with more bytes behind it. */
  lemma AdvanceExtends(p: Parser, more: string, maxBody: nat)
    requires p.state != GotAll
    ensures match Advance(p, maxBody)
      case More(next) => Advance(Grow(p, more), maxBody) == More(Grow(next, more))
      case Halt(end, v) => Hungry(end, v) || Advance(Grow(p, more), maxBody) == Halt(Grow(end, more), v)
  {
    if p.state.ExpectBody? {
      if |p.buf| >= p.req.contentLength { Slices(p.buf, more, p.req.contentLength); }
    } else if p.state.ExpectHeaders? && FindCRLF(p.buf) == Some(0) {
      BlankExtends(p, more, maxBody);
    } else if FindCRLF(p.buf).Some? {
      LineExtends(p, more, maxBody);
    }
  }

  /** A hungry round leaves everything as it was. */
  lemma HungryUnchanged(p: Parser, maxBody: nat)
    requires p.state != GotAll && Advance(p, maxBody).Halt?
    requires Hungry(Advance(p, maxBody).end, Advance(p, maxBody).verdict)
    ensures Advance(p, maxBody).end == p
  {
  }

  /**
   Parsing A and then, where it left off, B behind the rest is parsing A ++ B in one call: same
   state, request, verdict and unread bytes. And a call that came to a verdict is not changed by
   bytes that arrive behind it.
   */
  lemma {:induction false} SplitIndependent(p: Parser, more: string, maxBody: nat)
    requires p.state != GotAll
    ensures var (end, v) := Parse(p, maxBody);
            Parse(Grow(p, more), maxBody) == if Hungry(end, v) then Parse(Grow(end, more), maxBody) else (Grow(end, more), v)
    decreases |p.buf|
  {
    AdvanceExtends(p, more, maxBody);
    match Advance(p, maxBody) {
      case More(next) => SplitIndependent(next, more, maxBody);
      case Halt(end, v) => if Hungry(end, v) { HungryUnchanged(p, maxBody); }
    }
  }

  /** The connection's loop: each arriving segment is appended and parsed, until the call has a verdict. */
  function Feed(p: Parser, segments: seq<string>, maxBody: nat): (Parser, Verdict)
    requires p.state != GotAll
    decreases |segments|
  {
    if segments == [] then (p, Good)
    else
      var (end, v) := Parse(Grow(p, segments[0]), maxBody);
      if Hungry(end, v) then Feed(end, segments[1..], maxBody)
      else (Grow(end, Flatten(segments[1..])), v)
  }

  function Flatten(segments: seq<string>): string {
    if segments == [] then "" else segments[0] + Flatten(segments[1..])
  }

  lemma GrowTwice(p: Parser, a: string, b: string)
    ensures Grow(Grow(p, a), b) == Grow(p, a + b) && Grow(p, "") == p
  {
    assert p.buf + a + b == p.buf + (a + b);
    assert p.buf + "" == p.buf;
  }

  /** However a byte stream is cut into segments, the outcome is that of parsing it in one piece. */
  lemma {:induction false} AnySegmentation(p: Parser, segments: seq<string>, maxBody: nat)
    requires p.state != GotAll && segments != []
    ensures Feed(p, segments, maxBody) == Parse(Grow(p, Flatten(segments)), maxBody)
    decreases |segments|
  {
    var first, rest := segments[0], segments[1..];
    SplitIndependent(Grow(p, first), Flatten(rest), maxBody);
    GrowTwice(p, first, Flatten(rest));
    var (end, v) := Parse(Grow(p, first), maxBody);
    GrowTwice(end, Flatten(rest), "");
    if Hungry(end, v) {
      if rest == [] {
        ParseAgain(Grow(p, first), maxBody);
      } else {
        AnySegmentation(end, rest, maxBody);
      }
    }
  }

  /** Calling again without new bytes changes nothing. */
  lemma {:induction false} ParseAgain(p: Parser, maxBody: nat)
    requires p.state != GotAll
    ensures var (end, v) := Parse(p, maxBody); Hungry(end, v) ==> Parse(end, maxBody) == (end, v)
    decreases |p.buf|
  {
    match Advance(p, maxBody) {
      case More(next) => ParseAgain(next, maxBody);
      case Halt(end, v) => if Hungry(end, v) { HungryUnchanged(p, maxBody); }
    }
  }
}
