/**
 Printing a well-formed request and parsing it back: a subset of RFC 9112 (request line of section 3,
 fields of section 5, Content-Length of section 6.2) with exact framing of what follows.
 */
module HttpRoundTrip {
  import opened Common
  import opened HttpParser

  /** A request as a client would write it. Query and header fields are listed in order; later ones win. */
  datatype Message = Message(verb: Method, path: string, query: seq<(string, string)>, version: string,
                             headers: seq<(string, string)>, body: string)

  function Name(m: Method): string {
    match m
    case Get => "GET" case Post => "POST" case Put => "PUT" case Delete => "DELETE" case Options => "OPTIONS"
    case Head => "HEAD" case Invalid => "UNKNOWN"
  }

  predicate HasBody(m: Method) { m.Post? || m.Put? }

  function Decimal(n: nat): string {
    if n < 10 then [('0' as int + n) as char] else Decimal(n / 10) + [('0' as int + n % 10) as char]
  }

  function PairText(p: (string, string)): string { p.0 + "=" + p.1 }

  function QueryText(q: seq<(string, string)>): string
    requires q != []
  {
    if |q| == 1 then PairText(q[0]) else PairText(q[0]) + "&" + QueryText(q[1..])
  }

  function TargetText(m: Message): string {
    if m.query == [] then m.path else m.path + "?" + QueryText(m.query)
  }

  function LineText(m: Message): string {
    Name(m.verb) + " " + (TargetText(m) + " " + m.version)
  }

  function FieldText(h: (string, string)): string { h.0 + ":" + (" " + h.1) }

  function FieldsText(hs: seq<(string, string)>, after: string): string {
    if hs == [] then after else FieldText(hs[0]) + "\r\n" + FieldsText(hs[1..], after)
  }

  /** The fields as sent: a body's length is stated last. */
  function AllFields(m: Message): seq<(string, string)> {
    if HasBody(m.verb) then m.headers + [("Content-Length", Decimal(|m.body|))] else m.headers
  }

  function Print(m: Message, after: string): string {
    LineText(m) + "\r\n" + FieldsText(AllFields(m), "\r\n" + (m.body + after))
  }

  predicate Free(s: string, banned: string) {
    forall i :: 0 <= i < |s| ==> s[i] !in banned
  }

  predicate WellFormed(m: Message) {
    && m.verb !in {Invalid, Head}
    && Free(m.path, " ?\r")
    && (forall i :: 0 <= i < |m.query| ==> Free(m.query[i].0, " &=\r") && Free(m.query[i].1, " &\r"))
    && (m.version == "HTTP/1.1" || m.version == "HTTP/1.0")
    && (forall i :: 0 <= i < |m.headers| ==> WellFormedField(m.headers[i]))
    && (!HasBody(m.verb) ==> m.body == "")
  }

  predicate WellFormedField(h: (string, string)) {
    Free(h.0, ":\r") && Free(h.1, "\r") && Trim(h.1) == h.1
  }

  function Fold(m: map<string, string>, pairs: seq<(string, string)>): map<string, string>
    decreases |pairs|
  {
    if pairs == [] then m else Fold(m[pairs[0].0 := pairs[0].1], pairs[1..])
  }

  /** The request the message stands for. */
  function Meaning(m: Message): Request {
    Request(m.verb, m.version, m.path, Fold(map[], m.query), Fold(map[], AllFields(m)), m.body, |m.body|, false)
  }

  // ---------------------------------------------------------------- characters

  lemma FindAfter(a: string, c: char, b: string)
    requires c !in a
    ensures Find(a + [c] + b, c) == |a|
  {
    var s := a + [c] + b;
    assert s[|a|] == c;
    assert forall j :: 0 <= j < |a| ==> s[j] == a[j];
    assert Find(s, c) >= |a|;
  }

  lemma FindNone(a: string, c: char)
    requires c !in a
    ensures Find(a, c) == |a|
  {
  }

  lemma {:induction false} CRLFAfter(a: string, b: string)
    requires '\r' !in a
    ensures FindCRLF(a + "\r\n" + b) == Some(|a|)
    decreases |a|
  {
    var s := a + "\r\n" + b;
    if a == [] {
      assert s[0] == '\r' && s[1] == '\n';
    } else {
      CRLFAfter(a[1..], b);
      assert s[1..] == a[1..] + "\r\n" + b;
      assert s[0] == a[0];
    }
  }

  lemma FreeOf(s: string, banned: string, c: char)
    requires Free(s, banned) && c in banned
    ensures c !in s
  {
  }

  lemma NoneInBoth(a: string, b: string, c: char)
    requires c !in a && c !in b
    ensures c !in a + b
  {
  }

  lemma Cut(a: string, c: char, b: string)
    ensures (a + [c] + b)[..|a|] == a && (a + [c] + b)[|a| + 1..] == b
  {
  }

  // ---------------------------------------------------------------- the pieces, read back

  lemma DecimalDigits(n: nat)
    ensures Decimal(n) != "" && forall i :: 0 <= i < |Decimal(n)| ==> IsDigit(Decimal(n)[i])
  {
  }

  lemma {:induction false} DigitsAppend(s: string, d: char, acc: nat)
    requires (forall i :: 0 <= i < |s| ==> IsDigit(s[i])) && IsDigit(d)
    ensures Digits(s + [d], acc) == Digits(s, acc) * 10 + (d as int - '0' as int)
    decreases |s|
  {
    if s == [] {
      assert [d][1..] == [];
      assert s + [d] == [d];
    } else {
      DigitsAppend(s[1..], d, acc * 10 + (s[0] as int - '0' as int));
      assert (s + [d])[1..] == s[1..] + [d];
    }
  }

  /** The decimal text of a length is read back as that length. */
  lemma {:induction false} DecimalReadsBack(n: nat)
    ensures Digits(Decimal(n), 0) == n
  {
    if n < 10 {
      var d := ('0' as int + n) as char;
      assert Decimal(n) == [d];
      assert [d][1..] == [];
    } else {
      DecimalReadsBack(n / 10);
      DecimalDigits(n / 10);
      DigitsAppend(Decimal(n / 10), ('0' as int + n % 10) as char, 0);
    }
  }

  lemma StoulDecimal(n: nat)
    requires n <= ULongMax
    ensures Stoul(Decimal(n)) == Some(n)
  {
    DecimalReadsBack(n);
    DecimalDigits(n);
  }

  lemma DecimalField(n: nat)
    ensures WellFormedField(("Content-Length", Decimal(n)))
  {
    DecimalDigits(n);
  }

  lemma TrimLeftShortens(s: string)
    ensures |TrimLeft(s)| <= |s| && (|TrimLeft(s)| == |s| ==> TrimLeft(s) == s)
  {
  }

  lemma TrimRightShortens(s: string)
    ensures |TrimRight(s)| <= |s|
  {
  }

  lemma TrimPadded(v: string)
    requires Trim(v) == v
    ensures Trim(" " + v) == v
  {
    TrimLeftShortens(v);
    TrimRightShortens(TrimLeft(v));
    assert (" " + v)[1..] == v;
  }

  lemma {:induction false} QueryReadsBack(q: map<string, string>, pairs: seq<(string, string)>)
    requires pairs != []
    requires forall i :: 0 <= i < |pairs| ==> Free(pairs[i].0, " &=\r") && Free(pairs[i].1, " &\r")
    ensures ParseQuery(q, QueryText(pairs)) == Fold(q, pairs)
    decreases |pairs|
  {
    var k, v := pairs[0].0, pairs[0].1;
    var text := PairText(pairs[0]);
    FreeOf(k, " &=\r", '='); FreeOf(k, " &=\r", '&'); FreeOf(v, " &\r", '&');
    FindAfter(k, '=', v);
    Cut(k, '=', v);
    assert AddPair(q, text) == q[k := v];
    assert '&' !in "=";
    NoneInBoth(k, "=", '&');
    NoneInBoth(k + "=", v, '&');
    if |pairs| == 1 {
      FindNone(text, '&');
      assert Fold(q[k := v], pairs[1..]) == q[k := v];
    } else {
      var rest := QueryText(pairs[1..]);
      FindAfter(text, '&', rest);
      Cut(text, '&', rest);
      QueryReadsBack(q[k := v], pairs[1..]);
    }
  }

  lemma {:induction false} QueryTextFree(pairs: seq<(string, string)>, c: char)
    requires pairs != [] && (c == ' ' || c == '\r')
    requires forall i :: 0 <= i < |pairs| ==> Free(pairs[i].0, " &=\r") && Free(pairs[i].1, " &\r")
    ensures c !in QueryText(pairs)
    decreases |pairs|
  {
    FreeOf(pairs[0].0, " &=\r", c);
    FreeOf(pairs[0].1, " &\r", c);
    if |pairs| > 1 { QueryTextFree(pairs[1..], c); }
  }

  lemma TargetReadsBack(m: Message, r: Request)
    requires WellFormed(m) && r.query == map[]
    ensures SetTarget(r, TargetText(m)) == r.(path := m.path, query := Fold(map[], m.query))
    ensures ' ' !in TargetText(m) && '\r' !in TargetText(m)
  {
    FreeOf(m.path, " ?\r", '?'); FreeOf(m.path, " ?\r", ' '); FreeOf(m.path, " ?\r", '\r');
    if m.query == [] {
      FindNone(m.path, '?');
    } else {
      var q := QueryText(m.query);
      QueryTextFree(m.query, ' ');
      QueryTextFree(m.query, '\r');
      FindAfter(m.path, '?', q);
      Cut(m.path, '?', q);
      QueryReadsBack(map[], m.query);
    }
  }

  lemma NameReadsBack(v: Method)
    requires v !in {Invalid, Head}
    ensures MethodOf(Name(v)) == v && ' ' !in Name(v) && '\r' !in Name(v)
  {
  }

  lemma VersionReadsBack(v: string)
    requires v == "HTTP/1.1" || v == "HTTP/1.0"
    ensures VersionOf(v) == Some(v) && '\r' !in v
  {
    assert "HTTP/1.1"[..7] == "HTTP/1." && "HTTP/1.0"[..7] == "HTTP/1.";
  }

  /** A text cut at its first space. */
  lemma CutAtSpace(first: string, second: string)
    requires ' ' !in first
    ensures var text := first + " " + second;
            Find(text, ' ') == |first| && |first| < |text| && text[..|first|] == first && text[|first| + 1..] == second
  {
    FindAfter(first, ' ', second);
    Cut(first, ' ', second);
  }

  lemma TailReadsBack(m: Message, r: Request)
    requires WellFormed(m) && r.query == map[]
    ensures TargetAndVersion(r, TargetText(m) + " " + m.version) ==
            (true, r.(path := m.path, query := Fold(map[], m.query), version := m.version))
  {
    TargetReadsBack(m, r);
    VersionReadsBack(m.version);
    CutAtSpace(TargetText(m), m.version);
  }

  lemma LineReadsBack(m: Message)
    requires WellFormed(m)
    ensures RequestLine(NoRequest, LineText(m)) ==
            (true, NoRequest.(verb := m.verb, path := m.path, query := Fold(map[], m.query), version := m.version))
    ensures '\r' !in LineText(m)
  {
    NameReadsBack(m.verb);
    TailReadsBack(m, NoRequest.(verb := m.verb));
    CutAtSpace(Name(m.verb), TargetText(m) + " " + m.version);
    TargetReadsBack(m, NoRequest);
    VersionReadsBack(m.version);
  }

  /** The header block is read field by field. */
  lemma {:induction false} FieldsReadBack(r: Request, hs: seq<(string, string)>, after: string, maxBody: nat)
    requires forall i :: 0 <= i < |hs| ==> WellFormedField(hs[i])
    ensures Parse(Parser(ExpectHeaders, r, FieldsText(hs, after)), maxBody) ==
            Parse(Parser(ExpectHeaders, r.(headers := Fold(r.headers, hs)), after), maxBody)
    decreases |hs|
  {
    if hs != [] {
      var k, v := hs[0].0, hs[0].1;
      var line, rest := FieldText(hs[0]), FieldsText(hs[1..], after);
      FreeOf(k, ":\r", ':'); FreeOf(k, ":\r", '\r'); FreeOf(v, "\r", '\r');
      CRLFAfter(line, rest);
      FindAfter(k, ':', " " + v);
      Cut(k, ':', " " + v);
      TrimPadded(v);
      var p := Parser(ExpectHeaders, r, line + "\r\n" + rest);
      assert p.buf[..|line|] == line && p.buf[|line| + 2..] == rest;
      assert Advance(p, maxBody) == More(Parser(ExpectHeaders, r.(headers := r.headers[k := v]), rest));
      FieldsReadBack(r.(headers := r.headers[k := v]), hs[1..], after, maxBody);
    }
  }

  lemma {:induction false} FoldLast(m: map<string, string>, pairs: seq<(string, string)>, k: string, v: string)
    ensures k in Fold(m, pairs + [(k, v)]) && Fold(m, pairs + [(k, v)])[k] == v
    decreases |pairs|
  {
    if pairs == [] {
      assert (pairs + [(k, v)])[1..] == [];
    } else {
      assert (pairs + [(k, v)])[1..] == pairs[1..] + [(k, v)];
      FoldLast(m[pairs[0].0 := pairs[0].1], pairs[1..], k, v);
    }
  }

  /** After the blank line: the body, framed by the stated length. */
  lemma BodyReadsBack(m: Message, r: Request, after: string, maxBody: nat)
    requires WellFormed(m) && r.verb == m.verb && r.headers == Fold(map[], AllFields(m))
    requires r.contentLength == 0 && r.body == "" && !r.bodyTooLarge && maxBody <= ULongMax && |m.body| <= ULongMax
    ensures Parse(Parser(ExpectHeaders, r, "\r\n" + (m.body + after)), maxBody) ==
            if |m.body| <= maxBody
            then (Parser(GotAll, r.(body := m.body, contentLength := |m.body|), after), Good)
            else (Parser(GotAll, r.(bodyTooLarge := true), "\r\n" + (m.body + after)), Good)
  {
    var p := Parser(ExpectHeaders, r, "\r\n" + (m.body + after));
    assert p.buf[0] == '\r' && p.buf[1] == '\n';
    assert FindCRLF(p.buf) == Some(0);
    assert p.buf[..0] == "";
    assert p.buf[2..] == m.body + after;
    if HasBody(m.verb) {
      FoldLast(map[], m.headers, "Content-Length", Decimal(|m.body|));
      DecimalDigits(|m.body|);
      StoulDecimal(|m.body|);
      if 0 < |m.body| <= maxBody {
        var q := Parser(ExpectBody, r.(contentLength := |m.body|), m.body + after);
        assert Advance(p, maxBody) == More(q);
        assert q.buf[..|m.body|] == m.body && q.buf[|m.body|..] == after;
      } else {
        assert m.body == "" ==> m.body + after == after;
      }
    } else {
      assert m.body + after == after;
    }
  }

  /**
   Parsing a printed well-formed request, followed by anything, gives back the request it stands for
   and leaves exactly what followed; a body above the limit is refused before it is read.
   */
  lemma PrintParse(m: Message, after: string, maxBody: nat)
    requires WellFormed(m) && maxBody <= ULongMax && |m.body| <= ULongMax
    ensures var (end, v) := Parse(Parser(ExpectRequestLine, NoRequest, Print(m, after)), maxBody);
            && v == Good
            && end == if |m.body| <= maxBody then Parser(GotAll, Meaning(m), after)
                      else Parser(GotAll, Meaning(m).(body := "", contentLength := 0, bodyTooLarge := true), "\r\n" + (m.body + after))
  {
    var line := LineText(m);
    var rest := "\r\n" + (m.body + after);
    var r := NoRequest.(verb := m.verb, path := m.path, query := Fold(map[], m.query), version := m.version);
    LineIsRead(m, FieldsText(AllFields(m), rest), maxBody);
    DecimalField(|m.body|);
    FieldsReadBack(r, AllFields(m), rest, maxBody);
    BodyReadsBack(m, r.(headers := Fold(map[], AllFields(m))), after, maxBody);
  }

  lemma LineIsRead(m: Message, block: string, maxBody: nat)
    requires WellFormed(m)
    ensures var r := NoRequest.(verb := m.verb, path := m.path, query := Fold(map[], m.query), version := m.version);
            Parse(Parser(ExpectRequestLine, NoRequest, LineText(m) + "\r\n" + block), maxBody) ==
            Parse(Parser(ExpectHeaders, r, block), maxBody)
  {
    var line := LineText(m);
    var start := Parser(ExpectRequestLine, NoRequest, line + "\r\n" + block);
    LineReadsBack(m);
    CRLFAfter(line, block);
    assert start.buf[..|line|] == line && start.buf[|line| + 2..] == block;
    var r := NoRequest.(verb := m.verb, path := m.path, query := Fold(map[], m.query), version := m.version);
    assert Advance(start, maxBody) == More(Parser(ExpectHeaders, r, block));
  }

  /** The same, however the bytes are cut into segments on the way. */
  lemma SegmentedRoundTrip(m: Message, after: string, segments: seq<string>, maxBody: nat)
    requires WellFormed(m) && maxBody <= ULongMax && |m.body| <= maxBody
    requires segments != [] && Flatten(segments) == Print(m, after)
    ensures Feed(Parser(ExpectRequestLine, NoRequest, ""), segments, maxBody) == (Parser(GotAll, Meaning(m), after), Good)
  {
    AnySegmentation(Parser(ExpectRequestLine, NoRequest, ""), segments, maxBody);
    assert "" + Print(m, after) == Print(m, after);
    PrintParse(m, after, maxBody);
  }
}
