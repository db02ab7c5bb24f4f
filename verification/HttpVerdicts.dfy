/**
 What the parser says of every complete header block, well-formed or not: a request line and header
 lines, each ended by CRLF, a blank line, and whatever follows. The conditions speak of the bytes
 alone.
 */
module HttpVerdicts {
  import opened Common
  import opened HttpParser
  import opened HttpRoundTrip
  import opened HttpConnection

  // ---------------------------------------------------------------- blocks

  /** A line: no CRLF inside. */
  predicate IsLine(s: string) { forall j :: 0 <= j < |s| - 1 ==> !(s[j] == '\r' && s[j + 1] == '\n') }

  predicate AreFields(fields: seq<string>) { forall i :: 0 <= i < |fields| ==> IsLine(fields[i]) && fields[i] != "" }

  function Lines(fields: seq<string>, after: string): string {
    if fields == [] then after else fields[0] + "\r\n" + Lines(fields[1..], after)
  }

  function Block(line: string, fields: seq<string>, after: string): string {
    line + "\r\n" + Lines(fields, "\r\n" + after)
  }

  /** Method, one space, target, one space, version: one of five methods, one of two versions. */
  ghost predicate GoodLine(line: string) {
    exists name, target, version :: GoodParts(line, name, target, version)
  }

  predicate GoodParts(line: string, name: string, target: string, version: string) {
    && line == name + " " + (target + " " + version) && ' ' !in target
    && name in {"GET", "POST", "PUT", "DELETE", "OPTIONS"} && version in {"HTTP/1.1", "HTTP/1.0"}
  }

  /** The methods a body goes with. */
  predicate BodyLine(line: string) { "POST " <= line || "PUT " <= line }

  /** Blank, tab, line feed, vertical tab, form feed and carriage return. */
  predicate White(c: char) { c == ' ' || c == '\t' || c == '\n' || c == 11 as char || c == 12 as char || c == '\r' }

  predicate Blank(s: string) { forall i :: 0 <= i < |s| ==> White(s[i]) }

  predicate Bare(v: string) { v == "" || (!White(v[0]) && !White(v[|v| - 1])) }

  /** The header line names this field. */
  predicate Names(field: string, name: string) { name + ":" <= field }

  /** Field `i` is the last one of that name, and its value without the space around it is `v`. */
  ghost predicate LastAt(fields: seq<string>, name: string, i: nat, v: string) {
    && i < |fields| && Names(fields[i], name) && Bare(v)
    && (exists left, right :: Blank(left) && Blank(right) && fields[i] == name + ":" + (left + v + right))
    && forall j :: i < j < |fields| ==> !Names(fields[j], name)
  }

  ghost predicate Says(fields: seq<string>, name: string, v: string) { exists i: nat :: LastAt(fields, name, i, v) }

  ghost predicate Silent(fields: seq<string>, name: string) { forall j :: 0 <= j < |fields| ==> !Names(fields[j], name) }

  /** The length a block states for its body. */
  ghost predicate Stated(fields: seq<string>, v: string) { Says(fields, "Content-Length", v) }

  /** The number written by decimal digits. */
  function Numeral(ds: string): nat
    requires AllDigits(ds)
  {
    if ds == "" then 0
    else
      assert '0' <= ds[|ds| - 1] <= '9';
      Numeral(ds[..|ds| - 1]) * 10 + (ds[|ds| - 1] as int - '0' as int)
  }

  predicate AllDigits(ds: string) { forall i :: 0 <= i < |ds| ==> '0' <= ds[i] <= '9' }

  /** `v` is an optional sign, digits, and something that does not go on with a digit. */
  predicate Reads(v: string, sign: string, ds: string, rest: string) {
    && v == sign + (ds + rest) && sign in {"", "+", "-"} && ds != "" && AllDigits(ds)
    && (rest == "" || !('0' <= rest[0] <= '9'))
  }

  /** A number of at most 64 bits stands in front. */
  ghost predicate Readable(v: string) {
    exists sign, ds, rest :: Reads(v, sign, ds, rest) && Numeral(ds) < 0x1_0000_0000_0000_0000
  }

  // ---------------------------------------------------------------- lines

  lemma {:induction false} LineEnds(a: string, b: string)
    requires IsLine(a)
    ensures FindCRLF(a + "\r\n" + b) == Some(|a|)
    decreases |a|
  {
    var s := a + "\r\n" + b;
    if a == [] {
      assert s[0] == '\r' && s[1] == '\n';
    } else {
      forall j | 0 <= j < |a[1..]| - 1 ensures !(a[1..][j] == '\r' && a[1..][j + 1] == '\n') {
        assert a[1..][j] == a[j + 1] && a[1..][j + 1] == a[j + 1 + 1];
      }
      LineEnds(a[1..], b);
      assert s[1..] == a[1..] + "\r\n" + b;
      assert s[0] == a[0];
      if |a| > 1 { assert s[1] == a[1]; } else { assert s[1] == '\r'; }
    }
  }

  lemma LineCut(a: string, b: string)
    ensures (a + "\r\n" + b)[..|a|] == a && (a + "\r\n" + b)[|a| + 2..] == b
  {
  }

  lemma VersionIs(v: string)
    ensures VersionOf(v).Some? <==> v in {"HTTP/1.1", "HTTP/1.0"}
  {
    assert "HTTP/1.1"[..7] == "HTTP/1." && "HTTP/1.0"[..7] == "HTTP/1.";
    assert "HTTP/1.1" == "HTTP/1." + ['1'] && "HTTP/1.0" == "HTTP/1." + ['0'];
    if VersionOf(v).Some? { assert v == v[..7] + [v[7]]; }
  }

  lemma MethodIs(m: string)
    ensures MethodOf(m) != Invalid <==> m in {"GET", "POST", "PUT", "DELETE", "OPTIONS"}
    ensures (MethodOf(m).Post? || MethodOf(m).Put?) <==> m in {"POST", "PUT"}
  {
  }

  lemma Around(s: string, i: nat, c: char)
    requires i < |s| && s[i] == c
    ensures s == s[..i] + [c] + s[i + 1..]
  {
  }

  /** A line with a space, cut there. */
  lemma SpaceCut(line: string)
    requires Find(line, ' ') < |line|
    ensures var sp := Find(line, ' '); line == line[..sp] + [' '] + line[sp + 1..] && ' ' !in line[..sp]
  {
    Around(line, Find(line, ' '), ' ');
  }

  /** An accepted line in its three parts. */
  lemma AcceptedParts(line: string) returns (name: string, target: string, version: string)
    requires RequestLine(NoRequest, line).0
    ensures line == name + " " + (target + " " + version) && ' ' !in name && ' ' !in target
    ensures MethodOf(name) != Invalid && VersionOf(version).Some? && RequestLine(NoRequest, line).1.verb == MethodOf(name)
  {
    var sp := Find(line, ' ');
    var tail := line[sp + 1..];
    var sp2 := Find(tail, ' ');
    SpaceCut(line);
    SpaceCut(tail);
    name, target, version := line[..sp], tail[..sp2], tail[sp2 + 1..];
  }

  lemma AcceptedIsGood(line: string)
    requires RequestLine(NoRequest, line).0
    ensures GoodLine(line) && (RequestLine(NoRequest, line).1.verb in {Post, Put} <==> BodyLine(line))
  {
    var name, target, version := AcceptedParts(line);
    MethodIs(name);
    VersionIs(version);
    assert GoodParts(line, name, target, version);
    BodyPrefix(line, name, target + " " + version);
  }

  lemma BodyPrefix(line: string, name: string, tail: string)
    requires line == name + " " + tail && ' ' !in name
    ensures BodyLine(line) <==> name in {"POST", "PUT"}
  {
    if "POST " <= line { SameFirst("POST", name, line, tail); }
    if "PUT " <= line { SameFirst("PUT", name, line, tail); }
    if name == "POST" { assert line[..5] == "POST "; }
    if name == "PUT" { assert line[..4] == "PUT "; }
  }

  /** What stands before the first space is determined by the line. */
  lemma SameFirst(a: string, name: string, line: string, tail: string)
    requires a + " " <= line && line == name + " " + tail && ' ' !in a && ' ' !in name
    ensures a == name
  {
    assert line[|a|] == ' ' && line[|name|] == ' ';
    assert forall j :: 0 <= j < |a| ==> line[j] == a[j] && a[j] != ' ';
    assert forall j :: 0 <= j < |name| ==> line[j] == name[j] && name[j] != ' ';
    assert |a| >= |name| && |name| >= |a|;
    assert a == line[..|a|];
    assert name == line[..|name|];
  }

  lemma GoodIsAccepted(line: string)
    requires GoodLine(line)
    ensures RequestLine(NoRequest, line).0
  {
    var name, target, version :| GoodParts(line, name, target, version);
    CutAtSpace(name, target + " " + version);
    assert name + " " + (target + " " + version) == line;
    CutAtSpace(target, version);
    MethodIs(name);
    VersionIs(version);
  }

  lemma LineVerdict(line: string)
    ensures RequestLine(NoRequest, line).0 <==> GoodLine(line)
    ensures GoodLine(line) ==> (RequestLine(NoRequest, line).1.verb in {Post, Put} <==> BodyLine(line))
    ensures RequestLine(NoRequest, line).1.headers == map[]
  {
    if RequestLine(NoRequest, line).0 { AcceptedIsGood(line); }
    if GoodLine(line) { GoodIsAccepted(line); }
  }

  /** A bad request line is refused whatever follows it. */
  lemma BadLineRefused(line: string, after: string, maxBody: nat)
    requires IsLine(line) && !GoodLine(line)
    ensures Parse(Start(line + "\r\n" + after), maxBody).1 == Bad
  {
    LineEnds(line, after);
    LineCut(line, after);
    LineVerdict(line);
  }

  lemma GoodLineRead(line: string, after: string, maxBody: nat)
    requires IsLine(line) && GoodLine(line)
    ensures Parse(Start(line + "\r\n" + after), maxBody) == Parse(Parser(ExpectHeaders, RequestLine(NoRequest, line).1, after), maxBody)
  {
    LineEnds(line, after);
    LineCut(line, after);
    LineVerdict(line);
    assert Advance(Start(line + "\r\n" + after), maxBody) == More(Parser(ExpectHeaders, RequestLine(NoRequest, line).1, after));
  }

  // ---------------------------------------------------------------- header lines

  predicate AllColons(fields: seq<string>) { forall i :: 0 <= i < |fields| ==> ':' in fields[i] }

  function AddLine(headers: map<string, string>, field: string): map<string, string>
    requires ':' in field
  {
    var colon := Find(field, ':');
    headers[field[..colon] := Trim(field[colon + 1..])]
  }

  function AddLines(headers: map<string, string>, fields: seq<string>): map<string, string>
    requires AllColons(fields)
    decreases |fields|
  {
    if fields == [] then headers else AddLines(AddLine(headers, fields[0]), fields[1..])
  }

  lemma FieldRound(r: Request, field: string, after: string, maxBody: nat)
    requires IsLine(field) && field != ""
    ensures var p := Parser(ExpectHeaders, r, field + "\r\n" + after);
            if ':' in field then Parse(p, maxBody) == Parse(Parser(ExpectHeaders, r.(headers := AddLine(r.headers, field)), after), maxBody)
            else Parse(p, maxBody).1 == Bad
  {
    LineEnds(field, after);
    LineCut(field, after);
    var p := Parser(ExpectHeaders, r, field + "\r\n" + after);
    if ':' in field {
      assert Advance(p, maxBody) == More(Parser(ExpectHeaders, r.(headers := AddLine(r.headers, field)), after));
    } else {
      assert Advance(p, maxBody) == Halt(p.(buf := after), Bad);
    }
  }

  /** Header lines that all have a colon are read one by one; the first that has none is an error. */
  lemma {:induction false} FieldsVerdict(r: Request, fields: seq<string>, after: string, maxBody: nat)
    requires AreFields(fields)
    ensures var p := Parser(ExpectHeaders, r, Lines(fields, after));
            if AllColons(fields) then Parse(p, maxBody) == Parse(Parser(ExpectHeaders, r.(headers := AddLines(r.headers, fields)), after), maxBody)
            else Parse(p, maxBody).1 == Bad
    decreases |fields|
  {
    if fields != [] {
      FieldRound(r, fields[0], Lines(fields[1..], after), maxBody);
      if ':' in fields[0] {
        FieldsVerdict(r.(headers := AddLine(r.headers, fields[0])), fields[1..], after, maxBody);
        assert AllColons(fields) <==> AllColons(fields[1..]) by { ColonsBehind(fields); }
      }
    }
  }

  lemma ColonsBehind(fields: seq<string>)
    requires fields != [] && ':' in fields[0]
    ensures AllColons(fields) <==> AllColons(fields[1..])
  {
    if AllColons(fields[1..]) {
      forall i | 0 <= i < |fields| ensures ':' in fields[i] {
        if i > 0 { assert fields[i] == fields[1..][i - 1]; }
      }
    }
  }

  // ---------------------------------------------------------------- the stated length

  lemma {:induction false} TrimLeftBlank(left: string, v: string)
    requires Blank(left)
    ensures TrimLeft(left + v) == TrimLeft(v)
    decreases |left|
  {
    if left == "" {
      assert left + v == v;
    } else {
      assert (left + v)[1..] == left[1..] + v;
      TrimLeftBlank(left[1..], v);
    }
  }

  lemma {:induction false} TrimRightBlank(v: string, right: string)
    requires Blank(right)
    ensures TrimRight(v + right) == TrimRight(v)
    decreases |right|
  {
    if right == "" {
      assert v + right == v;
    } else {
      var n := |right| - 1;
      assert (v + right)[..|v + right| - 1] == v + right[..n];
      TrimRightBlank(v, right[..n]);
    }
  }

  lemma TrimBare(left: string, v: string, right: string)
    requires Blank(left) && Blank(right) && Bare(v)
    ensures Trim(left + v + right) == v
  {
    assert left + v + right == left + (v + right);
    TrimLeftBlank(left, v + right);
    if v == "" {
      assert v + right == right && right + "" == right;
      TrimLeftBlank(right, "");
    } else {
      assert TrimLeft(v + right) == v + right;
      TrimRightBlank(v, right);
    }
  }

  lemma {:induction false} TrimLeftParts(s: string) returns (left: string)
    ensures Blank(left) && s == left + TrimLeft(s) && (TrimLeft(s) == "" || !IsSpace(TrimLeft(s)[0]))
    decreases |s|
  {
    if s != "" && IsSpace(s[0]) {
      var l := TrimLeftParts(s[1..]);
      left := [s[0]] + l;
      assert s == [s[0]] + s[1..];
    } else {
      left := "";
    }
  }

  lemma {:induction false} TrimRightParts(s: string) returns (right: string)
    ensures Blank(right) && s == TrimRight(s) + right && (TrimRight(s) == "" || !IsSpace(TrimRight(s)[|TrimRight(s)| - 1]))
    decreases |s|
  {
    if s != "" && IsSpace(s[|s| - 1]) {
      var r := TrimRightParts(s[..|s| - 1]);
      right := r + [s[|s| - 1]];
      assert s == s[..|s| - 1] + [s[|s| - 1]];
    } else {
      right := "";
    }
  }

  /** Every text is blank space, a bare value, blank space. */
  lemma TrimParts(s: string) returns (left: string, right: string)
    ensures Blank(left) && Blank(right) && Bare(Trim(s)) && s == left + Trim(s) + right
  {
    left := TrimLeftParts(s);
    right := TrimRightParts(TrimLeft(s));
    var v := Trim(s);
    if v != "" { assert TrimLeft(s)[0] == v[0]; }
    assert left + (v + right) == left + v + right;
  }

  lemma NamedField(field: string, name: string)
    requires ':' !in name && Names(field, name)
    ensures Find(field, ':') == |name| && field[..|name|] == name && field == name + ":" + field[|name| + 1..]
  {
    var head := name + ":";
    assert head[|name|] == ':' && field[|name|] == ':';
    assert forall j :: 0 <= j < |name| ==> field[j] == head[j] && head[j] == name[j];
    assert field[..|head|] == head;
    assert head[..|name|] == name;
  }

  lemma OtherField(field: string, name: string)
    requires ':' in field && field[..Find(field, ':')] == name
    ensures Names(field, name)
  {
    Around(field, Find(field, ':'), ':');
  }

  lemma {:induction false} AddLinesLast(headers: map<string, string>, fields: seq<string>)
    requires fields != [] && AllColons(fields)
    ensures AllColons(fields[..|fields| - 1])
    ensures AddLines(headers, fields) == AddLine(AddLines(headers, fields[..|fields| - 1]), fields[|fields| - 1])
    decreases |fields|
  {
    if |fields| > 1 {
      ColonsBehind(fields);
      AddLinesLast(AddLine(headers, fields[0]), fields[1..]);
      assert fields[1..][..|fields[1..]| - 1] == fields[..|fields| - 1][1..];
    }
  }

  /** The value found under a name is the one of the last such field. */
  lemma {:induction false} FoundIsLast(fields: seq<string>, name: string)
    requires AllColons(fields) && ':' !in name
    ensures var h := AddLines(map[], fields); if name in h then Says(fields, name, h[name]) else Silent(fields, name)
    decreases |fields|
  {
    if fields != [] {
      var n := |fields| - 1;
      var last := fields[n];
      AddLinesLast(map[], fields);
      FoundIsLast(fields[..n], name);
      if Names(last, name) {
        LastField(fields, name);
      } else {
        if last[..Find(last, ':')] == name { OtherField(last, name); }
        FoundEarlier(fields, name, AddLines(map[], fields[..n]));
      }
    }
  }

  lemma LastField(fields: seq<string>, name: string)
    requires fields != [] && ':' !in name && Names(fields[|fields| - 1], name)
    ensures var last := fields[|fields| - 1]; last[..Find(last, ':')] == name && Says(fields, name, Trim(last[Find(last, ':') + 1..]))
  {
    var last := fields[|fields| - 1];
    NamedField(last, name);
    var left, right := TrimParts(last[|name| + 1..]);
    assert LastAt(fields, name, |fields| - 1, Trim(last[|name| + 1..]));
  }

  lemma FoundEarlier(fields: seq<string>, name: string, h: map<string, string>)
    requires fields != [] && !Names(fields[|fields| - 1], name)
    requires if name in h then Says(fields[..|fields| - 1], name, h[name]) else Silent(fields[..|fields| - 1], name)
    ensures if name in h then Says(fields, name, h[name]) else Silent(fields, name)
  {
    var n := |fields| - 1;
    if name in h {
      var i: nat :| LastAt(fields[..n], name, i, h[name]);
      forall j | i < j < |fields| ensures !Names(fields[j], name) {
        if j < n { assert fields[j] == fields[..n][j]; }
      }
      assert LastAt(fields, name, i, h[name]);
    } else {
      forall j | 0 <= j < |fields| ensures !Names(fields[j], name) {
        if j < n { assert fields[j] == fields[..n][j]; }
      }
    }
  }

  lemma LastValue(fields: seq<string>, name: string, i: nat, v: string)
    requires LastAt(fields, name, i, v)
    ensures |name| + 1 <= |fields[i]| && v == Trim(fields[i][|name| + 1..])
  {
    var left, right :| Blank(left) && Blank(right) && fields[i] == name + ":" + (left + v + right);
    assert |name + ":"| == |name| + 1;
    assert fields[i][|name| + 1..] == left + v + right;
    TrimBare(left, v, right);
  }

  lemma SaidOnce(fields: seq<string>, name: string, v: string, w: string)
    requires Says(fields, name, v) && Says(fields, name, w)
    ensures v == w
  {
    var i: nat :| LastAt(fields, name, i, v);
    var j: nat :| LastAt(fields, name, j, w);
    assert i == j;
    LastValue(fields, name, i, v);
    LastValue(fields, name, j, w);
  }

  /** The text the parser acts on is the stated value, or empty when none is stated. */
  lemma HeaderIsStated(fields: seq<string>, r: Request)
    requires AllColons(fields) && r.headers == AddLines(map[], fields)
    ensures Bare(Header(r, "Content-Length"))
    ensures forall v :: v != "" ==> (Stated(fields, v) <==> v == Header(r, "Content-Length"))
  {
    FoundIsLast(fields, "Content-Length");
    forall v | v != "" ensures Stated(fields, v) <==> v == Header(r, "Content-Length") {
      if Stated(fields, v) {
        var i: nat :| LastAt(fields, "Content-Length", i, v);
        if "Content-Length" in r.headers { SaidOnce(fields, "Content-Length", v, r.headers["Content-Length"]); }
      }
    }
  }

  // ---------------------------------------------------------------- numbers

  lemma {:induction false} DigitsAre(ds: string, rest: string, acc: nat)
    requires AllDigits(ds) && (rest == "" || !('0' <= rest[0] <= '9'))
    ensures Digits(ds + rest, acc) == Digits(ds, acc)
    decreases |ds|
  {
    if ds == "" {
      assert ds + rest == rest;
    } else {
      assert (ds + rest)[1..] == ds[1..] + rest;
      DigitsAre(ds[1..], rest, acc * 10 + (ds[0] as int - '0' as int));
    }
  }

  lemma {:induction false} DigitsIsNumeral(ds: string)
    requires AllDigits(ds)
    ensures Digits(ds, 0) == Numeral(ds)
    decreases |ds|
  {
    if ds != "" {
      var front, d := ds[..|ds| - 1], ds[|ds| - 1];
      DigitsIsNumeral(front);
      assert ds == front + [d];
      assert forall i :: 0 <= i < |front| ==> IsDigit(front[i]);
      DigitsAppend(front, d, 0);
    }
  }

  /** The digits in front of a text. */
  lemma {:induction false} LeadingDigits(u: string) returns (ds: string, rest: string)
    ensures u == ds + rest && AllDigits(ds) && (rest == "" || !('0' <= rest[0] <= '9'))
    ensures u != "" && IsDigit(u[0]) ==> ds != ""
    decreases |u|
  {
    if u != "" && IsDigit(u[0]) {
      var more;
      more, rest := LeadingDigits(u[1..]);
      ds := [u[0]] + more;
      assert u == [u[0]] + u[1..];
    } else {
      ds, rest := "", u;
    }
  }

  /** A bare text that reads as a number: what the conversion makes of it. */
  lemma StoulReads(v: string, sign: string, ds: string, rest: string)
    requires Bare(v) && Reads(v, sign, ds, rest)
    ensures Stoul(v) == if Numeral(ds) >= 0x1_0000_0000_0000_0000 then None
                        else if sign == "-" && Numeral(ds) > 0 then Some(0x1_0000_0000_0000_0000 - Numeral(ds))
                        else Some(Numeral(ds))
  {
    var u := ds + rest;
    assert TrimLeft(v) == v;
    assert u[0] == ds[0];
    if sign == "" { assert v == u; } else { assert v[0] == sign[0] && v[1..] == u; }
    DigitsAre(ds, rest, 0);
    DigitsIsNumeral(ds);
  }

  /** The conversion succeeds exactly on texts with a 64-bit number in front. */
  lemma StoulIff(v: string)
    requires Bare(v)
    ensures Stoul(v).Some? <==> Readable(v)
  {
    if Readable(v) {
      var sign, ds, rest :| Reads(v, sign, ds, rest) && Numeral(ds) < 0x1_0000_0000_0000_0000;
      StoulReads(v, sign, ds, rest);
    }
    if Stoul(v).Some? {
      assert TrimLeft(v) == v;
      var sign := if v[0] == '-' then "-" else if v[0] == '+' then "+" else "";
      var u := v[|sign|..];
      var ds, rest := LeadingDigits(u);
      assert v == sign + u;
      assert Reads(v, sign, ds, rest);
      StoulReads(v, sign, ds, rest);
    }
  }

  // ---------------------------------------------------------------- the verdict on a block

  /** The state in which the blank line is met. */
  function AtBlank(line: string, fields: seq<string>, after: string): Parser
    requires AllColons(fields)
  {
    var r := RequestLine(NoRequest, line).1;
    Parser(ExpectHeaders, r.(headers := AddLines(map[], fields)), "\r\n" + after)
  }

  lemma BlockRead(line: string, fields: seq<string>, after: string, maxBody: nat)
    requires IsLine(line) && AreFields(fields)
    ensures !GoodLine(line) || !AllColons(fields) ==> Parse(Start(Block(line, fields, after)), maxBody).1 == Bad
    ensures GoodLine(line) && AllColons(fields) ==>
              Parse(Start(Block(line, fields, after)), maxBody) == Parse(AtBlank(line, fields, after), maxBody)
  {
    var lines := Lines(fields, "\r\n" + after);
    if GoodLine(line) {
      GoodLineRead(line, lines, maxBody);
      LineVerdict(line);
      FieldsVerdict(RequestLine(NoRequest, line).1, fields, "\r\n" + after, maxBody);
    } else {
      BadLineRefused(line, lines, maxBody);
    }
  }

  lemma BlankRound(p: Parser, after: string, maxBody: nat)
    requires p.state.ExpectHeaders? && p.buf == "\r\n" + after
    ensures p.buf[2..] == after && Advance(p, maxBody) == EndHeaders(p, maxBody)
  {
    assert p.buf[0] == '\r' && p.buf[1] == '\n';
    assert FindCRLF(p.buf) == Some(0);
    assert p.buf[..0] == "";
  }

  lemma BodyRound(r: Request, n: nat, buf: string, maxBody: nat)
    ensures var p := Parser(ExpectBody, r.(contentLength := n), buf);
            Parse(p, maxBody) == if |buf| < n then (p, Good)
                                 else (Parser(GotAll, r.(contentLength := n, body := buf[..n]), buf[n..]), Good)
  {
  }

  /** At the blank line, in terms of the text found under Content-Length. */
  lemma BlankVerdict(p: Parser, after: string, maxBody: nat)
    requires p.state.ExpectHeaders? && p.buf == "\r\n" + after && Bare(Header(p.req, "Content-Length"))
    ensures var v := Header(p.req, "Content-Length");
            var body := p.req.verb in {Post, Put};
            && (Parse(p, maxBody).1 == Bad <==> body && v == "")
            && (Parse(p, maxBody).1 == Thrown <==> body && v != "" && !Readable(v))
  {
    BlankRound(p, after, maxBody);
    StoulIff(Header(p.req, "Content-Length"));
    match EndHeaders(p, maxBody) {
      case More(next) => BodyRound(next.req, next.req.contentLength, next.buf, maxBody);
      case Halt(_, _) =>
    }
  }

  /**
   The verdict on every complete header block: a syntax error exactly when the request line is not
   one of the accepted ones, or a header line has no colon, or a POST or PUT states no length (or an
   empty one); an exception exactly when a POST or PUT states a length that is no 64-bit number.
   */
  lemma BlockVerdictIff(line: string, fields: seq<string>, after: string, maxBody: nat)
    requires IsLine(line) && AreFields(fields)
    ensures var v := Parse(Start(Block(line, fields, after)), maxBody).1;
            && (v == Bad <==>
                  !GoodLine(line) || !AllColons(fields) || (BodyLine(line) && forall w :: Stated(fields, w) ==> w == ""))
            && (v == Thrown <==>
                  GoodLine(line) && AllColons(fields) && BodyLine(line) && exists w :: Stated(fields, w) && w != "" && !Readable(w))
  {
    BlockRead(line, fields, after, maxBody);
    if GoodLine(line) && AllColons(fields) {
      var p := AtBlank(line, fields, after);
      LineVerdict(line);
      HeaderIsStated(fields, p.req);
      BlankVerdict(p, after, maxBody);
      var w := Header(p.req, "Content-Length");
      if w != "" { assert Stated(fields, w); }
    }
  }

  /**
   And what a POST or PUT with a readable length leads to: refused as too large above the limit (a
   negative number counts from 2^64 down), else its body is the next so many bytes, waited for if need be.
   */
  lemma BlockBody(line: string, fields: seq<string>, after: string, maxBody: nat, w: string, sign: string, ds: string, rest: string)
    requires IsLine(line) && AreFields(fields) && GoodLine(line) && AllColons(fields) && BodyLine(line)
    requires Stated(fields, w) && Reads(w, sign, ds, rest) && Numeral(ds) < 0x1_0000_0000_0000_0000
    ensures var n := if sign == "-" && Numeral(ds) > 0 then 0x1_0000_0000_0000_0000 - Numeral(ds) else Numeral(ds);
            var (end, v) := Parse(Start(Block(line, fields, after)), maxBody);
            && v == Good
            && (if n > maxBody then end.state == GotAll && end.req.bodyTooLarge && end.req.body == "" && end.buf == "\r\n" + after
                else if n <= |after| then
                  end.state == GotAll && !end.req.bodyTooLarge && end.req.contentLength == n && end.req.body == after[..n] && end.buf == after[n..]
                else end.state == ExpectBody && end.req.contentLength == n && end.buf == after)
  {
    BlockRead(line, fields, after, maxBody);
    LineVerdict(line);
    var p := AtBlank(line, fields, after);
    HeaderIsStated(fields, p.req);
    assert w != "" by { assert |w| >= |ds|; }
    StoulReads(w, sign, ds, rest);
    BodyAtBlank(p, Stoul(w).value, after, maxBody);
  }

  lemma BodyAtBlank(p: Parser, n: nat, after: string, maxBody: nat)
    requires p.state.ExpectHeaders? && p.buf == "\r\n" + after && p.req.verb in {Post, Put} && p.req.body == "" && !p.req.bodyTooLarge
    requires Header(p.req, "Content-Length") != "" && Stoul(Header(p.req, "Content-Length")) == Some(n)
    ensures var (end, v) := Parse(p, maxBody);
            && v == Good
            && (if n > maxBody then end.state == GotAll && end.req.bodyTooLarge && end.req.body == "" && end.buf == "\r\n" + after
                else if n <= |after| then
                  end.state == GotAll && !end.req.bodyTooLarge && end.req.contentLength == n && end.req.body == after[..n] && end.buf == after[n..]
                else end.state == ExpectBody && end.req.contentLength == n && end.buf == after)
  {
    BlankRound(p, after, maxBody);
    BodyRound(p.req, n, after, maxBody);
    if n == 0 { assert after[..0] == "" && after[0..] == after; }
  }

  // ---------------------------------------------------------------- what an accepted block says

  /** A piece of the query: a key and what follows its first '=', or a text that has none. */
  datatype Piece = Pair(key: string, value: string) | Keyless(text: string)

  function PieceText(p: Piece): string { match p case Pair(k, v) => k + "=" + v case Keyless(t) => t }

  predicate IsPiece(p: Piece) {
    '&' !in PieceText(p) && match p case Pair(k, _) => '=' !in k case Keyless(t) => '=' !in t
  }

  function Joined(pieces: seq<Piece>): string
    requires pieces != []
  {
    if |pieces| == 1 then PieceText(pieces[0]) else PieceText(pieces[0]) + "&" + Joined(pieces[1..])
  }

  /** Later pairs win; pieces without '=' say nothing. */
  function Pairs(q: map<string, string>, pieces: seq<Piece>): map<string, string>
    decreases |pieces|
  {
    if pieces == [] then q
    else Pairs(if pieces[0].Pair? then q[pieces[0].key := pieces[0].value] else q, pieces[1..])
  }

  lemma PieceRead(q: map<string, string>, p: Piece)
    requires IsPiece(p)
    ensures AddPair(q, PieceText(p)) == if p.Pair? then q[p.key := p.value] else q
  {
    match p {
      case Pair(k, v) => FindAfter(k, '=', v); Cut(k, '=', v);
      case Keyless(t) => FindNone(t, '=');
    }
  }

  lemma {:induction false} PiecesRead(q: map<string, string>, pieces: seq<Piece>)
    requires pieces != [] && forall i :: 0 <= i < |pieces| ==> IsPiece(pieces[i])
    ensures ParseQuery(q, Joined(pieces)) == Pairs(q, pieces)
    decreases |pieces|
  {
    var text := PieceText(pieces[0]);
    var q' := AddPair(q, text);
    PieceRead(q, pieces[0]);
    if |pieces| == 1 {
      FindNone(text, '&');
      assert Pairs(q', pieces[1..]) == q';
    } else {
      FindAfter(text, '&', Joined(pieces[1..]));
      Cut(text, '&', Joined(pieces[1..]));
      PiecesRead(q', pieces[1..]);
    }
  }

  /** A target: a path without '?', and behind one the pieces of the query. */
  function Target(path: string, pieces: seq<Piece>): string {
    if pieces == [] then path else path + "?" + Joined(pieces)
  }

  lemma TargetRead(r: Request, path: string, pieces: seq<Piece>)
    requires '?' !in path && forall i :: 0 <= i < |pieces| ==> IsPiece(pieces[i])
    ensures SetTarget(r, Target(path, pieces)) == r.(path := path, query := Pairs(r.query, pieces))
  {
    if pieces == [] {
      FindNone(path, '?');
    } else {
      FindAfter(path, '?', Joined(pieces));
      Cut(path, '?', Joined(pieces));
      PiecesRead(r.query, pieces);
    }
  }

  lemma NamesBack(name: string, version: string)
    requires name in {"GET", "POST", "PUT", "DELETE", "OPTIONS"} && version in {"HTTP/1.1", "HTTP/1.0"}
    ensures MethodOf(name) != Invalid && Name(MethodOf(name)) == name && ' ' !in name && VersionOf(version) == Some(version)
  {
    VersionReadsBack(version);
  }

  lemma LineCutUp(name: string, target: string, version: string)
    requires ' ' !in name && ' ' !in target && MethodOf(name) != Invalid && VersionOf(version).Some?
    ensures RequestLine(NoRequest, name + " " + (target + " " + version)) ==
            (true, SetTarget(NoRequest.(verb := MethodOf(name)), target).(version := VersionOf(version).value))
  {
    CutAtSpace(name, target + " " + version);
    CutAtSpace(target, version);
  }

  /** What an accepted request line says. */
  lemma LineSays(line: string, name: string, path: string, pieces: seq<Piece>, version: string)
    requires GoodParts(line, name, Target(path, pieces), version)
    requires '?' !in path && forall i :: 0 <= i < |pieces| ==> IsPiece(pieces[i])
    ensures var r := RequestLine(NoRequest, line).1;
            Name(r.verb) == name && r.path == path && r.query == Pairs(map[], pieces) && r.version == version
  {
    NamesBack(name, version);
    LineCutUp(name, Target(path, pieces), version);
    TargetRead(NoRequest.(verb := MethodOf(name)), path, pieces);
  }

  /** From the blank line on only the body and its bookkeeping change. */
  lemma BlankKeeps(p: Parser, after: string, maxBody: nat)
    requires p.state.ExpectHeaders? && p.buf == "\r\n" + after
    ensures var r := Parse(p, maxBody).0.req;
            r.verb == p.req.verb && r.path == p.req.path && r.query == p.req.query && r.version == p.req.version && r.headers == p.req.headers
  {
    BlankRound(p, after, maxBody);
    match EndHeaders(p, maxBody) {
      case More(next) => BodyRound(next.req, next.req.contentLength, next.buf, maxBody);
      case Halt(_, _) =>
    }
  }

  /**
   The request read from a block whose line is accepted and whose header lines all have a colon:
   method, path, query pairs, version, and under every name the last value given for it, trimmed.
   */
  lemma BlockSays(line: string, name: string, path: string, pieces: seq<Piece>, version: string, fields: seq<string>,
                  after: string, maxBody: nat)
    requires IsLine(line) && AreFields(fields) && AllColons(fields) && GoodParts(line, name, Target(path, pieces), version)
    requires '?' !in path && forall i :: 0 <= i < |pieces| ==> IsPiece(pieces[i])
    ensures var r := Parse(Start(Block(line, fields, after)), maxBody).0.req;
            && Name(r.verb) == name && r.path == path && r.query == Pairs(map[], pieces) && r.version == version
            && forall n :: ':' !in n ==> if n in r.headers then Says(fields, n, r.headers[n]) else Silent(fields, n)
  {
    BlockRead(line, fields, after, maxBody);
    LineSays(line, name, path, pieces, version);
    BlankKeeps(AtBlank(line, fields, after), after, maxBody);
    forall n | ':' !in n
      ensures var h := AddLines(map[], fields); if n in h then Says(fields, n, h[n]) else Silent(fields, n)
    {
      FoundIsLast(fields, n);
    }
  }

  // ---------------------------------------------------------------- on the connection

  /** Parsing the text in one go does not end well. */
  ghost predicate Refused(text: string, maxBody: nat) { Parse(Start(text), maxBody).1 != Good }

  lemma {:induction false} RefusedFrom(p: Parser, seen: string, segments: seq<string>, maxBody: nat)
    requires p.state != GotAll && Stands(p, seen, maxBody) && Refused(seen + Flatten(segments), maxBody)
    ensures Serve(p, segments, maxBody).0 == []
    decreases |segments|
  {
    if segments != [] {
      var now, coming := seen + segments[0], Flatten(segments[1..]);
      assert seen + Flatten(segments) == now + coming;
      var end, on := RefusedSegment(p, seen, segments, coming, maxBody);
      if on { RefusedFrom(end, now, segments[1..], maxBody); }
    }
  }

  /** After one more segment the connection either waits for the next, or is over with nothing handed on. */
  lemma RefusedSegment(p: Parser, seen: string, segments: seq<string>, coming: string, maxBody: nat) returns (end: Parser, on: bool)
    requires p.state != GotAll && Stands(p, seen, maxBody) && segments != [] && Refused(seen + segments[0] + coming, maxBody)
    ensures on ==> end.state != GotAll && Stands(end, seen + segments[0], maxBody)
                   && Serve(p, segments, maxBody) == Serve(end, segments[1..], maxBody)
    ensures !on ==> Serve(p, segments, maxBody).0 == []
  {
    var now := seen + segments[0];
    StandsGrow(p, seen, segments[0], maxBody);
    var v: Verdict;
    var both := Parse(Start(now), maxBody);
    end, v := both.0, both.1;
    StillRefused(now, coming, end, v, maxBody);
    on := Hungry(end, v);
    if on { ServeWaits(p, segments, end, maxBody); } else { ServeStops(p, segments, end, v, maxBody); }
  }

  lemma StillRefused(now: string, coming: string, end: Parser, v: Verdict, maxBody: nat)
    requires Parse(Start(now), maxBody) == (end, v) && Refused(now + coming, maxBody)
    ensures Hungry(end, v) || v != Good
  {
    SplitIndependent(Start(now), coming, maxBody);
  }

  lemma ServeStops(p: Parser, segments: seq<string>, end: Parser, v: Verdict, maxBody: nat)
    requires p.state != GotAll && segments != [] && Parse(Grow(p, segments[0]), maxBody) == (end, v) && v != Good
    ensures Serve(p, segments, maxBody) == ([], end)
  {
  }

  /** A block with such a verdict is never handed on, however it and what follows it are cut. */
  lemma RefusedHandsNothingOn(line: string, fields: seq<string>, after: string, segments: seq<string>, maxBody: nat)
    requires IsLine(line) && AreFields(fields) && Flatten(segments) == Block(line, fields, after)
    requires
      || !GoodLine(line) || !AllColons(fields)
      || (BodyLine(line) && forall w :: Stated(fields, w) ==> w == "" || !Readable(w))
    ensures Serve(Start(""), segments, maxBody).0 == []
  {
    BlockVerdictIff(line, fields, after, maxBody);
    assert "" + Flatten(segments) == Flatten(segments);
    if GoodLine(line) && AllColons(fields) && exists w :: Stated(fields, w) && w != "" {
      var w :| Stated(fields, w) && w != "";
      assert !Readable(w);
    }
    RefusedFrom(Start(""), "", segments, maxBody);
  }

  /** Parsed in one go the text gives request `r`, whose body is refused as too large. */
  ghost predicate Outsized(text: string, maxBody: nat, r: Request) {
    var (end, v) := Parse(Start(text), maxBody);
    v == Good && end.state == GotAll && end.req == r && r.bodyTooLarge
  }

  /** The connection has taken in `seen` and waits for more. */
  ghost predicate Awaits(p: Parser, seen: string, maxBody: nat) {
    (p, Good) == Parse(Start(seen), maxBody) && p.state != GotAll
  }

  lemma {:induction false} OutsizedFrom(p: Parser, seen: string, segments: seq<string>, maxBody: nat, r: Request)
    requires Awaits(p, seen, maxBody) && Outsized(seen + Flatten(segments), maxBody, r)
    ensures p.state != GotAll && Serve(p, segments, maxBody).0 == [r]
    decreases |segments|
  {
    assert segments == [] ==> seen + Flatten(segments) == seen;
    if segments != [] {
      var now, coming := seen + segments[0], Flatten(segments[1..]);
      assert seen + Flatten(segments) == now + coming;
      var end, on := OutsizedSegment(p, seen, segments, coming, maxBody, r);
      if on { OutsizedFrom(end, now, segments[1..], maxBody, r); }
    }
  }

  lemma OutsizedSegment(p: Parser, seen: string, segments: seq<string>, coming: string, maxBody: nat, r: Request) returns (end: Parser, on: bool)
    requires Awaits(p, seen, maxBody) && segments != [] && Outsized(seen + segments[0] + coming, maxBody, r)
    ensures on ==> Awaits(end, seen + segments[0], maxBody) && Serve(p, segments, maxBody) == Serve(end, segments[1..], maxBody)
    ensures !on ==> Serve(p, segments, maxBody).0 == [r]
  {
    var now := seen + segments[0];
    StandsGrow(p, seen, segments[0], maxBody);
    var both := Parse(Start(now), maxBody);
    end := both.0;
    on := Hungry(end, both.1);
    StillOutsized(now, coming, end, both.1, maxBody, r);
    if on { ServeWaits(p, segments, end, maxBody); } else { ServeEnds(p, segments, end, maxBody); }
  }

  lemma StillOutsized(now: string, coming: string, end: Parser, v: Verdict, maxBody: nat, r: Request)
    requires Parse(Start(now), maxBody) == (end, v) && Outsized(now + coming, maxBody, r)
    ensures Hungry(end, v) || (v == Good && end.state == GotAll && end.req == r && r.bodyTooLarge)
  {
    SplitIndependent(Start(now), coming, maxBody);
  }

  lemma ServeEnds(p: Parser, segments: seq<string>, end: Parser, maxBody: nat)
    requires p.state != GotAll && segments != [] && Parse(Grow(p, segments[0]), maxBody) == (end, Good)
    requires end.state == GotAll && end.req.bodyTooLarge
    ensures Serve(p, segments, maxBody) == ([end.req], end)
  {
  }

  lemma NothingSeen(maxBody: nat)
    ensures Awaits(Start(""), "", maxBody)
  {
  }

  /**
   A body above the limit: however the bytes are cut, the request is handed on once, marked as too
   large and without a body, and the connection serves nothing after it.
   */
  lemma TooLargeIsLast(line: string, fields: seq<string>, after: string, segments: seq<string>, maxBody: nat,
                       w: string, sign: string, ds: string, rest: string)
    requires IsLine(line) && AreFields(fields) && GoodLine(line) && AllColons(fields) && BodyLine(line)
    requires Stated(fields, w) && Reads(w, sign, ds, rest) && Numeral(ds) < 0x1_0000_0000_0000_0000
    requires (if sign == "-" && Numeral(ds) > 0 then 0x1_0000_0000_0000_0000 - Numeral(ds) else Numeral(ds)) > maxBody
    requires Flatten(segments) == Block(line, fields, after)
    ensures var answered := Serve(Start(""), segments, maxBody).0;
            |answered| == 1 && answered[0].bodyTooLarge && answered[0].body == ""
  {
    BlockBody(line, fields, after, maxBody, w, sign, ds, rest);
    var r := Parse(Start(Block(line, fields, after)), maxBody).0.req;
    assert "" + Flatten(segments) == Block(line, fields, after);
    NothingSeen(maxBody);
    OutsizedFrom(Start(""), "", segments, maxBody, r);
  }
}
