/**
 A connection: every arriving segment is appended to the buffer and parsed with ONE call; a complete
 request is handed on and the context is reset. Requests that arrive back to back are therefore
 answered one per arriving segment, which the lemmas below make exact.
 */
module HttpConnection {
  import opened HttpParser
  import opened HttpRoundTrip

  function Start(buf: string): Parser { Parser(ExpectRequestLine, NoRequest, buf) }

  /** The requests handed on, and the parser afterwards. A failed parse or too large a body ends the connection. */
  function Serve(p: Parser, segments: seq<string>, maxBody: nat): (seq<Request>, Parser)
    requires p.state != GotAll
    decreases |segments|
  {
    if segments == [] then ([], p)
    else
      var (end, v) := Parse(Grow(p, segments[0]), maxBody);
      if v != Good then ([], end)
      else if end.state != GotAll then Serve(end, segments[1..], maxBody)
      else if end.req.bodyTooLarge then ([end.req], end)
      else
        var (later, last) := Serve(Start(end.buf), segments[1..], maxBody);
        ([end.req] + later, last)
  }

  function PrintAll(ms: seq<Message>): string {
    if ms == [] then "" else Print(ms[0], PrintAll(ms[1..]))
  }

  function Size(m: Message): nat { |Print(m, "")| }

  /** Counting bytes only: after each segment the oldest unanswered request is answered if it is complete. */
  function Answers(ms: seq<Message>, pending: nat, segments: seq<string>): (r: seq<Request>)
    ensures |r| <= |segments| && |r| <= |ms|
    decreases |segments|
  {
    if segments == [] then []
    else
      var have := pending + |segments[0]|;
      if ms != [] && have >= Size(ms[0]) then [Meaning(ms[0])] + Answers(ms[1..], have - Size(ms[0]), segments[1..])
      else Answers(ms, have, segments[1..])
  }

  /** The requests answered are the first ones sent. */
  lemma {:induction false} AnswersInOrder(ms: seq<Message>, pending: nat, segments: seq<string>, i: nat)
    requires i < |Answers(ms, pending, segments)|
    ensures Answers(ms, pending, segments)[i] == Meaning(ms[i])
    decreases |segments|
  {
    var have := pending + |segments[0]|;
    if ms != [] && have >= Size(ms[0]) {
      if i > 0 { AnswersInOrder(ms[1..], have - Size(ms[0]), segments[1..], i - 1); }
    } else {
      AnswersInOrder(ms, have, segments[1..], i);
    }
  }

  predicate Acceptable(ms: seq<Message>, maxBody: nat) {
    maxBody <= ULongMax && forall i :: 0 <= i < |ms| ==> WellFormed(ms[i]) && |ms[i].body| <= maxBody
  }

  lemma {:induction false} FieldsAppend(hs: seq<(string, string)>, a: string, b: string)
    ensures FieldsText(hs, a + b) == FieldsText(hs, a) + b
    decreases |hs|
  {
    if hs != [] {
      FieldsAppend(hs[1..], a, b);
      var line := FieldText(hs[0]) + "\r\n";
      assert line + (FieldsText(hs[1..], a) + b) == line + FieldsText(hs[1..], a) + b;
    }
  }

  lemma PrintAppend(m: Message, after: string)
    ensures Print(m, after) == Print(m, "") + after
  {
    var line := LineText(m) + "\r\n";
    assert "\r\n" + (m.body + after) == "\r\n" + (m.body + "") + after;
    FieldsAppend(AllFields(m), "\r\n" + (m.body + ""), after);
    var block := FieldsText(AllFields(m), "\r\n" + (m.body + ""));
    assert line + (block + after) == line + block + after;
  }

  lemma PrefixSplit(seen: string, head: string, tail: string)
    requires seen <= head + tail && |seen| >= |head|
    ensures seen == head + seen[|head|..] && seen[|head|..] <= tail
  {
    var s := head + tail;
    assert seen == s[..|seen|];
    assert seen[|head|..] == s[|head|..|seen|];
    assert s[|head|..] == tail;
  }

  /** A complete message in front is read exactly. */
  lemma CompleteIsRead(ms: seq<Message>, seen: string, maxBody: nat)
    requires Acceptable(ms, maxBody) && ms != [] && seen <= PrintAll(ms) && |seen| >= Size(ms[0])
    ensures var rest := seen[Size(ms[0])..];
            rest <= PrintAll(ms[1..]) && Parse(Start(seen), maxBody) == (Parser(GotAll, Meaning(ms[0]), rest), Good)
  {
    PrintAppend(ms[0], PrintAll(ms[1..]));
    PrefixSplit(seen, Print(ms[0], ""), PrintAll(ms[1..]));
    PrintAppend(ms[0], seen[Size(ms[0])..]);
    PrintParse(ms[0], seen[Size(ms[0])..], maxBody);
  }

  lemma RestOfMessage(m: Message, tail: string, seen: string) returns (more: string)
    requires seen <= Print(m, "") + tail && |seen| < Size(m)
    ensures more != "" && seen + more == Print(m, "")
  {
    var whole := Print(m, "");
    assert seen == (whole + tail)[..|seen|] == whole[..|seen|];
    more := whole[|seen|..];
  }

  /** Were there a verdict on the first part of a message, bytes would be left over at its end. */
  lemma PrefixWaits(p: Parser, more: string, end: Parser, maxBody: nat)
    requires p.state != GotAll && more != ""
    requires Parse(Grow(p, more), maxBody) == (end, Good) && end.state == GotAll && end.buf == ""
    ensures Hungry(Parse(p, maxBody).0, Parse(p, maxBody).1)
  {
    SplitIndependent(p, more, maxBody);
    var first := Parse(p, maxBody).0;
    assert |first.buf + more| > 0;
  }

  /** A proper prefix of a message leaves the parser waiting. */
  lemma IncompleteWaits(ms: seq<Message>, seen: string, maxBody: nat)
    requires Acceptable(ms, maxBody) && seen <= PrintAll(ms) && (ms == [] || |seen| < Size(ms[0]))
    ensures Hungry(Parse(Start(seen), maxBody).0, Parse(Start(seen), maxBody).1)
  {
    if ms != [] {
      PrintAppend(ms[0], PrintAll(ms[1..]));
      var more := RestOfMessage(ms[0], PrintAll(ms[1..]), seen);
      PrintParse(ms[0], "", maxBody);
      PrefixWaits(Start(seen), more, Parser(GotAll, Meaning(ms[0]), ""), maxBody);
    }
  }

  /** `p` is where a connection stands that has taken in `seen` since the last request was handed on. */
  predicate Stands(p: Parser, seen: string, maxBody: nat) {
    || p == Start(seen)
    || (Hungry(Parse(Start(seen), maxBody).0, Parse(Start(seen), maxBody).1) && p == Parse(Start(seen), maxBody).0)
  }

  lemma StandsGrow(p: Parser, seen: string, more: string, maxBody: nat)
    requires Stands(p, seen, maxBody)
    ensures p.state != GotAll && Parse(Grow(p, more), maxBody) == Parse(Start(seen + more), maxBody)
  {
    SplitIndependent(Start(seen), more, maxBody);
  }

  lemma PrefixSteps(a: string, b: string, c: string, whole: string)
    requires a + (b + c) <= whole
    ensures a + b <= whole && a + b + c <= whole
  {
    assert a + (b + c) == a + b + c;
    assert a + b == (a + b + c)[..|a + b|];
  }

  lemma ServeComplete(p: Parser, segments: seq<string>, end: Parser, maxBody: nat)
    requires p.state != GotAll && segments != [] && Parse(Grow(p, segments[0]), maxBody) == (end, Good)
    requires end.state == GotAll && !end.req.bodyTooLarge
    ensures var (later, last) := Serve(Start(end.buf), segments[1..], maxBody);
            Serve(p, segments, maxBody) == ([end.req] + later, last)
  {
  }

  lemma ServeWaits(p: Parser, segments: seq<string>, end: Parser, maxBody: nat)
    requires p.state != GotAll && segments != [] && Parse(Grow(p, segments[0]), maxBody) == (end, Good)
    requires end.state != GotAll
    ensures Serve(p, segments, maxBody) == Serve(end, segments[1..], maxBody)
  {
  }

  lemma RestOfStream(ms: seq<Message>, now: string, coming: string)
    requires ms != [] && now + coming <= PrintAll(ms) && |now| >= Size(ms[0])
    ensures now[Size(ms[0])..] + coming <= PrintAll(ms[1..])
  {
    PrintAppend(ms[0], PrintAll(ms[1..]));
    PrefixSplit(now + coming, Print(ms[0], ""), PrintAll(ms[1..]));
    assert (now + coming)[Size(ms[0])..] == now[Size(ms[0])..] + coming;
  }

  lemma AnsweringSegment(ms: seq<Message>, p: Parser, seen: string, segments: seq<string>, maxBody: nat)
    requires Acceptable(ms, maxBody) && p.state != GotAll && Stands(p, seen, maxBody)
    requires ms != [] && segments != [] && seen + segments[0] <= PrintAll(ms) && |seen + segments[0]| >= Size(ms[0])
    ensures Serve(p, segments, maxBody).0 ==
            [Meaning(ms[0])] + Serve(Start((seen + segments[0])[Size(ms[0])..]), segments[1..], maxBody).0
  {
    var now := seen + segments[0];
    StandsGrow(p, seen, segments[0], maxBody);
    CompleteIsRead(ms, now, maxBody);
    ServeComplete(p, segments, Parser(GotAll, Meaning(ms[0]), now[Size(ms[0])..]), maxBody);
  }

  lemma WaitingSegment(ms: seq<Message>, p: Parser, seen: string, segments: seq<string>, maxBody: nat) returns (end: Parser)
    requires Acceptable(ms, maxBody) && p.state != GotAll && Stands(p, seen, maxBody)
    requires segments != [] && seen + segments[0] <= PrintAll(ms) && (ms == [] || |seen + segments[0]| < Size(ms[0]))
    ensures end.state != GotAll && Stands(end, seen + segments[0], maxBody)
    ensures Serve(p, segments, maxBody) == Serve(end, segments[1..], maxBody)
  {
    StandsGrow(p, seen, segments[0], maxBody);
    IncompleteWaits(ms, seen + segments[0], maxBody);
    end := Parse(Start(seen + segments[0]), maxBody).0;
    ServeWaits(p, segments, end, maxBody);
  }

  lemma NextStream(ms: seq<Message>, seen: string, segments: seq<string>, maxBody: nat) returns (left: string)
    requires Acceptable(ms, maxBody) && seen + Flatten(segments) <= PrintAll(ms)
    requires ms != [] && segments != [] && |seen + segments[0]| >= Size(ms[0])
    ensures seen + segments[0] <= PrintAll(ms) && left == (seen + segments[0])[Size(ms[0])..]
    ensures Acceptable(ms[1..], maxBody) && left + Flatten(segments[1..]) <= PrintAll(ms[1..])
  {
    PrefixSteps(seen, segments[0], Flatten(segments[1..]), PrintAll(ms));
    RestOfStream(ms, seen + segments[0], Flatten(segments[1..]));
    left := (seen + segments[0])[Size(ms[0])..];
  }

  lemma SameStream(ms: seq<Message>, seen: string, segments: seq<string>)
    requires segments != [] && seen + Flatten(segments) <= PrintAll(ms)
    ensures seen + segments[0] <= PrintAll(ms) && seen + segments[0] + Flatten(segments[1..]) <= PrintAll(ms)
  {
    PrefixSteps(seen, segments[0], Flatten(segments[1..]), PrintAll(ms));
  }

  lemma AnswersNext(ms: seq<Message>, pending: nat, segments: seq<string>)
    requires ms != [] && segments != [] && pending + |segments[0]| >= Size(ms[0])
    ensures Answers(ms, pending, segments) ==
            [Meaning(ms[0])] + Answers(ms[1..], pending + |segments[0]| - Size(ms[0]), segments[1..])
  {
  }

  lemma AnswersLater(ms: seq<Message>, pending: nat, segments: seq<string>)
    requires segments != [] && (ms == [] || pending + |segments[0]| < Size(ms[0]))
    ensures Answers(ms, pending, segments) == Answers(ms, pending + |segments[0]|, segments[1..])
  {
  }

  lemma {:induction false} ServeAnswering(ms: seq<Message>, p: Parser, seen: string, segments: seq<string>, maxBody: nat)
    requires Acceptable(ms, maxBody) && p.state != GotAll && Stands(p, seen, maxBody)
    requires seen + Flatten(segments) <= PrintAll(ms)
    requires ms != [] && segments != [] && |seen + segments[0]| >= Size(ms[0])
    ensures Serve(p, segments, maxBody).0 == Answers(ms, |seen|, segments)
    decreases |segments|, 0
  {
    var left := NextStream(ms, seen, segments, maxBody);
    AnsweringSegment(ms, p, seen, segments, maxBody);
    AnswersNext(ms, |seen|, segments);
    ServeFrom(ms[1..], Start(left), left, segments[1..], maxBody);
  }

  lemma {:induction false} ServeWaiting(ms: seq<Message>, p: Parser, seen: string, segments: seq<string>, maxBody: nat)
    requires Acceptable(ms, maxBody) && p.state != GotAll && Stands(p, seen, maxBody)
    requires seen + Flatten(segments) <= PrintAll(ms)
    requires segments != [] && (ms == [] || |seen + segments[0]| < Size(ms[0]))
    ensures Serve(p, segments, maxBody).0 == Answers(ms, |seen|, segments)
    decreases |segments|, 0
  {
    SameStream(ms, seen, segments);
    var end := WaitingSegment(ms, p, seen, segments, maxBody);
    AnswersLater(ms, |seen|, segments);
    ServeFrom(ms, end, seen + segments[0], segments[1..], maxBody);
  }

  lemma {:induction false} ServeFrom(ms: seq<Message>, p: Parser, seen: string, segments: seq<string>, maxBody: nat)
    requires Acceptable(ms, maxBody) && p.state != GotAll && Stands(p, seen, maxBody)
    requires seen + Flatten(segments) <= PrintAll(ms)
    ensures Serve(p, segments, maxBody).0 == Answers(ms, |seen|, segments)
    decreases |segments|, 1
  {
    if segments != [] {
      if ms != [] && |seen + segments[0]| >= Size(ms[0]) {
        ServeAnswering(ms, p, seen, segments, maxBody);
      } else {
        ServeWaiting(ms, p, seen, segments, maxBody);
      }
    }
  }

  /**
   Whatever well-formed requests are sent, and however their bytes (or a first part of them) are cut
   into segments: the requests handed on are exactly the first ones sent, in order and unaltered, and
   their number is the one obtained by counting bytes, at most one per segment.
   */
  lemma OneRequestPerSegment(ms: seq<Message>, segments: seq<string>, maxBody: nat)
    requires Acceptable(ms, maxBody) && Flatten(segments) <= PrintAll(ms)
    ensures Serve(Start(""), segments, maxBody).0 == Answers(ms, 0, segments)
  {
    assert "" + Flatten(segments) == Flatten(segments);
    ServeFrom(ms, Start(""), "", segments, maxBody);
  }

  /** Two requests in one segment: the second stays unread in the buffer until more bytes arrive. */
  lemma PipelinedRequestWaits(m1: Message, m2: Message, maxBody: nat)
    requires Acceptable([m1, m2], maxBody)
    ensures Serve(Start(""), [Print(m1, Print(m2, ""))], maxBody) == ([Meaning(m1)], Start(Print(m2, "")))
  {
    var second := Print(m2, "");
    var text := Print(m1, second);
    assert [m1, m2][0] == m1 && "" + text == text;
    PrintParse(m1, second, maxBody);
    ServeLast(Start(""), text, Parser(GotAll, Meaning(m1), second), maxBody);
  }

  lemma ServeLast(p: Parser, segment: string, end: Parser, maxBody: nat)
    requires p.state != GotAll && Parse(Grow(p, segment), maxBody) == (end, Good)
    requires end.state == GotAll && !end.req.bodyTooLarge
    ensures Serve(p, [segment], maxBody) == ([end.req], Start(end.buf))
  {
    ServeComplete(p, [segment], end, maxBody);
    assert [segment][1..] == [];
    assert [end.req] + [] == [end.req];
  }

  /** A request is never left waiting when each one arrives in a segment of its own. */
  lemma {:induction false} SeparateRequestsAllAnswered(ms: seq<Message>, segments: seq<string>)
    requires |segments| == |ms| && forall i :: 0 <= i < |ms| ==> segments[i] == Print(ms[i], "")
    ensures |Answers(ms, 0, segments)| == |ms|
    decreases |segments|
  {
    if ms != [] {
      SeparateRequestsAllAnswered(ms[1..], segments[1..]);
    }
  }
}
