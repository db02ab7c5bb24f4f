/**
 What version comparison means for the texts: the numbers between anything that is not a digit are
 read in base ten, compared from the front, and those missing at the end count as 0.
 */
module VersionOrder {
  import opened Arithmetic
  import opened Common
  import opened ModelFactories

  predicate AllDigits(s: string) { forall i :: 0 <= i < |s| ==> '0' <= s[i] <= '9' }

  // ---------------------------------------------------------------- base ten

  function TenTo(k: nat): (p: nat)
    ensures p > 0
  {
    if k == 0 then 1 else 10 * TenTo(k - 1)
  }

  /** Each digit of a run stands at its power of ten in the number read from it. */
  lemma {:induction false} NumberInBaseTen(num: string, i: nat)
    requires AllDigits(num) && i < |num|
    ensures Number(num) < TenTo(|num|)
    ensures Number(num) / TenTo(|num| - 1 - i) % 10 == num[i] as int - '0' as int
    decreases |num|
  {
    NumberBound(num);
    var last := |num| - 1;
    var front, d := num[..last], num[last] as int - '0' as int;
    assert Number(num) == Number(front) * 10 + d;
    Quotient(Number(num), 10, Number(front), d);
    if i < last {
      NumberInBaseTen(front, i);
      assert front[i] == num[i] && |front| - 1 - i == last - 1 - i;
      QuotientOfTen(Number(num), TenTo(last - 1 - i));
    } else {
      Quotient(Number(num), 1, Number(num), 0);
    }
  }

  lemma {:induction false} NumberBound(num: string)
    requires AllDigits(num)
    ensures Number(num) < TenTo(|num|)
    decreases |num|
  {
    if num != "" { NumberBound(num[..|num| - 1]); }
  }

  lemma QuotientOfTen(n: nat, p: nat)
    requires p > 0
    ensures n / (10 * p) == n / 10 / p
  {
    var q := n / 10 / p;
    var r := n / 10 % p;
    assert n / 10 == q * p + r;
    TenTimes(n, q, p, r);
    Quotient(n, 10 * p, q, 10 * r + n % 10);
  }

  lemma TenTimes(n: nat, q: nat, p: nat, r: nat)
    requires n / 10 == q * p + r
    ensures n == q * (10 * p) + (10 * r + n % 10)
  {
    assert n == 10 * (n / 10) + n % 10;
    assert q * (10 * p) == 10 * (q * p);
  }

  // ---------------------------------------------------------------- the numbers of a text

  /** A run of digits is one number. */
  lemma RunIsNumber(num: string)
    requires AllDigits(num)
    ensures Components(num) == if num == "" then [] else [Number(num)]
  {
    RunEnds(num, "");
    assert num + "" == num;
  }

  /** What is not a digit separates: the numbers are those in front of it and those behind. */
  lemma {:induction false} Separated(front: string, c: char, back: string)
    requires !('0' <= c <= '9')
    ensures Components(front + [c] + back) == Components(front) + Components(back)
    decreases |front|
  {
    var n := DigitsInFront(front);
    var num, rest := front[..n], front[n..];
    Recut(front, n, c, back);
    if rest == "" {
      EndsHere(front, [c] + back, front + [c] + back);
    } else {
      Separated(rest[1..], c, back);
      GoesOn(num, rest, c, back);
    }
  }

  lemma EndsHere(num: string, tail: string, s: string)
    requires AllDigits(num) && tail != "" && !('0' <= tail[0] <= '9') && s == num + tail
    ensures Components(s) == Components(num) + Components(tail[1..])
  {
    RunThen(num, "", num);
    RunThen(num, tail, s);
    Together(if num == "" then [] else [Number(num)], [], Components(tail[1..]));
  }

  lemma GoesOn(num: string, rest: string, c: char, back: string)
    requires AllDigits(num) && rest != "" && !('0' <= rest[0] <= '9')
    requires Components(rest[1..] + [c] + back) == Components(rest[1..]) + Components(back)
    ensures Components(num + (rest + [c] + back)) == Components(num + rest) + Components(back)
  {
    TailCut(rest, c, back);
    RunThen(num, rest, num + rest);
    RunThen(num, rest + [c] + back, num + (rest + [c] + back));
    Together(if num == "" then [] else [Number(num)], Components(rest[1..]), Components(back));
  }

  lemma RunThen(num: string, rest: string, s: string)
    requires AllDigits(num) && (rest != "" ==> !('0' <= rest[0] <= '9')) && s == num + rest
    ensures Components(s) == (if num == "" then [] else [Number(num)]) + (if rest == "" then [] else Components(rest[1..]))
  {
    RunEnds(num, rest);
  }

  lemma Recut(front: string, n: nat, c: char, back: string)
    requires n <= |front|
    ensures front == front[..n] + front[n..] && front + [c] + back == front[..n] + (front[n..] + [c] + back)
    ensures front + [c] + back == front + ([c] + back) && ([c] + back)[1..] == back
  {
  }

  lemma TailCut(rest: string, c: char, back: string)
    ensures (rest + [c] + back)[1..] == if rest == "" then back else rest[1..] + [c] + back
    ensures (rest + [c] + back)[0] == if rest == "" then c else rest[0]
  {
  }

  lemma Together(a: seq<nat>, b: seq<nat>, c: seq<nat>)
    ensures a + (b + c) == a + b + c
  {
  }

  // ---------------------------------------------------------------- the order

  /** The first number that differs decides, the smaller one being the earlier version. */
  lemma FirstDifferenceDecides(a: string, b: string, d: nat)
    requires forall j: nat | j < d :: NumberAt(a, j) == NumberAt(b, j)
    requires NumberAt(a, d) < NumberAt(b, d)
    ensures Compare(a, b) == -1 && Compare(b, a) == 1
  {
    var va, vb := Components(a), Components(b);
    var e := Difference(va, vb, 0, Max(|va|, |vb|));
    assert d < Max(|va|, |vb|);
    forall j: nat | j < d ensures Part(va, j) == Part(vb, j) { assert NumberAt(a, j) == NumberAt(b, j); }
    assert Part(va, d) != Part(vb, d);
    assert e == d;
    CompareAntisymmetric(a, b);
  }

  /** Number `j` of a version; one that is missing is 0. */
  function NumberAt(s: string, j: nat): nat { if j < |Components(s)| then Components(s)[j] else 0 }

  /** Two versions that differ in the last number only are ordered by that number, however it is written. */
  lemma LastNumberDecides(front: string, c: char, x: string, y: string)
    requires !('0' <= c <= '9') && x != "" && y != "" && AllDigits(x) && AllDigits(y)
    ensures Compare(front + [c] + x, front + [c] + y)
            == if Number(x) < Number(y) then -1 else if Number(x) > Number(y) then 1 else 0
  {
    var a, b, d := front + [c] + x, front + [c] + y, |Components(front)|;
    Separated(front, c, x);
    Separated(front, c, y);
    RunIsNumber(x);
    RunIsNumber(y);
    assert NumberAt(a, d) == Number(x) && NumberAt(b, d) == Number(y);
    assert forall j: nat | j < d :: NumberAt(a, j) == NumberAt(b, j);
    if Number(x) < Number(y) {
      FirstDifferenceDecides(a, b, d);
    } else if Number(x) > Number(y) {
      FirstDifferenceDecides(b, a, d);
    } else {
      CompareEqual(a, b);
    }
  }

  /** A number 0 at the end makes no difference. */
  lemma TrailingZero(front: string, c: char, x: string)
    requires !('0' <= c <= '9') && x != "" && AllDigits(x) && Number(x) == 0
    ensures Compare(front + [c] + x, front) == 0
  {
    Separated(front, c, x);
    RunIsNumber(x);
    CompareEqual(front + [c] + x, front);
  }

  /** 1.10 comes after 1.9. */
  lemma TenAfterNine()
    ensures Compare("1.10", "1.9") == 1
  {
    assert "1" + ['.'] + "10" == "1.10" && "1" + ['.'] + "9" == "1.9";
    assert "10"[..1] == "1" && "1"[..0] == "" && "9"[..0] == "";
    assert Number("") == 0 && Number("1") == 1 && Number("10") == 10 && Number("9") == 9;
    LastNumberDecides("1", '.', "10", "9");
  }
}
