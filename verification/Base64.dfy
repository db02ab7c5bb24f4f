/**
 Base64 (section 4 of RFC 4648): the encoder that closes a segmentation mask and the decoder that opens
 request images. The decoder is modelled bit for bit: a signed 32-bit accumulator that wraps around.
 */
module Base64 {
  import opened Arithmetic
  import opened Common

  type Byte = x: int | 0 <= x < 256

  type Sextet = x: int | 0 <= x < 64

  const UPPER := "ABCDEFGHIJKLMNOPQRSTUVWXYZ"
  const LOWER := "abcdefghijklmnopqrstuvwxyz"
  const DIGITS := "0123456789"
  const ALPHABET := UPPER + LOWER + DIGITS + "+/"

  /** Characters are bytes. */
  predicate IsText(s: string) { forall i :: 0 <= i < |s| ==> s[i] as int < 256 }

  predicate IsBlank(c: char) { c == '\r' || c == '\n' || c == '\t' || c == ' ' }

  function ValueOf(c: char): Option<Sextet> {
    if 'A' <= c <= 'Z' then Some(c as int - 'A' as int)
    else if 'a' <= c <= 'z' then Some(c as int - 'a' as int + 26)
    else if '0' <= c <= '9' then Some(c as int - '0' as int + 52)
    else if c == '+' then Some(62)
    else if c == '/' then Some(63)
    else None
  }

  function Letter(v: Sextet): char {
    if v < 26 then ('A' as int + v) as char
    else if v < 52 then ('a' as int + (v - 26)) as char
    else if v < 62 then ('0' as int + (v - 52)) as char
    else if v == 62 then '+' else '/'
  }

  lemma UpperLetter(i: nat)
    requires i < 26
    ensures |UPPER| == 26 && UPPER[i] == Letter(i)
  {
  }

  lemma LowerLetter(i: nat)
    requires i < 26
    ensures |LOWER| == 26 && LOWER[i] == Letter(26 + i)
  {
  }

  lemma DigitLetter(i: nat)
    requires i < 10
    ensures |DIGITS| == 10 && DIGITS[i] == Letter(52 + i)
  {
  }

  /** The alphabet lists the letters by value. */
  lemma AlphabetLetter(i: nat)
    requires i < 64
    ensures |ALPHABET| == 64 && ALPHABET[i] == Letter(i)
  {
    UpperLetter(0);
    LowerLetter(0);
    DigitLetter(0);
    if i < 26 { UpperLetter(i); } else if i < 52 { LowerLetter(i - 26); } else if i < 62 { DigitLetter(i - 52); }
  }

  /** A letter stands for its value, no other character stands for it, and it is neither blank nor '='. */
  lemma LetterValue(v: Sextet, c: char)
    ensures ValueOf(c) == Some(v) <==> c == Letter(v)
    ensures Letter(v) != '=' && !IsBlank(Letter(v)) && Letter(v) as int < 128
  {
  }

  // ---------------------------------------------------------------- group-wise meaning

  /** The three bytes of four values. */
  function Byte0(a: Sextet, b: Sextet): Byte { a as int * 4 + b as int / 16 }
  function Byte1(b: Sextet, c: Sextet): Byte { b as int % 16 * 16 + c as int / 4 }
  function Byte2(c: Sextet, d: Sextet): Byte { c as int % 4 * 64 + d as int }

  /** Four characters carry three bytes; an incomplete last group carries what is whole in it. */
  function Groups(d: seq<Sextet>): seq<Byte> {
    if |d| < 2 then []
    else if |d| == 2 then [Byte0(d[0], d[1])]
    else if |d| == 3 then [Byte0(d[0], d[1]), Byte1(d[1], d[2])]
    else [Byte0(d[0], d[1]), Byte1(d[1], d[2]), Byte2(d[2], d[3])] + Groups(d[4..])
  }

  /** The values of the letters up to the first '=', blanks skipped; None when something else occurs. */
  function Sextets(s: string): Option<seq<Sextet>> {
    if s == "" || s[0] == '=' then Some([])
    else if IsBlank(s[0]) then Sextets(s[1..])
    else match ValueOf(s[0])
      case None => None
      case Some(v) =>
        match Sextets(s[1..])
        case None => None
        case Some(rest) => Some([v] + rest)
  }

  /** After an optional "data:...," the text; None when the comma is missing. */
  function Payload(s: string): Option<string> {
    if |s| >= 5 && s[..5] == "data:" then
      var comma := Find(s, ',');
      if comma == |s| then None else Some(s[comma + 1..])
    else Some(s)
  }

  function Decode(s: string): seq<Byte> {
    match Payload(s)
    case None => []
    case Some(text) =>
      match Sextets(text)
      case None => []
      case Some(d) => Groups(d)
  }

  // ---------------------------------------------------------------- the accumulator

  function Wrap(x: int): int { (x + 0x8000_0000) % 0x1_0000_0000 - 0x8000_0000 }

  /** (val << 6) | d, on 32 bits or on unbounded integers. */
  function Shift(val: int, d: Sextet, wrap: bool): int {
    (if wrap then Wrap(val * 64) else val * 64) + d
  }

  function Power(b: nat): (p: nat)
    ensures p > 0
  {
    if b == 0 then 1 else 2 * Power(b - 1)
  }

  /** (val >> b) & 0xFF */
  function ByteAt(val: int, b: nat): Byte { val / Power(b) % 256 }

  function Machine(d: seq<Sextet>, val: int, valb: int, wrap: bool): seq<Byte> {
    if d == [] then []
    else
      var v, b := Shift(val, d[0], wrap), valb + 6;
      if b >= 0 then [ByteAt(v, b)] + Machine(d[1..], v, b - 8, wrap) else Machine(d[1..], v, b, wrap)
  }

  lemma SameLowBits(x: int, k: int)
    ensures (x + 4096 * k) % 4096 == x % 4096
  {
  }

  lemma WrapKeepsLowBits(x: int)
    ensures Wrap(x) % 4096 == x % 4096
  {
    var k := (x + 0x8000_0000) / 0x1_0000_0000;
    assert Wrap(x) == x + 4096 * (-0x10_0000 * k);
    SameLowBits(x, -0x10_0000 * k);
  }

  /** Only the last two values put in matter for the low twelve bits, wrapped or not. */
  lemma LowBits(val: int, d: Sextet, wrap: bool)
    ensures Shift(val, d, wrap) % 4096 == val % 64 * 64 + d
  {
    WrapKeepsLowBits(val * 64);
    SameLowBits(val % 64 * 64, val / 64);
    assert val * 64 == val % 64 * 64 + 4096 * (val / 64);
    var y := if wrap then Wrap(val * 64) else val * 64;
    SameLowBits(val % 64 * 64 + d, y / 4096);
    assert y == val % 64 * 64 + 4096 * (y / 4096);
  }

  lemma BytesFromLowBits(v: int)
    ensures ByteAt(v, 4) == v % 4096 / 16
    ensures ByteAt(v, 2) == v % 4096 / 4 % 256
    ensures ByteAt(v, 0) == v % 4096 % 256
    ensures v % 64 == v % 4096 % 64
  {
    assert Power(4) == 16 && Power(2) == 4 && Power(0) == 1;
    LowTwelve(v, v / 4096, v % 4096);
  }

  lemma LowTwelve(v: int, q: int, r: int)
    requires v == q * 4096 + r && 0 <= r < 4096
    ensures v / 16 % 256 == r / 16 && v / 4 % 256 == r / 4 % 256 && v % 256 == r % 256 && v % 64 == r % 64
  {
    Quotient(v, 16, 256 * q + r / 16, r % 16);
    Quotient(256 * q + r / 16, 256, q, r / 16);
    Quotient(v, 4, 1024 * q + r / 4, r % 4);
    Quotient(1024 * q + r / 4, 256, 4 * q + r / 4 / 256, r / 4 % 256);
    Quotient(v, 256, 16 * q + r / 256, r % 256);
    Quotient(v, 64, 64 * q + r / 64, r % 64);
  }

  lemma Emitted(a: Sextet, b: Sextet)
    ensures (a as int * 64 + b as int) / 16 == Byte0(a, b)
    ensures (a as int * 64 + b as int) / 4 % 256 == Byte1(a, b)
    ensures (a as int * 64 + b as int) % 256 == Byte2(a, b)
    ensures (a as int * 64 + b as int) % 64 == b
  {
    Parts(a as int, b as int);
  }

  lemma Parts(a: int, b: int)
    requires 0 <= a < 64 && 0 <= b < 64
    ensures (a * 64 + b) / 16 == a * 4 + b / 16
    ensures (a * 64 + b) / 4 % 256 == a % 16 * 16 + b / 4
    ensures (a * 64 + b) % 256 == a % 4 * 64 + b
    ensures (a * 64 + b) % 64 == b
  {
    Quotient(a * 64 + b, 64, a, b);
    Quotient(a * 64 + b, 16, a * 4 + b / 16, b % 16);
    Quotient(a * 64 + b, 4, a * 16 + b / 4, b % 4);
    Quotient(a * 16 + b / 4, 256, a / 16, a % 16 * 16 + b / 4);
    Quotient(a * 64 + b, 256, a / 4, a % 4 * 64 + b);
  }

  /** The accumulator after a character, and the byte it gives, by what the previous character was. */
  lemma OneByte(val: int, a: Sextet, b: Sextet, wrap: bool)
    requires val % 64 == a
    ensures var v := Shift(val, b, wrap);
            ByteAt(v, 4) == Byte0(a, b) && ByteAt(v, 2) == Byte1(a, b) && ByteAt(v, 0) == Byte2(a, b) && v % 64 == b
  {
    LowBits(val, b, wrap);
    BytesFromLowBits(Shift(val, b, wrap));
    Emitted(a, b);
  }

  /** Whatever is left over in the accumulator, and whether or not it wraps, the bytes are those of the groups. */
  lemma {:induction false} MachineIsGroups(d: seq<Sextet>, val: int, wrap: bool)
    ensures Machine(d, val, -8, wrap) == Groups(d)
    decreases |d|
  {
    if d != [] {
      var v1 := Shift(val, d[0], wrap);
      OneByte(val, val % 64, d[0], wrap);
      assert Machine(d, val, -8, wrap) == Machine(d[1..], v1, -2, wrap);
      if |d| > 1 {
        var v2 := Shift(v1, d[1], wrap);
        OneByte(v1, d[0], d[1], wrap);
        assert d[1..][0] == d[1] && d[1..][1..] == d[2..];
        assert Machine(d[1..], v1, -2, wrap) == [ByteAt(v2, 4)] + Machine(d[2..], v2, -4, wrap);
        MachineTail(d, v2, wrap);
      }
    }
  }

  lemma {:induction false} MachineTail(d: seq<Sextet>, v2: int, wrap: bool)
    requires |d| >= 2 && v2 % 64 == d[1]
    ensures [Byte0(d[0], d[1])] + Machine(d[2..], v2, -4, wrap) == Groups(d)
    decreases |d|, 0
  {
    if |d| > 2 {
      var v3 := Shift(v2, d[2], wrap);
      OneByte(v2, d[1], d[2], wrap);
      assert d[2..][1..] == d[3..];
      assert Machine(d[2..], v2, -4, wrap) == [ByteAt(v3, 2)] + Machine(d[3..], v3, -6, wrap);
      if |d| > 3 {
        var v4 := Shift(v3, d[3], wrap);
        OneByte(v3, d[2], d[3], wrap);
        assert d[3..][1..] == d[4..];
        assert Machine(d[3..], v3, -6, wrap) == [ByteAt(v4, 0)] + Machine(d[4..], v4, -8, wrap);
        MachineIsGroups(d[4..], v4, wrap);
      }
    }
  }

  /** Wrapping around at 32 bits never changes a byte. */
  lemma WrappingIsHarmless(d: seq<Sextet>)
    ensures Machine(d, 0, -8, true) == Machine(d, 0, -8, false)
  {
    MachineIsGroups(d, 0, true);
    MachineIsGroups(d, 0, false);
  }

  // ---------------------------------------------------------------- the decoder as written

  /** The rest of the decoding loop, on the text. */
  function RunText(s: string, val: int, valb: int): Option<seq<Byte>> {
    if s == "" || s[0] == '=' then Some([])
    else if IsBlank(s[0]) then RunText(s[1..], val, valb)
    else match ValueOf(s[0])
      case None => None
      case Some(d) =>
        var v, b := Shift(val, d, true), valb + 6;
        match RunText(s[1..], v, if b >= 0 then b - 8 else b)
        case None => None
        case Some(rest) => Some(if b >= 0 then [ByteAt(v, b)] + rest else rest)
  }

  lemma {:induction false} RunTextIsMachine(s: string, val: int, valb: int)
    ensures RunText(s, val, valb) ==
            if Sextets(s).None? then None else Some(Machine(Sextets(s).value, val, valb, true))
    decreases |s|
  {
    if s != "" && s[0] != '=' {
      if IsBlank(s[0]) {
        RunTextIsMachine(s[1..], val, valb);
      } else if ValueOf(s[0]).Some? {
        var v, b := Shift(val, ValueOf(s[0]).value, true), valb + 6;
        RunTextIsMachine(s[1..], v, if b >= 0 then b - 8 else b);
        if Sextets(s[1..]).Some? {
          assert ([ValueOf(s[0]).value] + Sextets(s[1..]).value)[1..] == Sextets(s[1..]).value;
        }
      }
    }
  }

  /** The table: every letter's position, -1 for every other byte. */
  method DecodeTable() returns (t: array<int>)
    ensures fresh(t) && t.Length == 256
    ensures forall c :: 0 <= c < 256 ==> t[c] == EntryBelow(c, 64)
  {
    t := new int[256](_ => -1);
    AlphabetLetter(0);
    var i := 0;
    while i < 64
      invariant 0 <= i <= 64
      invariant forall c :: 0 <= c < 256 ==> t[c] == EntryBelow(c, i)
    {
      AlphabetLetter(i);
      forall c | 0 <= c < 256 ensures EntryBelow(c, i + 1) == if c == Letter(i) as int then i else EntryBelow(c, i) {
        LetterValue(i, c as char);
      }
      t[ALPHABET[i] as int] := i;
      i := i + 1;
    }
  }

  /** The table entry of a byte once the letters of values below `n` are in. */
  function EntryBelow(c: int, n: int): int
    requires 0 <= c < 256
  {
    match ValueOf(c as char) case Some(v) => if v < n then v as int else -1 case None => -1
  }

  method Base64Decode(encoded: string) returns (result: seq<Byte>)
    requires IsText(encoded)
    ensures result == Decode(encoded)
  {
    var text := encoded;
    if |text| >= 5 && text[..5] == "data:" {
      var comma := Find(text, ',');
      if comma == |text| { return []; }
      text := text[comma + 1..];
    }
    RunTextIsMachine(text, 0, -8);
    if Sextets(text).Some? { MachineIsGroups(Sextets(text).value, 0, true); }
    result := DecodeText(text);
  }

  /** What the loop has put out already, followed by what it will. */
  ghost predicate SoFar(all: Option<seq<Byte>>, result: seq<Byte>, rest: Option<seq<Byte>>) {
    if all.None? then rest.None? else rest.Some? && all.value == result + rest.value
  }

  method DecodeText(text: string) returns (result: seq<Byte>)
    requires IsText(text)
    ensures result == match RunText(text, 0, -8) case Some(bytes) => bytes case None => []
  {
    var table := DecodeTable();
    result := [];
    var val, valb, i := 0, -8, 0;
    assert text[0..] == text;
    while i < |text|
      invariant 0 <= i <= |text| && -8 <= valb < 0
      invariant SoFar(RunText(text, 0, -8), result, RunText(text[i..], val, valb))
    {
      var c := text[i];
      if c == '=' { break; }
      assert text[i..][1..] == text[i + 1..];
      i := i + 1;
      if IsBlank(c) { continue; }
      var decoded := table[c as int];
      if decoded < 0 { return []; }
      val := Shift(val, decoded, true);
      valb := valb + 6;
      if valb >= 0 {
        result := result + [ByteAt(val, valb)];
        valb := valb - 8;
      }
    }
  }

  // ---------------------------------------------------------------- the encoder

  /** The four values of three bytes. */
  function Value0(x: Byte): Sextet { x as int / 4 }
  function Value1(x: Byte, y: Byte): Sextet { x as int % 4 * 16 + y as int / 16 }
  function Value2(y: Byte, z: Byte): Sextet { y as int % 16 * 4 + z as int / 64 }
  function Value3(z: Byte): Sextet { z as int % 64 }

  function Quad(x: Byte, y: Byte, z: Byte): (q: string)
    ensures |q| == 4
  {
    [Letter(Value0(x)), Letter(Value1(x, y)), Letter(Value2(y, z)), Letter(Value3(z))]
  }

  function Encode(b: seq<Byte>): string {
    if b == [] then ""
    else if |b| == 1 then Quad(b[0], 0, 0)[..2] + "=="
    else if |b| == 2 then Quad(b[0], b[1], 0)[..3] + "="
    else Quad(b[0], b[1], b[2]) + Encode(b[3..])
  }

  lemma {:induction false} EncodedLength(b: seq<Byte>)
    ensures |Encode(b)| == (|b| + 2) / 3 * 4
    decreases |b|
  {
    if |b| > 2 {
      EncodedLength(b[3..]);
      assert (|b| + 2) / 3 == (|b[3..]| + 2) / 3 + 1;
    }
  }

  /** Full groups only, missing bytes taken as zero: what the loop writes before the padding is patched in. */
  function Padded(b: seq<Byte>): string {
    if b == [] then ""
    else if |b| <= 3 then Quad(b[0], if |b| > 1 then b[1] else 0, if |b| > 2 then b[2] else 0)
    else Quad(b[0], b[1], b[2]) + Padded(b[3..])
  }

  lemma PaddedUnfolds(b: seq<Byte>)
    requires |b| >= 3
    ensures Padded(b) == Quad(b[0], b[1], b[2]) + Padded(b[3..])
  {
    if |b| == 3 { assert b[3..] == []; }
  }

  /** The last `pad` characters replaced by '='. */
  function Patched(s: string, pad: nat): (r: string)
    requires pad <= |s|
    ensures |r| == |s|
  {
    s[..|s| - pad] + seq(pad, _ => '=')
  }

  lemma PatchedBehind(head: string, tail: string, pad: nat)
    requires pad <= |tail|
    ensures Patched(head + tail, pad) == head + Patched(tail, pad)
  {
  }

  /** How many bytes are missing in the last group. */
  function Missing(n: nat): nat { (3 - n % 3) % 3 }

  lemma MissingSame(n: nat)
    ensures Missing(n + 3) == Missing(n)
  {
    Quotient(n + 3, 3, n / 3 + 1, n % 3);
  }

  lemma PatchedShort(x: Byte, y: Byte)
    ensures Patched(Quad(x, y, 0), 1) == Quad(x, y, 0)[..3] + "="
    ensures Patched(Quad(x, 0, 0), 2) == Quad(x, 0, 0)[..2] + "=="
  {
  }

  lemma {:induction false} PatchedIsEncoded(b: seq<Byte>)
    ensures Missing(|b|) <= |Padded(b)| && Patched(Padded(b), Missing(|b|)) == Encode(b)
    decreases |b|
  {
    if |b| >= 3 {
      PatchedFront(b);
    } else if |b| == 2 {
      PatchedShort(b[0], b[1]);
    } else if |b| == 1 {
      PatchedShort(b[0], 0);
    }
  }

  lemma {:induction false} PatchedFront(b: seq<Byte>)
    requires |b| >= 3
    ensures Missing(|b|) <= |Padded(b)| && Patched(Padded(b), Missing(|b|)) == Encode(b)
    decreases |b|, 0
  {
    PatchedIsEncoded(b[3..]);
    PaddedUnfolds(b);
    MissingSame(|b[3..]|);
    PatchedBehind(Quad(b[0], b[1], b[2]), Padded(b[3..]), Missing(|b|));
  }

  /** Appending group by group, then overwriting the padding. */
  method Base64Encode(classMap: seq<Byte>) returns (b64: string)
    ensures b64 == Encode(classMap) && |b64| == (|classMap| + 2) / 3 * 4
  {
    b64 := "";
    var i := 0;
    ghost var rest := classMap;
    while i < |classMap|
      invariant 0 <= i && rest == (if i < |classMap| then classMap[i..] else [])
      invariant Padded(classMap) == b64 + Padded(rest)
    {
      var letters := OneGroup(classMap[i..]);
      b64 := b64 + letters;
      rest := rest[Min(3, |rest|)..];
      i := i + 3;
    }
    PatchedIsEncoded(classMap);
    EncodedLength(classMap);
    b64 := Patch(b64, Missing(|classMap|));
  }

  /** The four letters of the next (up to) three bytes, by shifting and masking a 24-bit word. */
  method OneGroup(rest: seq<Byte>) returns (letters: string)
    requires rest != []
    ensures Padded(rest) == letters + Padded(rest[Min(3, |rest|)..])
  {
    var x, y, z := rest[0], 0, 0;
    var val: int := rest[0] as int * 0x1_0000;
    if 1 < |rest| { val := val + rest[1] as int * 0x100; y := rest[1]; }
    if 2 < |rest| { val := val + rest[2] as int; z := rest[2]; }
    FourValues(x, y, z);
    letters := FourLetters(val);
    GroupInFront(rest, x, y, z);
  }

  lemma GroupInFront(rest: seq<Byte>, x: Byte, y: Byte, z: Byte)
    requires rest != [] && x == rest[0]
    requires y == (if |rest| > 1 then rest[1] else 0) && z == (if |rest| > 2 then rest[2] else 0)
    ensures Padded(rest) == Quad(x, y, z) + Padded(rest[Min(3, |rest|)..])
  {
    if |rest| <= 3 { assert rest[|rest|..] == []; }
  }

  method FourLetters(val: int) returns (letters: string)
    requires val >= 0
    ensures letters == [Letter(val / 0x4_0000 % 64), Letter(val / 0x1000 % 64), Letter(val / 64 % 64), Letter(val % 64)]
  {
    AlphabetLetter(val / 0x4_0000 % 64);
    AlphabetLetter(val / 0x1000 % 64);
    AlphabetLetter(val / 64 % 64);
    AlphabetLetter(val % 64);
    letters := [ALPHABET[val / 0x4_0000 % 64], ALPHABET[val / 0x1000 % 64], ALPHABET[val / 64 % 64], ALPHABET[val % 64]];
  }

  method Patch(full: string, pad: nat) returns (b64: string)
    requires pad <= |full|
    ensures b64 == Patched(full, pad)
  {
    b64 := full;
    var p := 0;
    while p < pad
      invariant 0 <= p <= pad <= |full| && b64 == Patched(full, p)
    {
      b64 := b64[|b64| - 1 - p := '='];
      p := p + 1;
    }
  }

  /** The shifts and masks of the 24-bit word pick the four values. */
  lemma FourValues(x: Byte, y: Byte, z: Byte)
    ensures var val: int := x as int * 0x1_0000 + y as int * 0x100 + z as int;
            && val / 0x4_0000 % 64 == Value0(x) && val / 0x1000 % 64 == Value1(x, y)
            && val / 64 % 64 == Value2(y, z) && val % 64 == Value3(z)
  {
    var val: int := x as int * 0x1_0000 + y as int * 0x100 + z as int;
    var x1, x2, y1, y2, z1, z2 := x as int / 4, x as int % 4, y as int / 16, y as int % 16, z as int / 64, z as int % 64;
    var v1, v2 := x2 * 16 + y1, y2 * 4 + z1;
    Quotient(val, 0x4_0000, x1, 0x1000 * v1 + 0x40 * v2 + z2);
    Quotient(x1, 64, 0, x1);
    Quotient(val, 0x1000, 64 * x1 + v1, 0x40 * v2 + z2);
    Quotient(64 * x1 + v1, 64, x1, v1);
    Quotient(val, 64, 4096 * x1 + 64 * v1 + v2, z2);
    Quotient(4096 * x1 + 64 * v1 + v2, 64, 64 * x1 + v1, v2);
  }

  // ---------------------------------------------------------------- round trip

  function Strip(s: string): string {
    if s == "" then "" else if IsBlank(s[0]) then Strip(s[1..]) else [s[0]] + Strip(s[1..])
  }

  /** Blanks anywhere in the text make no difference. */
  lemma {:induction false} BlanksAreSkipped(s: string)
    ensures Sextets(s) == Sextets(Strip(s))
    decreases |s|
  {
    if s != "" {
      BlanksAreSkipped(s[1..]);
      if !IsBlank(s[0]) { assert ([s[0]] + Strip(s[1..]))[1..] == Strip(s[1..]); }
    }
  }

  /** What the letters of an encoded text stand for. */
  function Values(b: seq<Byte>): seq<Sextet> {
    if b == [] then []
    else if |b| == 1 then [Value0(b[0]), Value1(b[0], 0)]
    else if |b| == 2 then [Value0(b[0]), Value1(b[0], b[1]), Value2(b[1], 0)]
    else [Value0(b[0]), Value1(b[0], b[1]), Value2(b[1], b[2]), Value3(b[2])] + Values(b[3..])
  }

  function Letters(d: seq<Sextet>): (s: string)
    ensures |s| == |d|
  {
    if d == [] then "" else [Letter(d[0])] + Letters(d[1..])
  }

  lemma SextetFirst(v: Sextet, rest: string)
    requires Sextets(rest).Some?
    ensures Sextets([Letter(v)] + rest) == Some([v] + Sextets(rest).value)
  {
    LetterValue(v, Letter(v));
    assert ([Letter(v)] + rest)[1..] == rest;
  }

  /** Letters are read back as their values, up to whatever follows. */
  lemma {:induction false} LettersReadBack(d: seq<Sextet>, rest: string)
    requires Sextets(rest).Some?
    ensures Sextets(Letters(d) + rest) == Some(d + Sextets(rest).value)
    decreases |d|
  {
    if d == [] {
      assert Letters(d) + rest == rest;
      assert d + Sextets(rest).value == Sextets(rest).value;
    } else {
      var tail := Letters(d[1..]) + rest;
      LettersReadBack(d[1..], rest);
      SextetFirst(d[0], tail);
      assert Letters(d) + rest == [Letter(d[0])] + tail;
      assert [d[0]] + (d[1..] + Sextets(rest).value) == d + Sextets(rest).value;
    }
  }

  lemma LetterFirst(a: Sextet, d: seq<Sextet>)
    ensures Letters([a] + d) == [Letter(a)] + Letters(d)
  {
    assert ([a] + d)[1..] == d;
  }

  lemma LettersOf(a: Sextet, b: Sextet, c: Sextet, d: Sextet)
    ensures Letters([a, b]) == [Letter(a), Letter(b)]
    ensures Letters([a, b, c]) == [Letter(a), Letter(b), Letter(c)]
    ensures Letters([a, b, c, d]) == [Letter(a), Letter(b), Letter(c), Letter(d)]
  {
    LetterFirst(b, []); LetterFirst(a, [b]);
    LetterFirst(c, []); LetterFirst(b, [c]); LetterFirst(a, [b, c]);
    LetterFirst(d, []); LetterFirst(c, [d]); LetterFirst(b, [c, d]); LetterFirst(a, [b, c, d]);
    assert [a] + [b] == [a, b] && [b] + [] == [b];
    assert [a] + [b, c] == [a, b, c] && [b] + [c] == [b, c] && [c] + [] == [c];
    assert [a] + [b, c, d] == [a, b, c, d] && [b] + [c, d] == [b, c, d] && [c] + [d] == [c, d] && [d] + [] == [d];
  }

  lemma {:induction false} EncodedSextets(b: seq<Byte>)
    ensures Sextets(Encode(b)) == Some(Values(b))
    decreases |b|
  {
    if |b| == 1 {
      var d := Values(b);
      LettersOf(d[0], d[1], 0, 0);
      LettersReadBack(d, "==");
      assert Encode(b) == Letters(d) + "==" && d + [] == d;
    } else if |b| == 2 {
      var d := Values(b);
      LettersOf(d[0], d[1], d[2], 0);
      LettersReadBack(d, "=");
      assert Encode(b) == Letters(d) + "=" && d + [] == d;
    } else if |b| > 2 {
      EncodedSextets(b[3..]);
      var d := [Value0(b[0]), Value1(b[0], b[1]), Value2(b[1], b[2]), Value3(b[2])];
      LettersOf(d[0], d[1], d[2], d[3]);
      LettersReadBack(d, Encode(b[3..]));
      assert Encode(b) == Letters(d) + Encode(b[3..]);
    }
  }

  /** Packing three bytes into four values and back. */
  lemma Repacked(x: Byte, y: Byte, z: Byte)
    ensures Byte0(Value0(x), Value1(x, y)) == x
    ensures Byte1(Value1(x, y), Value2(y, z)) == y
    ensures Byte2(Value2(y, z), Value3(z)) == z
  {
  }

  lemma GroupsFirst(a: Sextet, b: Sextet, c: Sextet, d: Sextet, rest: seq<Sextet>)
    ensures Groups([a, b, c, d] + rest) == [Byte0(a, b), Byte1(b, c), Byte2(c, d)] + Groups(rest)
  {
    assert ([a, b, c, d] + rest)[4..] == rest;
  }

  lemma GroupsOfFew(a: Sextet, b: Sextet, c: Sextet)
    ensures Groups([a, b]) == [Byte0(a, b)] && Groups([a, b, c]) == [Byte0(a, b), Byte1(b, c)]
  {
  }

  /** An incomplete group: what stands behind its last byte does not matter. */
  lemma GroupsOfShort(x: Byte, y: Byte, z: Byte)
    ensures Groups([Value0(x), Value1(x, y)]) == [x]
    ensures Groups([Value0(x), Value1(x, y), Value2(y, z)]) == [x, y]
  {
    Repacked(x, y, z);
    GroupsOfFew(Value0(x), Value1(x, y), Value2(y, z));
  }

  lemma {:induction false} GroupsOfValues(b: seq<Byte>)
    ensures Groups(Values(b)) == b
    decreases |b|
  {
    if |b| == 1 {
      GroupsOfShort(b[0], 0, 0);
      assert b == [b[0]];
    } else if |b| == 2 {
      GroupsOfShort(b[0], b[1], 0);
      assert b == [b[0], b[1]];
    } else if |b| > 2 {
      var x, y, z, rest := b[0], b[1], b[2], b[3..];
      GroupsOfValues(rest);
      GroupsFirst(Value0(x), Value1(x, y), Value2(y, z), Value3(z), Values(rest));
      Repacked(x, y, z);
      assert b == [x, y, z] + rest;
    }
  }

  /** A text that starts with "data:" does not strip to an encoding: the colon is no letter. */
  lemma NoPrefix(s: string, b: seq<Byte>)
    requires Strip(s) == Encode(b)
    ensures !(|s| >= 5 && s[..5] == "data:")
  {
    if |s| >= 5 && s[..5] == "data:" {
      BlanksAreSkipped(s);
      EncodedSextets(b);
      ColonStops(s);
    }
  }

  lemma ColonStops(s: string)
    requires |s| >= 5 && s[..5] == "data:"
    ensures Sextets(s).None?
  {
    assert s[0] == s[..5][0] && s[1] == s[..5][1] && s[2] == s[..5][2] && s[3] == s[..5][3] && s[4] == s[..5][4];
    assert Sextets(s[4..]).None?;
    assert s[3..][1..] == s[4..];
    assert Sextets(s[3..]).None?;
    assert s[2..][1..] == s[3..];
    assert Sextets(s[2..]).None?;
    assert s[1..][1..] == s[2..];
    assert Sextets(s[1..]).None?;
  }

  lemma PlainRoundTrip(b: seq<Byte>)
    ensures Decode(Encode(b)) == b
  {
    EncodedSextets(b);
    GroupsOfValues(b);
    var s := Encode(b);
    if |s| >= 5 && s[..5] == "data:" { ColonStops(s); }
  }

  /** Decoding an encoding, with blanks inserted anywhere, gives the bytes back. */
  lemma RoundTrip(b: seq<Byte>, s: string)
    requires Strip(s) == Encode(b)
    ensures Decode(s) == b
  {
    NoPrefix(s, b);
    BlanksAreSkipped(s);
    EncodedSextets(b);
    GroupsOfValues(b);
  }

  /** The same behind any "data:" header, which ends at its first comma. */
  lemma RoundTripBehindHeader(b: seq<Byte>, s: string, header: string)
    requires Strip(s) == Encode(b) && ',' !in header
    ensures Decode("data:" + header + "," + s) == b
  {
    var front := "data:" + header;
    var whole := "data:" + header + "," + s;
    assert whole == front + "," + s;
    assert whole[..5] == "data:";
    assert ',' !in "data:";
    assert whole[|front|] == ',';
    assert forall j :: 0 <= j < |front| ==> whole[j] == front[j];
    assert forall j :: 0 <= j < |front| ==> front[j] != ',';
    assert Find(whole, ',') == |front|;
    assert whole[|front| + 1..] == s;
    BlanksAreSkipped(s);
    EncodedSextets(b);
    GroupsOfValues(b);
  }

  // ---------------------------------------------------------------- texts that are refused, and the standard's examples

  /** A character that is no letter, no blank and not behind a '=' makes the whole text worthless. */
  lemma {:induction false} BadLetter(s: string, i: nat)
    requires i < |s| && s[i] !in ALPHABET && !IsBlank(s[i]) && '=' !in s[..i + 1]
    ensures Sextets(s) == None
    decreases i
  {
    assert s[..i + 1][0] == s[0] && s[0] in s[..i + 1];
    if i == 0 {
      NoLetter(s[0]);
    } else {
      assert s[1..][..i] == s[..i + 1][1..];
      BadLetter(s[1..], i - 1);
    }
  }

  lemma NoLetter(c: char)
    requires c !in ALPHABET
    ensures ValueOf(c) == None
  {
    if ValueOf(c).Some? {
      AlphabetLetter(ValueOf(c).value);
      LetterValue(ValueOf(c).value, c);
    }
  }

  lemma RefusedTexts(s: string, i: nat)
    requires i < |s| && s[i] !in ALPHABET && !IsBlank(s[i]) && '=' !in s[..i + 1]
    ensures !("data:" <= s) ==> Decode(s) == []
    ensures ',' !in s ==> Decode("data:" + s) == []
    ensures Decode("data:," + s) == []
  {
    BadLetter(s, i);
    var header, t := "data:,", "data:" + s;
    assert (header + s)[..5] == "data:" && (header + s)[5] == ',' && (header + s)[6..] == s;
    assert Find(header + s, ',') == 5;
    assert t[..5] == "data:";
    if ',' !in s { assert forall k :: 0 <= k < |t| ==> t[k] != ','; }
  }

  /** The values of a group spell the 24 bits of its bytes. */
  lemma Spelled(x: Byte, y: Byte, z: Byte)
    ensures x * 0x1_0000 + y * 0x100 + z
            == Value0(x) as int * 0x4_0000 + Value1(x, y) as int * 0x1000 + Value2(y, z) as int * 0x40 + Value3(z) as int
  {
    assert x == x / 4 * 4 + x % 4 && y == y / 16 * 16 + y % 16 && z == z / 64 * 64 + z % 64;
  }

  lemma OneSpelling(a: int, b: int, c: int, d: int, a': int, b': int, c': int, d': int)
    requires 0 <= b < 64 && 0 <= c < 64 && 0 <= d < 64 && 0 <= b' < 64 && 0 <= c' < 64 && 0 <= d' < 64
    requires a * 0x4_0000 + b * 0x1000 + c * 0x40 + d == a' * 0x4_0000 + b' * 0x1000 + c' * 0x40 + d'
    ensures a == a' && b == b' && c == c' && d == d'
  {
  }

  lemma QuadIs(x: Byte, y: Byte, z: Byte, a: nat, b: nat, c: nat, d: nat)
    requires a < 64 && b < 64 && c < 64 && d < 64
    requires x * 0x1_0000 + y * 0x100 + z == a * 0x4_0000 + b * 0x1000 + c * 0x40 + d
    ensures |ALPHABET| == 64 && Quad(x, y, z) == [ALPHABET[a], ALPHABET[b], ALPHABET[c], ALPHABET[d]]
  {
    Spelled(x, y, z);
    OneSpelling(a, b, c, d, Value0(x), Value1(x, y), Value2(y, z), Value3(z));
    AlphabetLetter(a);
    AlphabetLetter(b);
    AlphabetLetter(c);
    AlphabetLetter(d);
  }

  lemma EncodeShort(x: Byte, y: Byte)
    ensures |Quad(x, 0, 0)| == |Quad(x, y, 0)| == 4
    ensures Encode([x]) == Quad(x, 0, 0)[..2] + "==" && Encode([x, y]) == Quad(x, y, 0)[..3] + "="
  {
  }

  lemma EncodeGroups(x: Byte, y: Byte, z: Byte, u: Byte, v: Byte, w: Byte)
    ensures Encode([x, y, z]) == Quad(x, y, z) && Encode([x, y, z, u, v, w]) == Quad(x, y, z) + Quad(u, v, w)
  {
    assert [x, y, z][3..] == [] && [u, v, w][3..] == [] && [x, y, z, u, v, w][3..] == [u, v, w];
    assert Quad(x, y, z) + "" == Quad(x, y, z) && Quad(u, v, w) + "" == Quad(u, v, w);
  }

  lemma ExampleF()
    ensures Encode([102]) == "Zg=="
  {
    EncodeShort(102, 0);
    QuadIs(102, 0, 0, 25, 32, 0, 0);
    InAlphabet();
    assert Quad(102, 0, 0) == "ZgAA";
  }

  lemma ExampleFo()
    ensures Encode([102, 111]) == "Zm8="
  {
    EncodeShort(102, 111);
    QuadIs(102, 111, 0, 25, 38, 60, 0);
    InAlphabet();
    assert Quad(102, 111, 0) == "Zm8A";
  }

  lemma ExampleFoobar()
    ensures Quad(102, 111, 111) == "Zm9v" && Quad(98, 97, 114) == "YmFy"
  {
    QuadIs(102, 111, 111, 25, 38, 61, 47);
    QuadIs(98, 97, 114, 24, 38, 5, 50);
    InAlphabet();
  }

  /** Section 10 of RFC 4648: "f", "fo", "foo" and "foobar". */
  lemma StandardExamples()
    ensures Encode([102]) == "Zg==" && Encode([102, 111]) == "Zm8=" && Encode([102, 111, 111]) == "Zm9v"
    ensures Encode([102, 111, 111, 98, 97, 114]) == "Zm9vYmFy"
  {
    ExampleF();
    ExampleFo();
    ExampleFoobar();
    EncodeGroups(102, 111, 111, 98, 97, 114);
  }

  lemma InAlphabet()
    ensures |ALPHABET| == 64 && ALPHABET[0] == 'A' && ALPHABET[5] == 'F' && ALPHABET[24] == 'Y' && ALPHABET[25] == 'Z'
    ensures ALPHABET[32] == 'g' && ALPHABET[38] == 'm' && ALPHABET[47] == 'v' && ALPHABET[50] == 'y'
    ensures ALPHABET[60] == '8' && ALPHABET[61] == '9'
  {
    AlphabetLetter(0); AlphabetLetter(5); AlphabetLetter(24); AlphabetLetter(25);
    AlphabetLetter(32); AlphabetLetter(38); AlphabetLetter(47); AlphabetLetter(50);
    AlphabetLetter(60); AlphabetLetter(61);
  }
}
