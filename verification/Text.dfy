/** Text as the program handles it: Rust strings are sequences of Unicode scalar
    values (Dafny's `char`), and bytes appear only through UTF-8. */
module Text {
  datatype Option<+T> = None | Some(value: T)

  datatype Result<+T> = Ok(value: T) | Err(message: string)

  type byte = x: int | 0 <= x < 256

  predicate IsAlnum(c: char) {
    'a' <= c <= 'z' || 'A' <= c <= 'Z' || '0' <= c <= '9'
  }

  // ---------------------------------------------------------------- UTF-8

  function EncodeChar(c: char): seq<byte> {
    var n := c as int;
    if n < 0x80 then [n]
    else if n < 0x800 then [0xC0 + n / 64, 0x80 + n % 64]
    else if n < 0x1_0000 then [0xE0 + n / 4096, 0x80 + n / 64 % 64, 0x80 + n % 64]
    else [0xF0 + n / 262144, 0x80 + n / 4096 % 64, 0x80 + n / 64 % 64, 0x80 + n % 64]
  }

  function Utf8(s: string): seq<byte> {
    if s == [] then [] else EncodeChar(s[0]) + Utf8(s[1..])
  }

  predicate IsContinuation(b: byte) {
    0x80 <= b < 0xC0
  }

  predicate IsScalar(n: int) {
    0 <= n < 0xD800 || 0xE000 <= n < 0x11_0000
  }

  /** The bits a UTF-8 byte contributes once its marker is taken off. */
  function Payload(b: byte, marker: int): int {
    b - marker
  }

  /** The first scalar value of `b` and the number of bytes it takes. */
  function DecodeChar(b: seq<byte>): (r: Option<(char, nat)>)
    ensures r.Some? ==> 0 < r.value.1 <= |b|
  {
    if |b| == 0 then None
    else if b[0] < 0x80 then Some((b[0] as char, 1))
    else if 0xC2 <= b[0] < 0xE0 && |b| >= 2 && IsContinuation(b[1]) then
      Some(((Payload(b[0], 0xC0) * 64 + Payload(b[1], 0x80)) as char, 2))
    else if 0xE0 <= b[0] < 0xF0 && |b| >= 3 && IsContinuation(b[1]) && IsContinuation(b[2]) then
      var n := Payload(b[0], 0xE0) * 4096 + Payload(b[1], 0x80) * 64 + Payload(b[2], 0x80);
      if n >= 0x800 && IsScalar(n) then Some((n as char, 3)) else None
    else if 0xF0 <= b[0] < 0xF5 && |b| >= 4 && IsContinuation(b[1]) && IsContinuation(b[2]) && IsContinuation(b[3]) then
      var n := Payload(b[0], 0xF0) * 262144 + Payload(b[1], 0x80) * 4096 + Payload(b[2], 0x80) * 64
               + Payload(b[3], 0x80);
      if n >= 0x1_0000 && IsScalar(n) then Some((n as char, 4)) else None
    else None
  }

  function FromUtf8(b: seq<byte>): Option<string>
    decreases |b|
  {
    if b == [] then Some([])
    else match DecodeChar(b)
      case None => None
      case Some((c, used)) =>
        match FromUtf8(b[used..])
        case None => None
        case Some(rest) => Some([c] + rest)
  }

  lemma {:induction false} SplitSixBits(n: nat)
    ensures n == 64 * (n / 64) + n % 64
    ensures n == 4096 * (n / 4096) + 64 * (n / 64 % 64) + n % 64
    ensures n == 262144 * (n / 262144) + 4096 * (n / 4096 % 64) + 64 * (n / 64 % 64) + n % 64
  {
    var m, k := n / 64, n / 4096;
    assert k == m / 64 && n / 262144 == k / 64;
    assert m == 64 * (m / 64) + m % 64 && k == 64 * (k / 64) + k % 64;
  }

  lemma {:induction false} DecodeEncoded(c: char, rest: seq<byte>)
    ensures DecodeChar(EncodeChar(c) + rest) == Some((c, |EncodeChar(c)|))
  {
    var n, e := c as int, EncodeChar(c);
    var b := e + rest;
    SplitSixBits(n);
    assert forall i :: 0 <= i < |e| ==> b[i] == e[i];
    assert |b| >= |e|;
    if n < 0x80 {
      assert DecodeChar(b) == Some((b[0] as char, 1));
    } else if n < 0x800 {
      assert 0xC2 <= e[0] < 0xE0 && IsContinuation(e[1]);
      assert Payload(e[0], 0xC0) * 64 + Payload(e[1], 0x80) == n;
    } else if n < 0x1_0000 {
      assert 0xE0 <= e[0] < 0xF0 && IsContinuation(e[1]) && IsContinuation(e[2]);
      assert Payload(e[0], 0xE0) * 4096 + Payload(e[1], 0x80) * 64 + Payload(e[2], 0x80) == n;
    } else {
      assert 0xF0 <= e[0] < 0xF5 && IsContinuation(e[1]) && IsContinuation(e[2]) && IsContinuation(e[3]);
      assert Payload(e[0], 0xF0) * 262144 + Payload(e[1], 0x80) * 4096 + Payload(e[2], 0x80) * 64
             + Payload(e[3], 0x80) == n;
    }
  }

  lemma {:induction false} Utf8RoundTrip(s: string)
    ensures FromUtf8(Utf8(s)) == Some(s)
  {
    if s != [] {
      DecodeEncoded(s[0], Utf8(s[1..]));
      var used := |EncodeChar(s[0])|;
      assert Utf8(s)[used..] == Utf8(s[1..]);
      Utf8RoundTrip(s[1..]);
      assert s == [s[0]] + s[1..];
    }
  }

  lemma {:induction false} Utf8Injective(s: string, t: string)
    requires Utf8(s) == Utf8(t)
    ensures s == t
  {
    Utf8RoundTrip(s);
    Utf8RoundTrip(t);
  }

  lemma {:induction false} TwoBytes(b: seq<byte>)
    requires |b| >= 2 && 0xC2 <= b[0] < 0xE0 && IsContinuation(b[1])
    ensures DecodeChar(b).Some? ==> DecodeChar(b).value.1 == 2 && EncodeChar(DecodeChar(b).value.0) == b[..2]
  {
    var x: int, y: int := b[0] - 0xC0, b[1] - 0x80;
    assert (64 * x + y) / 64 == x && (64 * x + y) % 64 == y;
  }

  lemma {:induction false} ThreeBytes(b: seq<byte>)
    requires |b| >= 3 && 0xE0 <= b[0] < 0xF0
    ensures DecodeChar(b).Some? ==> DecodeChar(b).value.1 == 3 && EncodeChar(DecodeChar(b).value.0) == b[..3]
  {
    if DecodeChar(b).Some? {
      var x: int, y: int, z: int := b[0] - 0xE0, b[1] - 0x80, b[2] - 0x80;
      var n := x * 4096 + y * 64 + z;
      assert n / 64 == 64 * x + y && n % 64 == z && n / 4096 == x && n / 64 % 64 == y;
    }
  }

  lemma {:induction false} FourBytes(b: seq<byte>)
    requires |b| >= 4 && 0xF0 <= b[0] < 0xF5
    ensures DecodeChar(b).Some? ==> DecodeChar(b).value.1 == 4 && EncodeChar(DecodeChar(b).value.0) == b[..4]
  {
    if DecodeChar(b).Some? {
      var x: int, y: int, z: int, w: int := b[0] - 0xF0, b[1] - 0x80, b[2] - 0x80, b[3] - 0x80;
      var n := x * 262144 + y * 4096 + z * 64 + w;
      assert n / 64 == 4096 * x + 64 * y + z && n % 64 == w && n / 64 % 64 == z;
      assert n / 4096 == 64 * x + y && n / 4096 % 64 == y && n / 262144 == x;
    }
  }

  lemma {:induction false} EncodeDecoded(b: seq<byte>)
    ensures DecodeChar(b).Some? ==> EncodeChar(DecodeChar(b).value.0) == b[..DecodeChar(b).value.1]
  {
    if DecodeChar(b).Some? && b[0] >= 0x80 {
      if b[0] < 0xE0 {
        TwoBytes(b);
      } else if b[0] < 0xF0 {
        ThreeBytes(b);
      } else {
        FourBytes(b);
      }
    }
  }

  lemma {:induction false} FirstDecoded(b: seq<byte>)
    requires b != [] && FromUtf8(b).Some?
    ensures DecodeChar(b).Some?
    ensures var (c, used) := DecodeChar(b).value;
            FromUtf8(b[used..]).Some? && FromUtf8(b).value == [c] + FromUtf8(b[used..]).value
  {
    hide DecodeChar;
  }

  /** Nothing but the encoding of a text decodes to it. */
  lemma {:induction false} Utf8IsStrict(b: seq<byte>)
    ensures FromUtf8(b).Some? ==> Utf8(FromUtf8(b).value) == b
    decreases |b|
  {
    hide DecodeChar, EncodeChar;
    if b != [] && FromUtf8(b).Some? {
      hide FromUtf8, Utf8;
      FirstDecoded(b);
      var (c, used) := DecodeChar(b).value;
      EncodeDecoded(b);
      Utf8IsStrict(b[used..]);
      Utf8Cons(c, FromUtf8(b[used..]).value);
      assert b == b[..used] + b[used..];
    }
  }

  lemma {:induction false} Utf8Cons(c: char, rest: string)
    ensures Utf8([c] + rest) == EncodeChar(c) + Utf8(rest)
  {
    assert ([c] + rest)[1..] == rest;
    hide EncodeChar;
  }

  // ---------------------------------------------------------------- numbers

  function Digit(n: nat): (c: char)
    requires n < 16
  {
    if n < 10 then ('0' as int + n) as char else ('a' as int + n - 10) as char
  }

  /** `format!("{byte:02x}")` */
  function Hex2(b: byte): string {
    [Digit(b / 16), Digit(b % 16)]
  }

  function DigitValue(c: char): Option<nat> {
    if '0' <= c <= '9' then Some(c as int - '0' as int) else None
  }

  /** Decimal printing, as `{}` prints an unsigned integer. */
  function Decimal(n: nat): (s: string)
    ensures |s| > 0
    ensures forall i :: 0 <= i < |s| ==> '0' <= s[i] <= '9'
  {
    if n < 10 then [Digit(n)] else Decimal(n / 10) + [Digit(n % 10)]
  }

  function ParseDigits(s: string): Option<nat> {
    if s == [] then None
    else
      var last := DigitValue(s[|s| - 1]);
      if |s| == 1 || last.None? then last
      else match ParseDigits(s[..|s| - 1])
        case None => None
        case Some(high) => Some(10 * high + last.value)
  }

  /** `str::parse::<usize>`: an optional plus sign, then one or more digits. */
  function ParseUsize(s: string): Option<nat> {
    if s != [] && s[0] == '+' then ParseDigits(s[1..]) else ParseDigits(s)
  }

  lemma {:induction false} ParseDecimalDigits(n: nat)
    ensures ParseDigits(Decimal(n)) == Some(n)
  {
    if n >= 10 {
      ParseDecimalDigits(n / 10);
      var s := Decimal(n);
      assert s[..|s| - 1] == Decimal(n / 10);
      assert n == 10 * (n / 10) + n % 10;
    }
  }

  /** A printed number parses back, with or without a plus sign. */
  lemma {:induction false} ParseDecimal(n: nat)
    ensures ParseUsize(Decimal(n)) == Some(n) && ParseUsize("+" + Decimal(n)) == Some(n)
  {
    ParseDecimalDigits(n);
    assert ("+" + Decimal(n))[1..] == Decimal(n);
    assert Decimal(n)[0] != '+';
  }

  // ---------------------------------------------------------------- slicing

  /** `rsplit('/').next()`: what follows the last slash, or the whole text. */
  function LastSegment(s: string): (r: string)
    ensures |r| <= |s| && s[|s| - |r|..] == r
    ensures '/' !in r
  {
    if s == [] || s[|s| - 1] == '/' then []
    else LastSegment(s[..|s| - 1]) + [s[|s| - 1]]
  }

  lemma {:induction false} LastSegmentAfterSlash(prefix: string, name: string)
    requires '/' !in name
    ensures LastSegment(prefix + "/" + name) == name
  {
    var s := prefix + "/" + name;
    if name == [] {
      assert s[|s| - 1] == '/';
    } else {
      var short, last := name[..|name| - 1], name[|name| - 1];
      LastSegmentAfterSlash(prefix, short);
      assert last in name;
      assert s[..|s| - 1] == prefix + "/" + short && s[|s| - 1] == last;
      assert LastSegment(s) == LastSegment(s[..|s| - 1]) + [last];
      hide LastSegment;
      assert short + [last] == name;
    }
  }

  predicate EndsWith(s: string, suffix: string) {
    |suffix| <= |s| && s[|s| - |suffix|..] == suffix
  }

  predicate StartsWith(s: string, prefix: string) {
    |prefix| <= |s| && s[..|prefix|] == prefix
  }

  /** The White_Space property of the Unicode character database. */
  predicate IsWhitespace(c: char) {
    var n := c as int;
    9 <= n <= 13 || n == 0x20 || n == 0x85 || n == 0xA0 || n == 0x1680 || 0x2000 <= n <= 0x200A
    || n == 0x2028 || n == 0x2029 || n == 0x202F || n == 0x205F || n == 0x3000
  }

  lemma {:induction false} WhitespaceIs(c: char)
    ensures IsWhitespace(c) <==>
              c as int in {0x9, 0xA, 0xB, 0xC, 0xD, 0x20, 0x85, 0xA0, 0x1680, 0x2000, 0x2001, 0x2002, 0x2003, 0x2004,
                           0x2005, 0x2006, 0x2007, 0x2008, 0x2009, 0x200A, 0x2028, 0x2029, 0x202F, 0x205F, 0x3000}
  {
  }

  function TrimStart(s: string): (r: string)
    ensures r != [] ==> !IsWhitespace(r[0])
    ensures |r| <= |s| && s[|s| - |r|..] == r
  {
    if s != [] && IsWhitespace(s[0]) then TrimStart(s[1..]) else s
  }

  function TrimEnd(s: string): (r: string)
    ensures r != [] ==> !IsWhitespace(r[|r| - 1])
    ensures |r| <= |s| && s[..|r|] == r
  {
    if s != [] && IsWhitespace(s[|s| - 1]) then TrimEnd(s[..|s| - 1]) else s
  }

  function Trim(s: string): string {
    TrimEnd(TrimStart(s))
  }

  predicate IsTrimmed(s: string) {
    s == [] || (!IsWhitespace(s[0]) && !IsWhitespace(s[|s| - 1]))
  }

  lemma {:induction false} TrimFixpoint(s: string)
    ensures Trim(s) == s <==> IsTrimmed(s)
  {
  }

  /** Trimming commutes with a first part that neither starts with a blank nor is empty. */
  lemma {:induction false} TrimAfter(head: string, tail: string)
    requires IsTrimmed(head) && head != []
    ensures Trim(head + tail) == head + TrimEnd(tail)
  {
    assert (head + tail)[0] == head[0];
    TrimEndAfter(head, tail);
  }

  lemma {:induction false} TrimEndAfter(head: string, tail: string)
    requires IsTrimmed(head) && head != []
    ensures TrimEnd(head + tail) == head + TrimEnd(tail)
  {
    var s := head + tail;
    if tail != [] && IsWhitespace(tail[|tail| - 1]) {
      assert s[..|s| - 1] == head + tail[..|tail| - 1];
      TrimEndAfter(head, tail[..|tail| - 1]);
    } else if tail == [] {
      assert s == head;
    }
  }

  function IndexOf(s: string, c: char): (i: nat)
    ensures i <= |s|
    ensures i < |s| ==> s[i] == c
    ensures forall j :: 0 <= j < i ==> s[j] != c
    ensures c !in s <==> i == |s|
  {
    if s == [] || s[0] == c then 0 else
      var i := IndexOf(s[1..], c);
      assert forall j :: 1 <= j < |s| ==> s[j] == s[1..][j - 1];
      assert c in s <==> c in s[1..];
      1 + i
  }

  /** `str::lines`: split after each line feed, dropping it and a carriage return before it. */
  function Lines(s: string): seq<string> {
    if s == [] then []
    else
      var i := IndexOf(s, '\n');
      if i == |s| then [s] else [DropCarriageReturn(s[..i])] + Lines(s[i + 1..])
  }

  function DropCarriageReturn(s: string): string {
    if s != [] && s[|s| - 1] == '\r' then s[..|s| - 1] else s
  }

  lemma {:induction false} LinesOfLine(line: string, rest: string)
    requires '\n' !in line
    ensures Lines(line + "\n" + rest) == [DropCarriageReturn(line)] + Lines(rest)
  {
    var s := line + "\n" + rest;
    assert s[|line|] == '\n';
    assert forall j :: 0 <= j < |line| ==> s[j] == line[j] && line[j] in line;
    assert IndexOf(s, '\n') == |line|;
    assert s[..|line|] == line && s[|line| + 1..] == rest;
  }
}
