/** UTF-8 as `Buffer` writes and reads it: a character is one to four bytes; reading replaces each
    longest beginning of a character that does not go on by U+FFFD (section 3.9 of the Unicode Standard). */
module Utf8 {
  import opened Text

  const REPLACEMENT := 0xFFFD as char

  function Bytes(c: char): (b: seq<Byte>)
    ensures 1 <= |b| <= 4
  {
    var n := c as int;
    if n < 0x80 then [n]
    else if n < 0x800 then [0xC0 + n / 0x40, 0x80 + n % 0x40]
    else if n < 0x1_0000 then [0xE0 + n / 0x1000, 0x80 + n / 0x40 % 0x40, 0x80 + n % 0x40]
    else [0xF0 + n / 0x4_0000, 0x80 + n / 0x1000 % 0x40, 0x80 + n / 0x40 % 0x40, 0x80 + n % 0x40]
  }

  function Encode(s: string): seq<Byte> {
    if s == "" then [] else Bytes(s[0]) + Encode(s[1..])
  }

  // ----- Reading -----

  /** How many bytes follow a first byte; none follow one that begins no character. */
  function Following(first: Byte): nat {
    if 0xC2 <= first < 0xE0 then 1
    else if 0xE0 <= first < 0xF0 then 2
    else if 0xF0 <= first < 0xF5 then 3
    else 0
  }

  predicate Continues(b: Byte) {
    0x80 <= b < 0xC0
  }

  /** The second byte also keeps out overlong forms, surrogates and numbers beyond U+10FFFF. */
  predicate MaySecond(first: Byte, b: Byte) {
    && Continues(b)
    && (first == 0xE0 ==> b >= 0xA0)
    && (first == 0xED ==> b < 0xA0)
    && (first == 0xF0 ==> b >= 0x90)
    && (first == 0xF4 ==> b < 0x90)
  }

  datatype Read = Read(c: char, length: nat)

  function Replaced(length: nat): Read {
    Read(REPLACEMENT, length)
  }

  predicate IsScalar(n: int) {
    0 <= n < 0xD800 || 0xE000 <= n < 0x11_0000
  }

  /** The character with these digits to the base 64. */
  function Letter(a: int, b: int, c: int, d: int): char
    requires IsScalar(0x4_0000 * a + 0x1000 * b + 0x40 * c + d)
  {
    (0x4_0000 * a + 0x1000 * b + 0x40 * c + d) as char
  }

  /** What the first bytes read as, and how many of them that takes. */
  function Next(s: seq<Byte>): (r: Read)
    requires s != []
    ensures 1 <= r.length <= |s|
  {
    var n := Following(s[0]);
    if s[0] < 0x80 then Read(s[0] as char, 1)
    else if n == 0 || |s| < 2 || !MaySecond(s[0], s[1]) then Replaced(1)
    else if n == 1 then Read(Letter(0, 0, s[0] - 0xC0, s[1] - 0x80), 2)
    else if |s| < 3 || !Continues(s[2]) then Replaced(2)
    else if n == 2 then Read(Letter(0, s[0] - 0xE0, s[1] - 0x80, s[2] - 0x80), 3)
    else if |s| < 4 || !Continues(s[3]) then Replaced(3)
    else Read(Letter(s[0] - 0xF0, s[1] - 0x80, s[2] - 0x80, s[3] - 0x80), 4)
  }

  function Decode(s: seq<Byte>): string {
    if s == [] then ""
    else
      var r := Next(s);
      [r.c] + Decode(s[r.length..])
  }

  /** Bytes that are the UTF-8 of some text. */
  predicate WellFormed(s: seq<Byte>) {
    Encode(Decode(s)) == s
  }

  // ----- Whole characters read back, cut ones are replaced -----

  /** The digits of `n` to the base 64; the first one leaves its mark on the second. */
  lemma DigitsOfThree(n: int)
    requires 0x800 <= n < 0x1_0000 && IsScalar(n)
    ensures var a, b, c := n / 0x1000, n / 0x40 % 0x40, n % 0x40;
            && n == 0x1000 * a + 0x40 * b + c && 0 <= a < 16 && 0 <= b < 0x40 && 0 <= c < 0x40
            && (a == 0 ==> b >= 0x20) && (a == 13 ==> b < 0x20)
  {}

  lemma DigitsOfFour(n: int)
    requires 0x1_0000 <= n < 0x11_0000
    ensures var a, b, c, d := n / 0x4_0000, n / 0x1000 % 0x40, n / 0x40 % 0x40, n % 0x40;
            && n == 0x4_0000 * a + 0x1000 * b + 0x40 * c + d
            && 0 <= a < 5 && 0 <= b < 0x40 && 0 <= c < 0x40 && 0 <= d < 0x40
            && (a == 0 ==> b >= 0x10) && (a == 4 ==> b < 0x10)
  {
    var m := n / 0x40;
    assert n / 0x1000 == m / 0x40 && n / 0x4_0000 == m / 0x40 / 0x40;
  }

  lemma NextOfThree(s: seq<Byte>, a: int, b: int, c: int)
    requires 0 <= a < 16 && 0 <= b < 0x40 && 0 <= c < 0x40 && (a == 0 ==> b >= 0x20) && (a == 13 ==> b < 0x20)
    requires s != [] && s[0] == 0xE0 + a && (|s| > 1 ==> s[1] == 0x80 + b) && (|s| > 2 ==> s[2] == 0x80 + c)
    ensures IsScalar(0x1000 * a + 0x40 * b + c)
    ensures Next(s) == if |s| < 3 then Replaced(|s|) else Read(Letter(0, a, b, c), 3)
  {}

  lemma NextOfFour(s: seq<Byte>, a: int, b: int, c: int, d: int)
    requires 0 <= a < 5 && 0 <= b < 0x40 && 0 <= c < 0x40 && 0 <= d < 0x40
    requires (a == 0 ==> b >= 0x10) && (a == 4 ==> b < 0x10)
    requires s != [] && s[0] == 0xF0 + a && (|s| > 1 ==> s[1] == 0x80 + b)
    requires (|s| > 2 ==> s[2] == 0x80 + c) && (|s| > 3 ==> s[3] == 0x80 + d)
    ensures IsScalar(0x4_0000 * a + 0x1000 * b + 0x40 * c + d)
    ensures Next(s) == if |s| < 4 then Replaced(|s|) else Read(Letter(a, b, c, d), 4)
  {}

  /** Bytes that start with those of a character, or are the beginning of them. */
  lemma NextStarts(c: char, s: seq<Byte>)
    requires s != [] && forall i | 0 <= i < |Bytes(c)| && i < |s| :: s[i] == Bytes(c)[i]
    ensures Next(s) == if |s| < |Bytes(c)| then Replaced(|s|) else Read(c, |Bytes(c)|)
  {
    var n, b := c as int, Bytes(c);
    if |b| == 4 {
      DigitsOfFour(n);
      NextOfFour(s, n / 0x4_0000, n / 0x1000 % 0x40, n / 0x40 % 0x40, n % 0x40);
    } else if |b| == 3 {
      DigitsOfThree(n);
      NextOfThree(s, n / 0x1000, n / 0x40 % 0x40, n % 0x40);
    }
  }

  lemma NextWhole(c: char, rest: seq<Byte>)
    ensures Next(Bytes(c) + rest) == Read(c, |Bytes(c)|)
  {
    NextStarts(c, Bytes(c) + rest);
  }

  lemma NextCut(c: char, n: nat)
    requires 0 < n < |Bytes(c)|
    ensures Next(Bytes(c)[..n]) == Replaced(n)
  {
    NextStarts(c, Bytes(c)[..n]);
  }

  /** The first `n` bytes of a text: the characters that fit, then one U+FFFD if one was cut. */
  function Cut(s: string, n: nat): string
    decreases |s|
  {
    if n == 0 || s == "" then ""
    else if |Bytes(s[0])| <= n then [s[0]] + Cut(s[1..], n - |Bytes(s[0])|)
    else [REPLACEMENT]
  }

  lemma {:induction false} CutReads(s: string, n: nat)
    requires n <= |Encode(s)|
    ensures Decode(Encode(s)[..n]) == Cut(s, n)
    decreases |s|
  {
    if n == 0 {
    } else {
      var first, rest := Bytes(s[0]), Encode(s[1..]);
      if |first| <= n {
        assert (first + rest)[..n] == first + rest[..n - |first|];
        NextWhole(s[0], rest[..n - |first|]);
        assert (first + rest[..n - |first|])[|first|..] == rest[..n - |first|];
        CutReads(s[1..], n - |first|);
      } else {
        assert (first + rest)[..n] == first[..n];
        NextCut(s[0], n);
        assert first[..n][n..] == [];
      }
    }
  }

  lemma {:induction false} CutWhole(s: string)
    ensures Cut(s, |Encode(s)|) == s
  {
    if s == "" {
    } else {
      CutWhole(s[1..]);
    }
  }

  /** Every text reads back. */
  lemma EncodeReads(s: string)
    ensures Decode(Encode(s)) == s
  {
    CutReads(s, |Encode(s)|);
    CutWhole(s);
    assert Encode(s)[..|Encode(s)|] == Encode(s);
  }

  lemma EncodeFirst(c: char, s: string)
    ensures Encode([c] + s) == Bytes(c) + Encode(s)
  {
    assert ([c] + s)[1..] == s;
  }

  /** What a cut keeps: the longest beginning within `n` bytes, and a mark if that is less than `n`. */
  lemma {:induction false} CutKeeps(s: string, n: nat) returns (k: nat)
    requires n < |Encode(s)|
    ensures k < |s| && |Encode(s[..k])| <= n < |Encode(s[..k + 1])|
    ensures Cut(s, n) == s[..k] + if |Encode(s[..k])| < n then [REPLACEMENT] else ""
    decreases |s|
  {
    var size := |Bytes(s[0])|;
    EncodeFirst(s[0], "");
    if size <= n {
      k := CutKeeps(s[1..], n - size);
      assert s[..k + 1] == [s[0]] + s[1..][..k] && s[..k + 2] == [s[0]] + s[1..][..k + 1];
      EncodeFirst(s[0], s[1..][..k]);
      EncodeFirst(s[0], s[1..][..k + 1]);
      k := k + 1;
    } else {
      k := 0;
      assert s[..1] == [s[0]] + "";
    }
  }

  // ----- Cutting a text that was cut before -----

  lemma {:induction false} EncodeAppend(a: string, b: string)
    ensures Encode(a + b) == Encode(a) + Encode(b)
  {
    if a == "" {
      assert a + b == b;
    } else {
      assert (a + b)[1..] == a[1..] + b;
      EncodeAppend(a[1..], b);
    }
  }

  /** What follows the first `n` bytes does not matter. */
  lemma {:induction false} CutOfAppend(a: string, b: string, n: nat)
    requires n <= |Encode(a)|
    ensures Cut(a + b, n) == Cut(a, n)
    decreases |a|
  {
    if n == 0 {
    } else {
      assert (a + b)[1..] == a[1..] + b;
      if |Bytes(a[0])| <= n { CutOfAppend(a[1..], b, n - |Bytes(a[0])|); }
    }
  }

  lemma CutFirst(c: char, s: string, n: nat)
    ensures Cut([c] + s, n) ==
            if n == 0 then "" else if |Bytes(c)| <= n then [c] + Cut(s, n - |Bytes(c)|) else [REPLACEMENT]
  {
    assert ([c] + s)[1..] == s;
  }

  /** U+FFFD is three bytes and replaces at most three, so a cut is not shorter than asked. */
  lemma {:induction false} CutLength(s: string, n: nat)
    requires n <= |Encode(s)|
    ensures |Encode(Cut(s, n))| >= n
    decreases |s|
  {
    if n == 0 {
    } else {
      var k := |Bytes(s[0])|;
      if k <= n {
        CutLength(s[1..], n - k);
        EncodeFirst(s[0], Cut(s[1..], n - k));
      } else {
        EncodeFirst(REPLACEMENT, "");
      }
    }
  }

  lemma ReplacedAgain(more: string, n: nat)
    requires 0 < n < 4
    ensures Cut([REPLACEMENT] + more, n) == [REPLACEMENT]
  {
    CutFirst(REPLACEMENT, more, n);
    assert n == 3 ==> Cut(more, n - |Bytes(REPLACEMENT)|) == "";
  }

  lemma FirstAgain(c: char, rest: string, more: string, n: nat)
    requires 0 < |Bytes(c)| <= n && Cut(rest + more, n - |Bytes(c)|) == rest
    ensures Cut([c] + rest + more, n) == [c] + rest
  {
    assert [c] + rest + more == [c] + (rest + more);
    CutFirst(c, rest + more, n);
  }

  /** Cutting again at the same place changes nothing, whatever was put after the cut. */
  lemma {:induction false} CutAgain(s: string, more: string, n: nat)
    requires n <= |Encode(s)|
    ensures Cut(Cut(s, n) + more, n) == Cut(s, n)
    decreases |s|
  {
    if n == 0 {
    } else {
      var k := |Bytes(s[0])|;
      if k <= n {
        CutAgain(s[1..], more, n - k);
        FirstAgain(s[0], Cut(s[1..], n - k), more, n);
      } else {
        ReplacedAgain(more, n);
      }
    }
  }

  // ----- Reading chunk by chunk -----

  function DecodeEach(chunks: seq<seq<Byte>>): string {
    if chunks == [] then "" else DecodeEach(chunks[..|chunks| - 1]) + Decode(chunks[|chunks| - 1])
  }

  lemma NextNoShorter(s: seq<Byte>)
    requires s != []
    ensures |Bytes(Next(s).c)| >= Next(s).length
  {
  }

  /** Reading and writing again never shortens. */
  lemma {:induction false} DecodeNoShorter(s: seq<Byte>)
    ensures |Encode(Decode(s))| >= |s|
  {
    if s == [] {
    } else {
      NextNoShorter(s);
      DecodeNoShorter(s[Next(s).length..]);
      assert Decode(s)[1..] == Decode(s[Next(s).length..]);
    }
  }

  lemma {:induction false} EachNoShorter(chunks: seq<seq<Byte>>)
    ensures |Encode(DecodeEach(chunks))| >= |Concat(chunks)|
  {
    if chunks == [] {
    } else {
      var init, last := chunks[..|chunks| - 1], chunks[|chunks| - 1];
      EachNoShorter(init);
      DecodeNoShorter(last);
      EncodeAppend(DecodeEach(init), Decode(last));
    }
  }

  lemma AllOf(init: seq<seq<Byte>>, last: seq<Byte>, chunks: seq<seq<Byte>>)
    requires chunks == init + [last]
    ensures (forall c | c in chunks :: WellFormed(c)) <==> (forall c | c in init :: WellFormed(c)) && WellFormed(last)
  {
    assert forall c :: c in chunks <==> c in init || c == last;
  }

  /** Chunks read one by one are the text of their joined bytes exactly when each is well formed. */
  lemma {:induction false} EachReadsIff(chunks: seq<seq<Byte>>)
    ensures Encode(DecodeEach(chunks)) == Concat(chunks) <==> forall c | c in chunks :: WellFormed(c)
  {
    if chunks == [] {
    } else {
      var init, last := chunks[..|chunks| - 1], chunks[|chunks| - 1];
      EachReadsIff(init);
      EachNoShorter(init);
      DecodeNoShorter(last);
      EncodeAppend(DecodeEach(init), Decode(last));
      AllOf(init, last, chunks);
      SameHalves(Encode(DecodeEach(init)), Encode(Decode(last)), Concat(init), last);
    }
  }

  lemma SameHalves(a: seq<Byte>, b: seq<Byte>, c: seq<Byte>, d: seq<Byte>)
    requires |a| >= |c| && |b| >= |d|
    ensures a + b == c + d <==> a == c && b == d
  {
    if a + b == c + d {
      assert |a + b| == |c + d|;
      assert a == (a + b)[..|a|] && c == (c + d)[..|a|];
      assert b == (a + b)[|a|..] && d == (c + d)[|a|..];
    }
  }

  /** For a stream that is the UTF-8 of a text, reading chunk by chunk gives that text exactly when
      no chunk ends inside a character. */
  lemma ChunksReadIff(text: string, chunks: seq<seq<Byte>>)
    requires Concat(chunks) == Encode(text)
    ensures DecodeEach(chunks) == text <==> forall c | c in chunks :: WellFormed(c)
  {
    EachReadsIff(chunks);
    EncodeReads(text);
    EncodeReads(DecodeEach(chunks));
  }
}
