/** Address text: IPv4 and IPv6 parsing, and which addresses count as public. */
module PublicAddress {
  import opened Text

  // ----- Numerals -----

  predicate IsDigit(c: char) { '0' <= c <= '9' }
  predicate IsLowerHex(c: char) { IsDigit(c) || 'a' <= c <= 'f' }
  predicate IsHex(c: char) { IsLowerHex(c) || 'A' <= c <= 'F' }

  function DigitValue(c: char): (d: nat)
    requires IsHex(c)
    ensures d < 16
  {
    if IsDigit(c) then c as int - '0' as int
    else if 'a' <= c then c as int - 'a' as int + 10
    else c as int - 'A' as int + 10
  }

  function DigitChar(d: nat): (c: char)
    requires d < 16
    ensures IsLowerHex(c) && DigitValue(c) == d && (d < 10 ==> IsDigit(c))
  {
    if d < 10 then ('0' as int + d) as char else ('a' as int + d - 10) as char
  }

  /** `Number.parseInt(s, true)` and `Number(s)` on a string of digits. */
  function Parse(s: string, hex: bool): nat
    requires forall c | c in s :: IsHex(c)
  {
    if s == "" then 0
    else
      var high := Parse(s[..|s| - 1], hex);
      (if hex then 16 * high else 10 * high) + DigitValue(s[|s| - 1])
  }

  /** `n.toString(16)` and `n.toString()`. */
  function Numeral(n: nat, hex: bool): (s: string)
    ensures s != ""
    ensures forall c | c in s :: IsLowerHex(c) && (!hex ==> IsDigit(c))
    ensures Parse(s, hex) == n
  {
    if n < 10 || (hex && n < 16) then
      assert [DigitChar(n)][..0] == "";
      [DigitChar(n)]
    else if hex then Extend(Numeral(n / 16, hex), n % 16, hex)
    else Extend(Numeral(n / 10, hex), n % 10, hex)
  }

  function Extend(high: string, digit: nat, hex: bool): (s: string)
    requires high != "" && forall c | c in high :: IsLowerHex(c) && (!hex ==> IsDigit(c))
    requires digit < if hex then 16 else 10
    ensures |s| == |high| + 1 && forall c | c in s :: IsLowerHex(c) && (!hex ==> IsDigit(c))
    ensures Parse(s, hex) == (if hex then 16 else 10) * Parse(high, hex) + digit
  {
    assert (high + [DigitChar(digit)])[..|high|] == high;
    high + [DigitChar(digit)]
  }

  /** A 16-bit number has at most four hexadecimal digits. */
  lemma WordNumeral(n: nat)
    requires n < 0x1_0000
    ensures |Numeral(n, true)| <= 4
  {
    if n >= 16 {
      assert |Numeral(n, true)| == |Numeral(n / 16, true)| + 1;
      if n / 16 >= 16 {
        assert |Numeral(n / 16, true)| == |Numeral(n / 16 / 16, true)| + 1;
        if n / 16 / 16 >= 16 {
          assert |Numeral(n / 16 / 16, true)| == |Numeral(n / 16 / 16 / 16, true)| + 1;
        }
      }
    }
  }

  // ----- IPv4 text -----

  function Word(high: Byte, low: Byte): nat {
    256 * (high as int) + low as int
  }

  /** `Number(part)` when it is an integer: decimal digits by their value; of the other spellings
      that JavaScript reads (empty, signed, hexadecimal, exponents), `other` is the reading. */
  function ReadInteger(part: string, other: string -> Option<int>): Option<int> {
    if part != "" && forall c | c in part :: IsDigit(c) then Some(Parse(part, false)) else other(part)
  }

  function Ipv4Bytes(value: string, other: string -> Option<int>): Option<seq<Byte>> {
    var parts := Split(value, '.');
    if |parts| == 4 && forall i | 0 <= i < 4 ::
      ReadInteger(parts[i], other).Some? && 0 <= ReadInteger(parts[i], other).value < 256
    then Some(seq(4, i requires 0 <= i < 4 => ReadInteger(parts[i], other).value))
    else None
  }

  /** `bytes.join(".")`. */
  function Dotted(bytes: seq<Byte>): string {
    Join(seq(|bytes|, i requires 0 <= i < |bytes| => Numeral(bytes[i], false)), '.')
  }

  lemma DottedReads(bytes: seq<Byte>, other: string -> Option<int>)
    requires |bytes| == 4
    ensures Ipv4Bytes(Dotted(bytes), other) == Some(bytes)
  {
    var parts := seq(4, i requires 0 <= i < 4 => Numeral(bytes[i], false));
    assert parts == seq(|bytes|, i requires 0 <= i < |bytes| => Numeral(bytes[i], false));
    SplitOfJoin(parts, '.');
    assert Split(Dotted(bytes), '.') == parts;
    forall i | 0 <= i < 4 ensures ReadInteger(parts[i], other) == Some(bytes[i] as int) {
      assert parts[i] == Numeral(bytes[i], false);
    }
    assert Ipv4Bytes(Dotted(bytes), other).value == bytes;
  }

  /** Text without a dot is never dotted. */
  lemma DotlessIsNotIpv4(value: string, other: string -> Option<int>)
    requires '.' !in value
    ensures Ipv4Bytes(value, other).None?
  {
    SplitWhole(value, '.');
  }

  // ----- IPv6 text -----

  function LastIndexOf(s: string, c: char): (i: int)
    ensures -1 <= i < |s|
    ensures i >= 0 ==> s[i] == c && c !in s[i + 1..]
    ensures i == -1 ==> c !in s
  {
    if s == "" then -1
    else if s[|s| - 1] == c then |s| - 1
    else
      var i := LastIndexOf(s[..|s| - 1], c);
      assert s == s[..|s| - 1] + [s[|s| - 1]];
      if i == -1 then i
      else
        NoneAfter(s[..|s| - 1], s[|s| - 1], c, i);
        i
  }

  lemma NoneAfter(init: string, last: char, c: char, i: int)
    requires 0 <= i < |init| && last != c && c !in init[i + 1..]
    ensures c !in (init + [last])[i + 1..]
  {
    assert (init + [last])[i + 1..] == init[i + 1..] + [last];
  }

  /** `s.split("::")`: pairs of colons are found from the left. */
  function SplitPairs(s: string): (parts: seq<string>)
    ensures parts != []
  {
    if |s| < 2 then [s]
    else if s[0] == ':' && s[1] == ':' then [""] + SplitPairs(s[2..])
    else
      var rest := SplitPairs(s[1..]);
      [[s[0]] + rest[0]] + rest[1..]
  }

  predicate IsGroup(g: string) {
    1 <= |g| <= 4 && forall c | c in g :: IsLowerHex(c)
  }

  /** The byte pairs of the groups, or nothing if one is not a group. */
  function GroupBytes(groups: seq<string>): Option<seq<int>> {
    if groups == [] then Some([])
    else
      var g := groups[|groups| - 1];
      match GroupBytes(groups[..|groups| - 1])
      case Some(bytes) => if IsGroup(g) then Some(bytes + [Parse(g, true) / 256, Parse(g, true) % 256]) else None
      case None => None
  }

  lemma {:induction false} GroupBytesPrefix(groups: seq<string>, k: nat)
    requires k <= |groups| && GroupBytes(groups).Some?
    ensures GroupBytes(groups[..k]).Some?
    decreases |groups|
  {
    if k == |groups| {
      assert groups[..k] == groups;
    } else {
      GroupBytesPrefix(groups[..|groups| - 1], k);
      assert groups[..|groups| - 1][..k] == groups[..k];
    }
  }

  /** The groups that the text denotes, before they are read; a dotted tail becomes two groups. */
  function SourceOf(text: string, other: string -> Option<int>): string {
    var colon := LastIndexOf(text, ':');
    if colon < 0 then text
    else
      match Ipv4Bytes(text[colon + 1..], other)
      case Some(b) => text[..colon] + ":" + Numeral(Word(b[0], b[1]), true) + ":" + Numeral(Word(b[2], b[3]), true)
      case None => text
  }

  function Zeros(n: nat): seq<string> {
    seq(n, i => "0")
  }

  /** One side of a `::`, empty or not. */
  function Half(text: string): seq<string> {
    if text != "" then Split(text, ':') else []
  }

  /** The groups left and right of a `::`, the missing ones in between. */
  function Assemble(halves: seq<string>): Option<seq<string>>
    requires halves != []
  {
    if |halves| > 2 then None
    else
      var left := Half(halves[0]);
      var right := if |halves| == 2 then Half(halves[1]) else [];
      var missing := 8 - |left| - |right|;
      if missing < 0 || (|halves| == 1 && missing != 0) then None
      else Some(left + Zeros(missing) + right)
  }

  function Groups(source: string): Option<seq<string>> {
    Assemble(SplitPairs(source))
  }

  function Ipv6Bytes(value: string, other: string -> Option<int>): Option<seq<int>> {
    match Groups(SourceOf(Lower(Split(value, '%')[0]), other))
    case Some(groups) => GroupBytes(groups)
    case None => None
  }

  /** The loop of `ipv6Bytes`: the bytes pushed so far are those of the groups so far. */
  method PushGroups(groups: seq<string>) returns (r: Option<seq<int>>)
    ensures r == GroupBytes(groups)
  {
    var bytes: seq<int> := [];
    for k := 0 to |groups|
      invariant GroupBytes(groups[..k]) == Some(bytes)
    {
      var group := groups[k];
      assert groups[..k + 1][..k] == groups[..k];
      if !IsGroup(group) {
        if GroupBytes(groups).Some? { GroupBytesPrefix(groups, k + 1); }
        return None;
      }
      bytes := bytes + [Parse(group, true) / 256, Parse(group, true) % 256];
    }
    assert groups[..|groups|] == groups;
    return Some(bytes);
  }

  method ReadIpv6(value: string, other: string -> Option<int>) returns (r: Option<seq<int>>)
    ensures r == Ipv6Bytes(value, other)
  {
    var groups := Groups(SourceOf(Lower(Split(value, '%')[0]), other));
    if groups.None? { return None; }
    r := PushGroups(groups.value);
  }

  // ----- The spellings of section 2.2 of RFC 4291 -----

  /** Groups before and after the `::` if there is one, and perhaps a dotted IPv4 tail. */
  datatype Spelling = Spelling(left: seq<string>, elided: bool, right: seq<string>, tail: Option<seq<Byte>>)

  predicate IsSpelledGroup(g: string) {
    1 <= |g| <= 4 && forall c | c in g :: IsHex(c)
  }

  predicate Valid(s: Spelling) {
    && (forall g | g in s.left + s.right :: IsSpelledGroup(g))
    && (s.tail.Some? ==> |s.tail.value| == 4)
    && (s.elided ==> |s.left| + |s.right| + TailGroups(s) <= 7)
    && (!s.elided ==> s.right == [] && |s.left| + TailGroups(s) == 8)
  }

  function TailGroups(s: Spelling): nat {
    if s.tail.Some? then 2 else 0
  }

  function Items(groups: seq<string>, tail: Option<seq<Byte>>): seq<string> {
    groups + if tail.Some? then [Dotted(tail.value)] else []
  }

  function Render(s: Spelling): string {
    if s.elided then Join(s.left, ':') + "::" + Join(Items(s.right, s.tail), ':')
    else Join(Items(s.left, s.tail), ':')
  }

  /** The two bytes of each group in turn. */
  function Pairs(groups: seq<string>): seq<int>
    requires forall g | g in groups :: IsSpelledGroup(g)
  {
    if groups == [] then []
    else
      var g := groups[|groups| - 1];
      assert g in groups && IsSpelledGroup(g);
      Pairs(groups[..|groups| - 1]) + [Parse(g, true) / 256, Parse(g, true) % 256]
  }

  function ZeroBytes(n: nat): seq<int> {
    seq(n, i => 0)
  }

  /** The address a spelling stands for: the elided groups are zero, the tail is its four bytes. */
  function Address(s: Spelling): seq<int>
    requires Valid(s)
  {
    assert forall g | g in s.left :: g in s.left + s.right;
    assert forall g | g in s.right :: g in s.left + s.right;
    Pairs(s.left)
    + ZeroBytes(2 * (8 - |s.left| - |s.right| - TailGroups(s)))
    + Pairs(s.right)
    + if s.tail.Some? then s.tail.value else []
  }

  // ----- Reading back what was written -----

  lemma LowerAppend(a: string, b: string)
    ensures Lower(a + b) == Lower(a) + Lower(b)
  {}

  function Lowered(groups: seq<string>): seq<string> {
    seq(|groups|, i requires 0 <= i < |groups| => Lower(groups[i]))
  }

  lemma {:induction false} LowerJoin(parts: seq<string>)
    ensures Lower(Join(parts, ':')) == Join(Lowered(parts), ':')
  {
    if |parts| <= 1 {
    } else {
      LowerJoin(parts[1..]);
      assert Lowered(parts)[1..] == Lowered(parts[1..]);
      LowerAppend(parts[0] + ":", Join(parts[1..], ':'));
      LowerAppend(parts[0], ":");
      assert Lower(":") == ":";
    }
  }

  lemma {:induction false} LowerParse(g: string)
    requires forall c | c in g :: IsHex(c)
    ensures forall c | c in Lower(g) :: IsLowerHex(c)
    ensures Parse(Lower(g), true) == Parse(g, true)
  {
    if g == "" {
    } else {
      var init := g[..|g| - 1];
      LowerParse(init);
      assert Lower(g)[..|g| - 1] == Lower(init);
      assert g[|g| - 1] in g;
    }
  }

  /** Lower-case groups and no case left in the tail. */
  predicate Plain(s: Spelling) {
    forall g | g in s.left + s.right :: IsGroup(g)
  }

  function LowerSpelling(s: Spelling): (low: Spelling)
    requires Valid(s)
    ensures Valid(low) && Plain(low)
  {
    assert forall g | g in s.left :: g in s.left + s.right;
    assert forall g | g in s.right :: g in s.left + s.right;
    LoweredGroups(s.left);
    LoweredGroups(s.right);
    s.(left := Lowered(s.left), right := Lowered(s.right))
  }

  lemma LoweredGroups(groups: seq<string>)
    requires forall g | g in groups :: IsSpelledGroup(g)
    ensures forall g | g in Lowered(groups) :: IsGroup(g) && IsSpelledGroup(g)
  {
    forall i | 0 <= i < |groups| ensures IsGroup(Lowered(groups)[i]) {
      assert groups[i] in groups;
      LowerParse(groups[i]);
    }
  }

  lemma DottedCharacters(bytes: seq<Byte>)
    ensures forall c | c in Dotted(bytes) :: c == '.' || IsDigit(c)
  {
    JoinCharacters(seq(|bytes|, i requires 0 <= i < |bytes| => Numeral(bytes[i], false)), '.');
  }

  lemma {:induction false} JoinCharacters(parts: seq<string>, sep: char)
    ensures forall c | c in Join(parts, sep) :: c == sep || exists p :: p in parts && c in p
  {
    if |parts| > 1 {
      JoinCharacters(parts[1..], sep);
      forall c | c in Join(parts, sep) ensures c == sep || exists p :: p in parts && c in p {
        if c in Join(parts[1..], sep) && c != sep {
          var p :| p in parts[1..] && c in p;
          assert p in parts;
        }
      }
    } else if |parts| == 1 {
      assert parts[0] in parts;
    }
  }

  /** No two colons side by side, and none at either end. */
  predicate SingleColons(s: string) {
    && (forall i | 0 < i < |s| :: !(s[i - 1] == ':' && s[i] == ':'))
    && (s != "" ==> s[0] != ':' && s[|s| - 1] != ':')
  }

  lemma ColonBetween(first: string, rest: string)
    requires first != "" && ':' !in first
    requires rest != "" && SingleColons(rest)
    ensures SingleColons(first + [':'] + rest)
  {
    var s, n := first + [':'] + rest, |first|;
    assert forall i | 0 <= i < n :: s[i] == first[i] && s[i] != ':';
    assert forall i | n < i < |s| :: s[i] == rest[i - n - 1];
    forall i | 0 < i < |s| ensures !(s[i - 1] == ':' && s[i] == ':') {
      assert i > n + 1 ==> !(rest[(i - n - 1) - 1] == ':' && rest[i - n - 1] == ':');
    }
  }

  lemma {:induction false} JoinedColons(parts: seq<string>)
    requires forall p | p in parts :: p != "" && ':' !in p
    ensures SingleColons(Join(parts, ':'))
    ensures Join(parts, ':') == "" <==> parts == []
  {
    if |parts| > 1 {
      assert forall p | p in parts[1..] :: p in parts;
      JoinedColons(parts[1..]);
      assert parts[0] in parts;
      ColonBetween(parts[0], Join(parts[1..], ':'));
    } else if |parts| == 1 {
      assert parts[0] in parts;
    }
  }

  lemma {:induction false} NoPairInside(s: string)
    requires forall i | 0 < i < |s| :: !(s[i - 1] == ':' && s[i] == ':')
    ensures SplitPairs(s) == [s]
  {
    if |s| < 2 {
    } else {
      assert forall i | 0 < i < |s| - 1 :: s[1..][i - 1] == s[i] && s[1..][i] == s[i + 1];
      assert s[0] == ':' ==> s[1] != ':' by { assert !(s[1 - 1] == ':' && s[1] == ':'); }
      NoPairInside(s[1..]);
      assert [s[0]] + s[1..] == s;
    }
  }

  lemma {:induction false} SplitAtPairFrom(a: string, b: string)
    requires forall i | 0 < i < |a| :: !(a[i - 1] == ':' && a[i] == ':')
    requires a != "" ==> a[|a| - 1] != ':'
    requires SingleColons(b)
    ensures SplitPairs(a + "::" + b) == [a, b]
    decreases |a|
  {
    var s := a + "::" + b;
    if a == "" {
      assert s[2..] == b;
      NoPairInside(b);
    } else {
      assert s[1..] == a[1..] + "::" + b;
      assert forall i | 0 < i < |a| - 1 :: a[1..][i - 1] == a[i] && a[1..][i] == a[i + 1];
      assert |a| > 1 ==> !(a[1 - 1] == ':' && a[1] == ':');
      SplitAtPairFrom(a[1..], b);
      assert [s[0]] + a[1..] == a;
    }
  }

  lemma HalfReads(groups: seq<string>)
    requires forall g | g in groups :: g != "" && ':' !in g
    ensures Half(Join(groups, ':')) == groups
  {
    JoinedColons(groups);
    if groups != [] { SplitOfJoin(groups, ':'); }
  }

  lemma PlainHalves(s: Spelling)
    requires Plain(s)
    ensures forall g | g in s.left + s.right :: g != "" && ':' !in g && '.' !in g
    ensures Half(Join(s.left, ':')) == s.left && Half(Join(s.right, ':')) == s.right
    ensures SingleColons(Join(s.left, ':')) && SingleColons(Join(s.right, ':'))
  {
    assert forall g | g in s.left :: g in s.left + s.right;
    assert forall g | g in s.right :: g in s.left + s.right;
    HalfReads(s.left);
    HalfReads(s.right);
    JoinedColons(s.left);
    JoinedColons(s.right);
  }

  lemma AssembleHalves(a: string, b: string, left: seq<string>, right: seq<string>)
    requires Half(a) == left && Half(b) == right
    ensures |left| + |right| <= 8 ==> Assemble([a, b]) == Some(left + Zeros(8 - |left| - |right|) + right)
    ensures |left| == 8 ==> Assemble([a]) == Some(left + Zeros(0) + [])
  {}

  lemma GroupsOfHalves(a: string, b: string, left: seq<string>, right: seq<string>)
    requires Half(a) == left && Half(b) == right && SingleColons(a) && SingleColons(b)
    ensures |left| + |right| <= 8 ==> Groups(a + "::" + b) == Some(left + Zeros(8 - |left| - |right|) + right)
  {
    SplitAtPairFrom(a, b);
    AssembleHalves(a, b, left, right);
  }

  lemma GroupsOfOne(a: string, left: seq<string>)
    requires Half(a) == left && SingleColons(a) && |left| == 8
    ensures Groups(a) == Some(left + Zeros(0) + [])
  {
    NoPairInside(a);
    AssembleHalves(a, "", left, []);
  }

  /** The groups with the elided ones in place. */
  function Filled(s: Spelling): seq<string> {
    s.left + Zeros(if |s.left| + |s.right| <= 8 then 8 - |s.left| - |s.right| else 0) + s.right
  }

  /** Once the tail is groups, the groups of the text are the groups of the spelling. */
  lemma PlainGroups(s: Spelling)
    requires Plain(s) && Valid(s) && s.tail.None?
    ensures Groups(Render(s)) == Some(Filled(s))
  {
    PlainHalves(s);
    assert s.left + [] == s.left && s.right + [] == s.right;
    GroupsOfHalves(Join(s.left, ':'), Join(s.right, ':'), s.left, s.right);
    if !s.elided { GroupsOfOne(Join(s.left, ':'), s.left); }
  }

  /** The two groups that replace a dotted tail. */
  function TailWords(tail: Option<seq<Byte>>): seq<string>
    requires tail.Some? ==> |tail.value| == 4
  {
    match tail
    case Some(b) => [Numeral(Word(b[0], b[1]), true), Numeral(Word(b[2], b[3]), true)]
    case None => []
  }

  function Expanded(s: Spelling): Spelling
    requires Valid(s)
  {
    if s.elided then s.(right := s.right + TailWords(s.tail), tail := None)
    else s.(left := s.left + TailWords(s.tail), tail := None)
  }

  lemma {:induction false} LastColonOf(prefix: string, last: string)
    requires ':' !in last
    ensures LastIndexOf(prefix + ":" + last, ':') == |prefix|
  {
    var text := prefix + ":" + last;
    if last == "" {
    } else {
      assert last[|last| - 1] in last;
      assert text[..|text| - 1] == prefix + ":" + last[..|last| - 1];
      LastColonOf(prefix, last[..|last| - 1]);
    }
  }

  lemma SourceWithTail(text: string, colon: nat, b: seq<Byte>, other: string -> Option<int>)
    requires LastIndexOf(text, ':') == colon && Ipv4Bytes(text[colon + 1..], other) == Some(b) && |b| == 4
    ensures SourceOf(text, other) == text[..colon] + ":" + Join(TailWords(Some(b)), ':')
  {
    var words := TailWords(Some(b));
    JoinTwo(words[0], words[1]);
    assert SourceOf(text, other) == text[..colon] + ":" + words[0] + ":" + words[1];
    TwoColons(text[..colon], words[0], words[1]);
  }

  lemma JoinTwo(first: string, second: string)
    ensures Join([first, second], ':') == first + ":" + second
  {
    assert [first, second][1..] == [second];
  }

  lemma TwoColons(a: string, b: string, c: string)
    ensures a + ":" + b + ":" + c == a + ":" + (b + ":" + c)
  {}

  lemma DottedSource(prefix: string, tail: seq<Byte>, other: string -> Option<int>)
    requires |tail| == 4
    ensures SourceOf(prefix + ":" + Dotted(tail), other) == prefix + ":" + Join(TailWords(Some(tail)), ':')
  {
    var text := prefix + ":" + Dotted(tail);
    DottedCharacters(tail);
    LastColonOf(prefix, Dotted(tail));
    assert text[..|prefix|] == prefix && text[|prefix| + 1..] == Dotted(tail);
    DottedReads(tail, other);
    SourceWithTail(text, |prefix|, tail, other);
  }

  lemma JoinTail(groups: seq<string>, items: seq<string>)
    requires groups != [] && items != []
    ensures Join(groups + items, ':') == Join(groups, ':') + ":" + Join(items, ':')
  {
    JoinAppend(groups, items, ':');
  }

  lemma FrontOf(prefix: string, groups: seq<string>, items: seq<string>)
    requires groups != [] && items != []
    ensures prefix + Join(groups + items, ':') == (prefix + Join(groups, ':')) + ":" + Join(items, ':')
  {
    JoinTail(groups, items);
  }

  lemma TailAfterGroups(prefix: string, groups: seq<string>, b: seq<Byte>, other: string -> Option<int>)
    requires groups != [] && |b| == 4
    ensures SourceOf(prefix + Join(groups + [Dotted(b)], ':'), other) == prefix + Join(groups + TailWords(Some(b)), ':')
  {
    FrontOf(prefix, groups, [Dotted(b)]);
    FrontOf(prefix, groups, TailWords(Some(b)));
    DottedSource(prefix + Join(groups, ':'), b, other);
  }

  lemma PairAsColons(left: string, text: string)
    ensures left + "::" + text == (left + ":") + ":" + text
  {}

  lemma TailAlone(left: string, b: seq<Byte>, other: string -> Option<int>)
    requires |b| == 4
    ensures SourceOf(left + "::" + Dotted(b), other) == left + "::" + Join(TailWords(Some(b)), ':')
  {
    PairAsColons(left, Dotted(b));
    PairAsColons(left, Join(TailWords(Some(b)), ':'));
    DottedSource(left + ":", b, other);
  }

  lemma TailBecomesGroups(s: Spelling, other: string -> Option<int>)
    requires Valid(s) && s.tail.Some?
    ensures SourceOf(Render(s), other) == Render(Expanded(s))
  {
    var b, left := s.tail.value, Join(s.left, ':');
    var e, words := Expanded(s), TailWords(s.tail);
    assert Items(e.left, e.tail) == e.left && Items(e.right, e.tail) == e.right;
    if !s.elided {
      TailAfterGroups("", s.left, b, other);
      assert Render(s) == "" + Join(s.left + [Dotted(b)], ':');
      assert Render(e) == "" + Join(s.left + words, ':');
    } else if s.right == [] {
      TailAlone(left, b, other);
      assert Join([Dotted(b)], ':') == Dotted(b) && [] + [Dotted(b)] == [Dotted(b)] && [] + words == words;
    } else {
      TailAfterGroups(left + "::", s.right, b, other);
    }
  }

  lemma NoDotWithoutTail(s: Spelling)
    requires Plain(s) && s.tail.None?
    ensures '.' !in Render(s)
  {
    PlainHalves(s);
    JoinCharacters(s.left, ':');
    JoinCharacters(s.right, ':');
    assert forall g | g in s.left :: g in s.left + s.right;
    assert forall g | g in s.right :: g in s.left + s.right;
    assert Items(s.left, s.tail) == s.left && Items(s.right, s.tail) == s.right;
  }

  lemma DotlessSource(text: string, other: string -> Option<int>)
    requires '.' !in text
    ensures SourceOf(text, other) == text
  {
    var colon := LastIndexOf(text, ':');
    if colon >= 0 { DotlessIsNotIpv4(text[colon + 1..], other); }
  }

  lemma SourceIsExpanded(s: Spelling, other: string -> Option<int>)
    requires Valid(s) && Plain(s)
    ensures SourceOf(Render(s), other) == Render(Expanded(s))
  {
    if s.tail.Some? {
      TailBecomesGroups(s, other);
    } else {
      NoDotWithoutTail(s);
      DotlessSource(Render(s), other);
      assert s.left + [] == s.left && s.right + [] == s.right;
      assert Expanded(s) == s;
    }
  }

  // ----- The bytes of the groups -----

  lemma {:induction false} GroupBytesArePairs(groups: seq<string>)
    requires forall g | g in groups :: IsGroup(g)
    ensures forall g | g in groups :: IsSpelledGroup(g)
    ensures GroupBytes(groups) == Some(Pairs(groups))
  {
    assert forall g | g in groups :: IsSpelledGroup(g);
    if groups == [] {
    } else {
      var init := groups[..|groups| - 1];
      assert forall g | g in init :: g in groups;
      GroupBytesArePairs(init);
      assert groups[|groups| - 1] in groups;
    }
  }

  lemma {:induction false} PairsAppend(a: seq<string>, b: seq<string>)
    requires forall g | g in a + b :: IsSpelledGroup(g)
    ensures (forall g | g in a :: IsSpelledGroup(g)) && (forall g | g in b :: IsSpelledGroup(g))
    ensures Pairs(a + b) == Pairs(a) + Pairs(b)
  {
    assert forall g | g in a :: g in a + b;
    assert forall g | g in b :: g in a + b;
    if b == [] {
      assert a + b == a;
    } else {
      assert (a + b)[..|a + b| - 1] == a + b[..|b| - 1];
      PairsAppend(a, b[..|b| - 1]);
    }
  }

  lemma {:induction false} PairsOfZeros(n: nat)
    ensures forall g | g in Zeros(n) :: IsGroup(g) && IsSpelledGroup(g)
    ensures Pairs(Zeros(n)) == ZeroBytes(2 * n)
  {
    if n == 0 {
    } else {
      PairsOfZeros(n - 1);
      assert Zeros(n)[..n - 1] == Zeros(n - 1);
      assert Parse("0", true) == 0 by { assert "0"[..0] == ""; }
    }
  }

  lemma {:induction false} PairsLowered(groups: seq<string>)
    requires forall g | g in groups :: IsSpelledGroup(g)
    ensures forall g | g in Lowered(groups) :: IsGroup(g) && IsSpelledGroup(g)
    ensures Pairs(Lowered(groups)) == Pairs(groups)
  {
    if groups == [] {
    } else {
      var init, last := groups[..|groups| - 1], groups[|groups| - 1];
      assert forall g | g in init :: g in groups;
      assert last in groups;
      PairsLowered(init);
      LowerParse(last);
      assert Lowered(groups) == Lowered(init) + [Lower(last)];
      assert Lowered(groups)[..|groups| - 1] == Lowered(init);
    }
  }

  lemma PairOfWord(high: Byte, low: Byte)
    ensures var g := Numeral(Word(high, low), true);
            IsGroup(g) && IsSpelledGroup(g) && Parse(g, true) / 256 == high && Parse(g, true) % 256 == low
  {
    WordNumeral(Word(high, low));
  }

  lemma PairsOfTwo(g: string, h: string)
    requires IsSpelledGroup(g) && IsSpelledGroup(h)
    ensures Pairs([g, h]) == [Parse(g, true) / 256, Parse(g, true) % 256, Parse(h, true) / 256, Parse(h, true) % 256]
  {
    assert [g, h][..1] == [g] && [g][..0] == [];
    assert Pairs([g]) == [] + [Parse(g, true) / 256, Parse(g, true) % 256];
  }

  lemma PairsOfTail(b: seq<Byte>)
    requires |b| == 4
    ensures forall g | g in TailWords(Some(b)) :: IsGroup(g) && IsSpelledGroup(g)
    ensures Pairs(TailWords(Some(b))) == b
  {
    PairOfWord(b[0], b[1]);
    PairOfWord(b[2], b[3]);
    PairsOfTwo(Numeral(Word(b[0], b[1]), true), Numeral(Word(b[2], b[3]), true));
  }

  lemma ExpandedIsPlain(s: Spelling)
    requires Valid(s) && Plain(s)
    ensures Plain(Expanded(s)) && Valid(Expanded(s)) && Expanded(s).tail.None?
  {
    var e := Expanded(s);
    if s.tail.Some? { PairsOfTail(s.tail.value); }
    forall g | g in e.left + e.right ensures IsGroup(g) && IsSpelledGroup(g) {
      assert g in s.left + s.right || g in TailWords(s.tail);
    }
  }

  lemma BytesOfParts(left: seq<string>, n: nat, right: seq<string>)
    requires (forall g | g in left :: IsGroup(g)) && (forall g | g in right :: IsGroup(g))
    ensures (forall g | g in left :: IsSpelledGroup(g)) && (forall g | g in right :: IsSpelledGroup(g))
    ensures GroupBytes(left + Zeros(n) + right) == Some(Pairs(left) + ZeroBytes(2 * n) + Pairs(right))
  {
    PairsOfZeros(n);
    var groups := left + Zeros(n) + right;
    assert forall g | g in groups :: g in left || g in right || g in Zeros(n);
    GroupBytesArePairs(groups);
    assert (forall g | g in left :: IsSpelledGroup(g)) && (forall g | g in right :: IsSpelledGroup(g));
    PairsAppend(left + Zeros(n), right);
    PairsAppend(left, Zeros(n));
  }

  lemma PairsWithTail(groups: seq<string>, tail: Option<seq<Byte>>)
    requires (forall g | g in groups :: IsSpelledGroup(g)) && (tail.Some? ==> |tail.value| == 4)
    ensures forall g | g in Lowered(groups) + TailWords(tail) :: IsGroup(g) && IsSpelledGroup(g)
    ensures Pairs(Lowered(groups) + TailWords(tail)) == Pairs(groups) + if tail.Some? then tail.value else []
  {
    PairsLowered(groups);
    if tail.Some? {
      PairsOfTail(tail.value);
      PairsAppend(Lowered(groups), TailWords(tail));
    } else {
      assert Lowered(groups) + TailWords(tail) == Lowered(groups);
    }
  }

  lemma BytesWithTail(left: seq<string>, n: nat, right: seq<string>, tail: Option<seq<Byte>>)
    requires (forall g | g in left :: IsSpelledGroup(g)) && (forall g | g in right :: IsSpelledGroup(g))
    requires tail.Some? ==> |tail.value| == 4
    ensures var bytes: seq<int> := if tail.Some? then tail.value else [];
            GroupBytes(Lowered(left) + Zeros(n) + (Lowered(right) + TailWords(tail)))
            == Some(Pairs(left) + ZeroBytes(2 * n) + (Pairs(right) + bytes))
  {
    PairsLowered(left);
    PairsWithTail(right, tail);
    BytesOfParts(Lowered(left), n, Lowered(right) + TailWords(tail));
  }

  lemma SpelledParts(s: Spelling)
    requires Valid(s)
    ensures (forall g | g in s.left :: IsSpelledGroup(g)) && (forall g | g in s.right :: IsSpelledGroup(g))
    ensures |TailWords(s.tail)| == TailGroups(s)
  {
    assert forall g | g in s.left :: g in s.left + s.right;
    assert forall g | g in s.right :: g in s.left + s.right;
  }

  lemma AddressRegrouped(s: Spelling)
    requires Valid(s) && s.elided
    ensures var bytes: seq<int> := if s.tail.Some? then s.tail.value else [];
            var n := 8 - |s.left| - |s.right| - TailGroups(s);
            Address(s) == Pairs(s.left) + ZeroBytes(2 * n) + (Pairs(s.right) + bytes)
  {}

  lemma AddressElided(s: Spelling)
    requires Valid(s) && s.elided
    ensures var right := Lowered(s.right) + TailWords(s.tail);
            |s.left| + |right| <= 8
            && GroupBytes(Lowered(s.left) + Zeros(8 - |s.left| - |right|) + right) == Some(Address(s))
  {
    SpelledParts(s);
    AddressRegrouped(s);
    BytesWithTail(s.left, 8 - |s.left| - |s.right| - TailGroups(s), s.right, s.tail);
  }

  lemma AddressUnelided(s: Spelling)
    requires Valid(s) && !s.elided
    ensures var bytes: seq<int> := if s.tail.Some? then s.tail.value else [];
            Address(s) == Pairs([]) + ZeroBytes(0) + (Pairs(s.left) + bytes)
  {}

  lemma AddressInFull(s: Spelling)
    requires Valid(s) && !s.elided
    ensures var left := Lowered(s.left) + TailWords(s.tail);
            |left| == 8 && GroupBytes(left + Zeros(0) + []) == Some(Address(s))
  {
    SpelledParts(s);
    var left, none: seq<string> := Lowered(s.left) + TailWords(s.tail), [];
    BytesWithTail([], 0, s.left, s.tail);
    assert Lowered(none) + Zeros(0) + left == left + Zeros(0) + none;
    AddressUnelided(s);
  }

  /** All groups of a spelling: lower case, the tail written out, the elided ones in place. */
  function AllGroups(s: Spelling): seq<string>
    requires Valid(s)
  {
    Filled(Expanded(LowerSpelling(s)))
  }

  lemma AddressOfGroups(s: Spelling)
    requires Valid(s)
    ensures GroupBytes(AllGroups(s)) == Some(Address(s))
  {
    if s.elided { AddressElided(s); } else { AddressInFull(s); }
  }

  lemma DottedIsLower(bytes: seq<Byte>)
    ensures Lower(Dotted(bytes)) == Dotted(bytes)
  {
    DottedCharacters(bytes);
    assert forall i | 0 <= i < |Dotted(bytes)| :: Dotted(bytes)[i] in Dotted(bytes);
  }

  lemma LowerItems(groups: seq<string>, tail: Option<seq<Byte>>)
    ensures Lower(Join(Items(groups, tail), ':')) == Join(Items(Lowered(groups), tail), ':')
  {
    LowerJoin(Items(groups, tail));
    if tail.Some? {
      DottedIsLower(tail.value);
      assert Lowered(groups + [Dotted(tail.value)]) == Lowered(groups) + [Dotted(tail.value)];
    } else {
      assert Items(groups, tail) == groups && Items(Lowered(groups), tail) == Lowered(groups);
    }
  }

  lemma LowerPair(left: string, right: string)
    ensures Lower(left + "::" + right) == Lower(left) + "::" + Lower(right)
  {
    LowerAppend(left + "::", right);
    LowerAppend(left, "::");
    assert Lower("::") == "::";
  }

  lemma LowerRender(s: Spelling)
    requires Valid(s)
    ensures Lower(Render(s)) == Render(LowerSpelling(s))
  {
    LowerItems(s.left, s.tail);
    LowerItems(s.right, s.tail);
    LowerJoin(s.left);
    LowerPair(Join(s.left, ':'), Join(Items(s.right, s.tail), ':'));
  }

  lemma NoPercentInItems(groups: seq<string>, tail: Option<seq<Byte>>)
    requires forall g | g in groups :: IsSpelledGroup(g)
    ensures '%' !in Join(groups, ':') && '%' !in Join(Items(groups, tail), ':')
  {
    JoinCharacters(groups, ':');
    JoinCharacters(Items(groups, tail), ':');
    if tail.Some? { DottedCharacters(tail.value); }
  }

  lemma NoPercent(s: Spelling)
    requires Valid(s)
    ensures '%' !in Render(s)
  {
    SpelledParts(s);
    NoPercentInItems(s.left, s.tail);
    NoPercentInItems(s.right, s.tail);
  }

  lemma ZoneDropped(text: string, zone: string)
    requires '%' !in text && (zone == "" || zone[0] == '%')
    ensures Split(text + zone, '%')[0] == text
  {
    SplitWhole(text, '%');
    if zone == "" {
      assert text + zone == text;
    } else {
      assert text + zone == text + ['%'] + zone[1..];
      SplitAppend(text, zone[1..], '%');
    }
  }

  lemma TextRead(s: Spelling, zone: string)
    requires Valid(s) && (zone == "" || zone[0] == '%')
    ensures Lower(Split(Render(s) + zone, '%')[0]) == Render(LowerSpelling(s))
  {
    LowerRender(s);
    NoPercent(s);
    ZoneDropped(Render(s), zone);
  }

  lemma GroupsRead(s: Spelling, other: string -> Option<int>)
    requires Valid(s)
    ensures Groups(SourceOf(Render(LowerSpelling(s)), other)) == Some(AllGroups(s))
  {
    var low := LowerSpelling(s);
    SourceIsExpanded(low, other);
    ExpandedIsPlain(low);
    PlainGroups(Expanded(low));
  }

  /** Every spelling of an address, in either case, with or without a zone, reads as its bytes. */
  lemma SpellingReads(s: Spelling, zone: string, other: string -> Option<int>)
    requires Valid(s) && (zone == "" || zone[0] == '%')
    ensures Ipv6Bytes(Render(s) + zone, other) == Some(Address(s))
  {
    TextRead(s, zone);
    GroupsRead(s, other);
    AddressOfGroups(s);
  }

  /** Every address has a spelling: its eight groups in full. */
  function Words(bytes: seq<Byte>, n: nat): seq<string>
    requires 2 * n <= |bytes|
  {
    if n == 0 then [] else Words(bytes, n - 1) + [Numeral(Word(bytes[2 * n - 2], bytes[2 * n - 1]), true)]
  }

  function FullSpelling(bytes: seq<Byte>): Spelling
    requires |bytes| == 16
  {
    Spelling(Words(bytes, |bytes| / 2), false, [], None)
  }

  lemma LastWord(groups: seq<string>, high: Byte, low: Byte)
    requires forall g | g in groups :: IsSpelledGroup(g)
    ensures forall g | g in groups + [Numeral(Word(high, low), true)] :: IsSpelledGroup(g)
    ensures Pairs(groups + [Numeral(Word(high, low), true)]) == Pairs(groups) + [high as int, low as int]
  {
    var g := Numeral(Word(high, low), true);
    PairOfWord(high, low);
    assert (groups + [g])[..|groups|] == groups;
  }

  lemma {:induction false} WordsRead(bytes: seq<Byte>, n: nat)
    requires 2 * n <= |bytes|
    ensures |Words(bytes, n)| == n && forall g | g in Words(bytes, n) :: IsSpelledGroup(g)
    ensures Pairs(Words(bytes, n)) == bytes[..2 * n]
  {
    if n == 0 {
    } else {
      WordsRead(bytes, n - 1);
      WordsNext(bytes, n, Words(bytes, n - 1), Words(bytes, n));
    }
  }

  lemma WordsNext(bytes: seq<Byte>, n: nat, before: seq<string>, groups: seq<string>)
    requires 0 < 2 * n <= |bytes| && |before| == n - 1 && forall g | g in before :: IsSpelledGroup(g)
    requires groups == before + [Numeral(Word(bytes[2 * n - 2], bytes[2 * n - 1]), true)]
    requires Pairs(before) == bytes[..2 * (n - 1)]
    ensures |groups| == n && forall g | g in groups :: IsSpelledGroup(g)
    ensures Pairs(groups) == bytes[..2 * n]
  {
    LastWord(before, bytes[2 * n - 2], bytes[2 * n - 1]);
    TwoMore(bytes, 2 * n);
  }

  lemma TwoMore(bytes: seq<Byte>, n: nat)
    requires 2 <= n <= |bytes|
    ensures bytes[..n - 2] + [bytes[n - 2], bytes[n - 1]] == bytes[..n]
  {}

  lemma FullForm(bytes: seq<Byte>, words: seq<string>)
    requires |words| == 8 && (forall g | g in words :: IsSpelledGroup(g)) && Pairs(words) == bytes
    ensures var s := Spelling(words, false, [], None); Valid(s) && Address(s) == bytes
  {
    var s := Spelling(words, false, [], None);
    assert words + [] == words;
    assert Address(s) == Pairs(words) + ZeroBytes(0) + Pairs([]) + [];
  }

  lemma EveryAddressIsSpelled(bytes: seq<Byte>)
    requires |bytes| == 16
    ensures Valid(FullSpelling(bytes)) && Address(FullSpelling(bytes)) == bytes
  {
    var n := |bytes| / 2;
    WordsRead(bytes, n);
    assert bytes[..2 * n] == bytes;
    FullForm(bytes, Words(bytes, n));
  }

  /** The digits of a group are the sixteen, in either case, and its numerals are at most four. */
  lemma SpelledGroupIff(g: string)
    ensures IsSpelledGroup(g) <==>
            && (|g| == 1 || |g| == 2 || |g| == 3 || |g| == 4)
            && forall i | 0 <= i < |g| :: g[i] in "0123456789abcdefABCDEF"
  {
    HexDigitsAre();
    assert forall i | 0 <= i < |g| :: g[i] in g;
  }

  lemma HexDigitsAre()
    ensures forall c :: IsHex(c) <==> c in "0123456789abcdefABCDEF"
  {
    var digits := "0123456789abcdefABCDEF";
    forall c | IsHex(c)
      ensures c in digits
    {
      var i := if c <= '9' then c as int - '0' as int
               else if c <= 'F' then 16 + (c as int - 'A' as int) else 10 + (c as int - 'a' as int);
      assert digits[i] == c;
    }
  }
}
