/** Strings as the scripts use them: splitting, joining, case, trimming. */
module Text {

  datatype Option<+T> = None | Some(value: T)

  type Byte = n: nat | n < 256

  function Concat<T>(chunks: seq<seq<T>>): seq<T> {
    if chunks == [] then [] else Concat(chunks[..|chunks| - 1]) + chunks[|chunks| - 1]
  }

  predicate StartsWith(s: string, prefix: string) {
    prefix <= s
  }

  predicate EndsWith(s: string, suffix: string) {
    |suffix| <= |s| && s[|s| - |suffix|..] == suffix
  }

  function Join(parts: seq<string>, sep: char): string {
    if parts == [] then ""
    else if |parts| == 1 then parts[0]
    else parts[0] + [sep] + Join(parts[1..], sep)
  }

  /** `s.split(sep)` for a one-character separator: the only way to cut `s` at every separator. */
  function Split(s: string, sep: char): (parts: seq<string>)
    ensures parts != []
    ensures forall p | p in parts :: sep !in p
    ensures Join(parts, sep) == s
  {
    if s == "" then [""]
    else
      var rest := Split(s[1..], sep);
      if s[0] == sep then
        assert Join([""] + rest, sep) == [sep] + Join(rest, sep) by { assert ([""] + rest)[1..] == rest; }
        [""] + rest
      else
        var parts := [[s[0]] + rest[0]] + rest[1..];
        assert Join(parts, sep) == [s[0]] + Join(rest, sep) by { assert parts[1..] == rest[1..]; }
        parts
  }

  lemma {:induction false} SplitOfJoin(parts: seq<string>, sep: char)
    requires parts != []
    requires forall p | p in parts :: sep !in p
    ensures Split(Join(parts, sep), sep) == parts
    decreases |parts|, |parts[0]|
  {
    var s := Join(parts, sep);
    if parts[0] == "" {
      if |parts| > 1 {
        assert s[1..] == Join(parts[1..], sep);
        SplitOfJoin(parts[1..], sep);
      }
    } else {
      var shorter := [parts[0][1..]] + parts[1..];
      assert forall p | p in shorter :: sep !in p by {
        assert forall p | p in parts[1..] :: p in parts;
        assert parts[0] in parts;
      }
      assert s[0] == parts[0][0] && s[0] != sep by { assert parts[0] in parts; assert parts[0][0] in parts[0]; }
      assert s[1..] == Join(shorter, sep) by { assert shorter[1..] == parts[1..]; }
      SplitOfJoin(shorter, sep);
      assert [s[0]] + shorter[0] == parts[0];
    }
  }

  lemma {:induction false} JoinAppend(left: seq<string>, right: seq<string>, sep: char)
    requires left != [] && right != []
    ensures Join(left + right, sep) == Join(left, sep) + [sep] + Join(right, sep)
  {
    assert (left + right)[1..] == left[1..] + right;
    if |left| <= 1 {
    } else {
      JoinAppend(left[1..], right, sep);
      assert Join(left + right, sep) == left[0] + [sep] + (Join(left[1..], sep) + [sep] + Join(right, sep));
    }
  }

  lemma {:induction false} SplitAppend(a: string, b: string, sep: char)
    ensures Split(a + [sep] + b, sep) == Split(a, sep) + Split(b, sep)
  {
    var parts := Split(a, sep) + Split(b, sep);
    JoinAppend(Split(a, sep), Split(b, sep), sep);
    SplitOfJoin(parts, sep);
  }

  /** Without a separator there is nothing to cut. */
  lemma SplitWhole(s: string, sep: char)
    requires sep !in s
    ensures Split(s, sep) == [s]
  {
    SplitOfJoin([s], sep);
  }

  /** `text.split(/\r?\n/)`: a carriage return before a line feed belongs to the separator. */
  function WithoutCr(line: string): string {
    if line != "" && line[|line| - 1] == '\r' then line[..|line| - 1] else line
  }

  function StripBreaks(parts: seq<string>): seq<string> {
    seq(|parts|, i requires 0 <= i < |parts| => if i + 1 < |parts| then WithoutCr(parts[i]) else parts[i])
  }

  function Lines(text: string): seq<string> {
    StripBreaks(Split(text, '\n'))
  }

  /** A text with every quote doubled, as inside a quoted text. */
  function Doubled(value: string, quote: char): string {
    if value == "" then ""
    else (if value[0] == quote then [quote, quote] else [value[0]]) + Doubled(value[1..], quote)
  }

  /** White space and line terminators, as `String.prototype.trim` strips them. */
  predicate IsSpace(c: char) {
    || '\t' <= c <= '\r' || c == ' ' || c == '\U{00A0}' || c == '\U{1680}' || '\U{2000}' <= c <= '\U{200A}'
    || c == '\U{2028}' || c == '\U{2029}' || c == '\U{202F}' || c == '\U{205F}' || c == '\U{3000}' || c == '\U{FEFF}'
  }

  function TrimStart(s: string): (r: string)
    ensures r != "" ==> !IsSpace(r[0])
  {
    if s != "" && IsSpace(s[0]) then TrimStart(s[1..]) else s
  }

  function TrimEnd(s: string): (r: string)
    ensures r <= s
    ensures r != "" ==> !IsSpace(r[|r| - 1])
    ensures forall i | |r| <= i < |s| :: IsSpace(s[i])
  {
    if s != "" && IsSpace(s[|s| - 1]) then TrimEnd(s[..|s| - 1]) else s
  }

  function Trim(s: string): (r: string)
    ensures r != "" ==> !IsSpace(r[0]) && !IsSpace(r[|r| - 1])
  {
    TrimEnd(TrimStart(s))
  }

  predicate Trimmed(s: string) {
    s != "" ==> !IsSpace(s[0]) && !IsSpace(s[|s| - 1])
  }

  lemma TrimOfTrimmed(s: string)
    requires Trimmed(s)
    ensures Trim(s) == s
  {}

  function LowerChar(c: char): char {
    if 'A' <= c <= 'Z' then (c as int + 32) as char else c
  }

  /** ASCII lower-casing, character by character. */
  function Lower(s: string): (r: string)
    ensures |r| == |s|
    ensures forall i | 0 <= i < |s| :: r[i] == LowerChar(s[i])
  {
    seq(|s|, i requires 0 <= i < |s| => LowerChar(s[i]))
  }
}
