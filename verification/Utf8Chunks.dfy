/** UTF-8 read chunk by chunk: what becomes of a character that lies in two chunks, and when that shows
    in the first bytes of the result. */
module Utf8Chunks {
  import opened Text
  import opened Utf8

  /** Where the bytes of a character begin. */
  function At(text: string, j: nat): nat
    requires j <= |text|
  {
    |Encode(text[..j])|
  }

  /** How many bytes the first chunks have. */
  function EndOf(chunks: seq<seq<Byte>>, m: nat): nat
    requires m <= |chunks|
  {
    |Concat(chunks[..m])|
  }

  /** Some chunk ends inside this character. */
  ghost predicate Torn(text: string, chunks: seq<seq<Byte>>, j: nat)
    requires j < |text|
  {
    exists m | 0 <= m <= |chunks| :: At(text, j) < EndOf(chunks, m) < At(text, j + 1)
  }

  lemma SliceOfJoin<T>(a: seq<T>, b: seq<T>, c: seq<T>)
    ensures (a + b + c)[|a|..|a| + |b|] == b
  {}

  lemma EncodeUpTo(before: string, c: char)
    ensures Encode(before + [c]) == Encode(before) + Bytes(c)
  {
    EncodeFirst(c, "");
    assert [c] + "" == [c];
    EncodeAppend(before, [c]);
  }

  lemma EncodeAround(before: string, c: char, after: string)
    ensures Encode(before + [c] + after) == Encode(before) + Bytes(c) + Encode(after)
    ensures |Encode(before + [c])| == |Encode(before)| + |Bytes(c)|
  {
    EncodeUpTo(before, c);
    EncodeAppend(before + [c], after);
  }

  lemma AtNext(text: string, j: nat)
    requires j < |text|
    ensures At(text, j + 1) == At(text, j) + |Bytes(text[j])|
    ensures At(text, j + 1) <= |Encode(text)|
    ensures Encode(text)[At(text, j)..At(text, j + 1)] == Bytes(text[j])
  {
    var before, after := text[..j], text[j + 1..];
    assert text[..j + 1] == before + [text[j]] && text == before + [text[j]] + after;
    EncodeAround(before, text[j], after);
    SliceOfJoin(Encode(before), Bytes(text[j]), Encode(after));
  }

  lemma AtEnds(text: string)
    ensures At(text, 0) == 0 && At(text, |text|) == |Encode(text)|
  {
    assert text[..0] == "" && text[..|text|] == text;
  }

  lemma {:induction false} AtGrows(text: string, i: nat, j: nat)
    requires i <= j <= |text|
    ensures At(text, i) + j - i <= At(text, j)
  {
    if i == j {
    } else {
      AtGrows(text, i, j - 1);
      AtNext(text, j - 1);
    }
  }

  lemma AtMonotone(text: string)
    ensures forall i, j | 0 <= i <= j <= |text| :: At(text, i) <= At(text, j)
  {
    forall i, j | 0 <= i <= j <= |text| ensures At(text, i) <= At(text, j) { AtGrows(text, i, j); }
  }

  lemma EndNext(chunks: seq<seq<Byte>>, m: nat)
    requires m < |chunks|
    ensures Concat(chunks[..m + 1]) == Concat(chunks[..m]) + chunks[m]
  {
    assert chunks[..m + 1][..m] == chunks[..m];
  }

  lemma {:induction false} EndGrows(chunks: seq<seq<Byte>>, l: nat, m: nat)
    requires l <= m <= |chunks|
    ensures Concat(chunks[..l]) <= Concat(chunks[..m])
  {
    if l == m {
    } else {
      EndGrows(chunks, l, m - 1);
      EndNext(chunks, m - 1);
    }
  }

  /** A chunk lies in the stream between the end of the one before it and its own. */
  lemma ChunkAt(chunks: seq<seq<Byte>>, m: nat)
    requires m < |chunks|
    ensures EndOf(chunks, m) <= EndOf(chunks, m + 1) <= |Concat(chunks)|
    ensures Concat(chunks)[EndOf(chunks, m)..EndOf(chunks, m + 1)] == chunks[m]
  {
    EndNext(chunks, m);
    EndGrows(chunks, m + 1, |chunks|);
    assert chunks[..|chunks|] == chunks;
    var to, s := Concat(chunks[..m + 1]), Concat(chunks);
    assert s == to + s[|to|..];
    SliceOfJoin(Concat(chunks[..m]), chunks[m], s[|to|..]);
  }

  // ----- The stream read from a position to the next end of a chunk -----

  ghost function Ends(chunks: seq<seq<Byte>>): set<nat> {
    set m | 0 <= m <= |chunks| :: EndOf(chunks, m)
  }

  ghost function NextEnd(size: nat, ends: set<nat>, at: nat): (end: nat)
    requires at < size
    ensures at < end <= size && (end in ends || end == size)
    ensures forall p | at < p < end :: p !in ends
    decreases size - at
  {
    if at + 1 == size || at + 1 in ends then at + 1 else NextEnd(size, ends, at + 1)
  }

  type Reader = seq<Byte> -> string

  ghost function ReadFrom(read: Reader, s: seq<Byte>, ends: set<nat>, at: nat): string
    requires at <= |s|
    decreases |s| - at
  {
    if at == |s| then ""
    else
      var end := NextEnd(|s|, ends, at);
      read(s[at..end]) + ReadFrom(read, s, ends, end)
  }

  lemma PieceReads(read: Reader, s: seq<Byte>, ends: set<nat>, a: nat, b: nat)
    requires read([]) == "" && a <= b <= |s| && (b in ends || b == |s|)
    requires forall p | a < p < b :: p !in ends
    ensures ReadFrom(read, s, ends, a) == read(s[a..b]) + ReadFrom(read, s, ends, b)
  {
    if a == b {
      assert s[a..b] == [];
    } else {
      assert NextEnd(|s|, ends, a) == b;
    }
  }

  lemma Regroup(a: string, b: string, c: string)
    ensures a + (b + c) == a + b + c
  {}

  /** What is read next is read from the rest of the chunk. */
  lemma PieceStep(read: Reader, s: seq<Byte>, ends: set<nat>, a: nat, b: nat, c: char, n: nat)
    requires read([]) == "" && a + n <= b <= |s| && (b in ends || b == |s|)
    requires forall p | a < p < b :: p !in ends
    requires read(s[a..b]) == [c] + read(s[a + n..b])
    ensures ReadFrom(read, s, ends, a) == [c] + ReadFrom(read, s, ends, a + n)
  {
    PieceReads(read, s, ends, a, b);
    PieceReads(read, s, ends, a + n, b);
    Regroup([c], read(s[a + n..b]), ReadFrom(read, s, ends, b));
  }

  function Marks(n: nat): string {
    seq(n, _ => REPLACEMENT)
  }

  lemma MarksMore(n: nat, rest: string)
    ensures [REPLACEMENT] + (Marks(n) + rest) == Marks(n + 1) + rest
  {}

  /** A byte that is read by itself, as a mark. */
  ghost predicate Stray(read: Reader, s: seq<Byte>, i: nat) {
    forall end | i < end <= |s| :: read(s[i..end]) == [REPLACEMENT] + read(s[i + 1..end])
  }

  lemma {:induction false} StraysRead(read: Reader, s: seq<Byte>, ends: set<nat>, a: nat, b: nat)
    requires read([]) == "" && a <= b <= |s| && forall i | a <= i < b :: Stray(read, s, i)
    ensures ReadFrom(read, s, ends, a) == Marks(b - a) + ReadFrom(read, s, ends, b)
    decreases b - a
  {
    if a == b {
    } else {
      assert Stray(read, s, a);
      PieceStep(read, s, ends, a, NextEnd(|s|, ends, a), REPLACEMENT, 1);
      StraysRead(read, s, ends, a + 1, b);
      MarksMore(b - a - 1, ReadFrom(read, s, ends, b));
    }
  }

  // ----- The chunks read one by one -----

  lemma NoEndInside(chunks: seq<seq<Byte>>, m: nat)
    requires m < |chunks|
    ensures forall p | EndOf(chunks, m) < p < EndOf(chunks, m + 1) :: p !in Ends(chunks)
  {
    forall l | 0 <= l <= |chunks|
      ensures EndOf(chunks, l) <= EndOf(chunks, m) || EndOf(chunks, m + 1) <= EndOf(chunks, l)
    {
      if l <= m { EndGrows(chunks, l, m); } else { EndGrows(chunks, m + 1, l); }
    }
  }

  lemma ChunkReads(chunks: seq<seq<Byte>>, m: nat, read: Reader)
    requires m < |chunks| && read([]) == ""
    ensures EndOf(chunks, m) <= EndOf(chunks, m + 1) <= |Concat(chunks)|
    ensures ReadFrom(read, Concat(chunks), Ends(chunks), EndOf(chunks, m))
            == read(chunks[m]) + ReadFrom(read, Concat(chunks), Ends(chunks), EndOf(chunks, m + 1))
  {
    ChunkAt(chunks, m);
    NoEndInside(chunks, m);
    PieceReads(read, Concat(chunks), Ends(chunks), EndOf(chunks, m), EndOf(chunks, m + 1));
  }

  lemma EachNext(chunks: seq<seq<Byte>>, m: nat)
    requires m < |chunks|
    ensures DecodeEach(chunks[..m + 1]) == DecodeEach(chunks[..m]) + Decode(chunks[m])
  {
    assert chunks[..m + 1][..m] == chunks[..m];
  }

  /** `each(m)` is what the first `m` chunks are read as. */
  lemma {:induction false} FirstChunksRead(read: Reader, each: nat -> string, chunks: seq<seq<Byte>>, m: nat)
    requires read([]) == "" && each(0) == "" && m <= |chunks|
    requires forall k | 0 <= k < |chunks| :: each(k + 1) == each(k) + read(chunks[k])
    ensures EndOf(chunks, m) <= |Concat(chunks)|
    ensures ReadFrom(read, Concat(chunks), Ends(chunks), 0)
            == each(m) + ReadFrom(read, Concat(chunks), Ends(chunks), EndOf(chunks, m))
  {
    if m == 0 {
      assert chunks[..0] == [];
    } else {
      FirstChunksRead(read, each, chunks, m - 1);
      ChunkReads(chunks, m - 1, read);
      assert each(m - 1 + 1) == each(m - 1) + read(chunks[m - 1]);
      Regroup(each(m - 1), read(chunks[m - 1]), ReadFrom(read, Concat(chunks), Ends(chunks), EndOf(chunks, m)));
    }
  }

  lemma EachIsReadFrom(chunks: seq<seq<Byte>>)
    ensures DecodeEach(chunks) == ReadFrom(Decode, Concat(chunks), Ends(chunks), 0)
  {
    var each := (m: nat) => if m <= |chunks| then DecodeEach(chunks[..m]) else "";
    forall k | 0 <= k < |chunks|
      ensures each(k + 1) == each(k) + Decode(chunks[k])
    {
      EachNext(chunks, k);
    }
    FirstChunksRead(Decode, each, chunks, |chunks|);
    assert chunks[..|chunks|] == chunks && chunks[..0] == [];
  }

  // ----- One character -----

  /** Bytes that are read as this character if they are in one chunk. */
  ghost predicate Intact(read: Reader, s: seq<Byte>, at: nat, to: nat, c: char) {
    forall end | at <= to <= end <= |s| :: read(s[at..end]) == [c] + read(s[to..end])
  }

  /** Bytes whose first ones are read as a mark, and each later one too. */
  ghost predicate Fragile(read: Reader, s: seq<Byte>, at: nat, to: nat) {
    && (forall end | at < end < to && end <= |s| :: read(s[at..end]) == [REPLACEMENT] + read(s[end..end]))
    && (forall i | at < i < to :: Stray(read, s, i))
  }

  lemma IntactReads(read: Reader, s: seq<Byte>, ends: set<nat>, at: nat, to: nat, c: char)
    requires read([]) == "" && at < to <= |s| && Intact(read, s, at, to, c)
    requires forall p | at < p < to :: p !in ends
    ensures ReadFrom(read, s, ends, at) == [c] + ReadFrom(read, s, ends, to)
  {
    var end := NextEnd(|s|, ends, at);
    PieceStep(read, s, ends, at, end, c, to - at);
  }

  lemma TornReads(read: Reader, s: seq<Byte>, ends: set<nat>, at: nat, to: nat)
    requires read([]) == "" && at < to <= |s| && Fragile(read, s, at, to)
    requires exists p | at < p < to :: p in ends
    ensures var end := NextEnd(|s|, ends, at);
            end < to && ReadFrom(read, s, ends, at) == Marks(1 + to - end) + ReadFrom(read, s, ends, to)
  {
    var end := NextEnd(|s|, ends, at);
    assert end < to;
    FirstPartReads(read, s, ends, at, end, to);
    StraysRead(read, s, ends, end, to);
    MarksMore(to - end, ReadFrom(read, s, ends, to));
  }

  lemma FirstPartReads(read: Reader, s: seq<Byte>, ends: set<nat>, at: nat, end: nat, to: nat)
    requires read([]) == "" && at < end < to <= |s| && Fragile(read, s, at, to)
    requires end in ends && forall p | at < p < end :: p !in ends
    ensures ReadFrom(read, s, ends, at) == [REPLACEMENT] + ReadFrom(read, s, ends, end)
  {
    PieceStep(read, s, ends, at, end, REPLACEMENT, end - at);
  }

  lemma DecodeStep(s: seq<Byte>, a: nat, b: nat, r: Read)
    requires a < b <= |s| && Next(s[a..b]) == r
    ensures Decode(s[a..b]) == [r.c] + Decode(s[a + r.length..b])
  {
    assert s[a..b][r.length..] == s[a + r.length..b];
  }

  lemma Slices(s: seq<Byte>, a: nat, b: nat, c: nat)
    requires a <= b <= c <= |s|
    ensures s[a..c] == s[a..b] + s[b..c] && s[a..b] == s[a..c][..b - a]
  {}

  lemma WholeNext(s: seq<Byte>, at: nat, end: nat, c: char)
    requires at + |Bytes(c)| <= end <= |s| && s[at..at + |Bytes(c)|] == Bytes(c)
    ensures Next(s[at..end]) == Read(c, |Bytes(c)|)
  {
    Slices(s, at, at + |Bytes(c)|, end);
    NextWhole(c, s[at + |Bytes(c)|..end]);
  }

  lemma CutNext(s: seq<Byte>, at: nat, end: nat, c: char)
    requires at < end < at + |Bytes(c)| <= |s| && s[at..at + |Bytes(c)|] == Bytes(c)
    ensures Next(s[at..end]) == Replaced(end - at)
  {
    Slices(s, at, end, at + |Bytes(c)|);
    NextCut(c, end - at);
  }

  lemma TailContinues(c: char)
    ensures forall i | 0 < i < |Bytes(c)| :: Continues(Bytes(c)[i])
  {}

  /** A byte that only goes on with a character starts none. */
  lemma TailIsStray(s: seq<Byte>, i: nat)
    requires i < |s| && Continues(s[i])
    ensures Stray(Decode, s, i)
  {
    forall end | i < end <= |s|
      ensures Decode(s[i..end]) == [REPLACEMENT] + Decode(s[i + 1..end])
    {
      assert s[i..end][0] == s[i];
      DecodeStep(s, i, end, Replaced(1));
    }
  }

  lemma TailIsStrays(s: seq<Byte>, at: nat, from: nat, c: char)
    requires at < from && at + |Bytes(c)| <= |s| && s[at..at + |Bytes(c)|] == Bytes(c)
    ensures forall i | from <= i < at + |Bytes(c)| :: Stray(Decode, s, i)
  {
    TailContinues(c);
    forall i | from <= i < at + |Bytes(c)|
      ensures Stray(Decode, s, i)
    {
      assert s[i] == Bytes(c)[i - at];
      TailIsStray(s, i);
    }
  }

  lemma CharIsIntact(s: seq<Byte>, at: nat, to: nat, c: char)
    requires at < to <= |s| && s[at..to] == Bytes(c)
    ensures Intact(Decode, s, at, to, c)
  {
    forall end | to <= end <= |s|
      ensures Decode(s[at..end]) == [c] + Decode(s[to..end])
    {
      WholeDecodes(s, at, to, end, c);
    }
  }

  lemma WholeDecodes(s: seq<Byte>, at: nat, to: nat, end: nat, c: char)
    requires at < to <= end <= |s| && s[at..to] == Bytes(c)
    ensures Decode(s[at..end]) == [c] + Decode(s[to..end])
  {
    WholeNext(s, at, end, c);
    DecodeStep(s, at, end, Read(c, to - at));
  }

  lemma CharIsFragile(s: seq<Byte>, at: nat, to: nat, c: char)
    requires at < to <= |s| && s[at..to] == Bytes(c)
    ensures Fragile(Decode, s, at, to)
  {
    forall end | at < end < to
      ensures Decode(s[at..end]) == [REPLACEMENT] + Decode(s[end..end])
    {
      CutNext(s, at, end, c);
      DecodeStep(s, at, end, Replaced(end - at));
    }
    TailIsStrays(s, at, at + 1, c);
  }

  // ----- A text and what it comes out as -----

  /** From each character on: it comes out as itself, or as two marks or more if they are not 0. */
  ghost predicate ComesOut(text: string, marks: nat -> nat, out: nat -> string) {
    out(|text|) == "" && forall j | 0 <= j < |text| :: ComesOutAt(text, marks, out, j)
  }

  ghost predicate ComesOutAt(text: string, marks: nat -> nat, out: nat -> string, j: nat)
    requires j < |text|
  {
    marks(j) != 1 && out(j) == (if marks(j) == 0 then [text[j]] else Marks(marks(j))) + out(j + 1)
  }

  lemma {:induction false} WholeComesOut(text: string, marks: nat -> nat, out: nat -> string, j: nat)
    requires ComesOut(text, marks, out) && j <= |text| && forall i | j <= i < |text| :: marks(i) == 0
    ensures out(j) == text[j..]
    decreases |text| - j
  {
    if j == |text| {
    } else {
      assert ComesOutAt(text, marks, out, j);
      WholeComesOut(text, marks, out, j + 1);
      assert text[j..] == [text[j]] + text[j + 1..];
    }
  }

  lemma CutOfMarks(n: nat, rest: string, b: nat)
    requires n > 0
    ensures b < 3 ==> Cut(Marks(n) + rest, b) == if b == 0 then "" else [REPLACEMENT]
    ensures b >= 3 ==> Cut(Marks(n) + rest, b) == [REPLACEMENT] + Cut(Marks(n - 1) + rest, b - 3)
  {
    MarksMore(n - 1, rest);
    CutFirst(REPLACEMENT, Marks(n - 1) + rest, b);
  }

  lemma CutOfRest(text: string, j: nat, cap: nat)
    requires j < |text| && At(text, j) <= cap
    ensures var b := cap - At(text, j);
            Cut(text[j..], b) ==
            if b == 0 then ""
            else if At(text, j + 1) <= cap then [text[j]] + Cut(text[j + 1..], cap - At(text, j + 1))
            else [REPLACEMENT]
  {
    AtNext(text, j);
    assert text[j..] == [text[j]] + text[j + 1..];
    CutFirst(text[j], text[j + 1..], cap - At(text, j));
  }

  ghost predicate OnlyMarks(text: string, j: nat, cap: nat)
    requires j <= |text|
  {
    forall i | j <= i < |text| && At(text, i + 1) <= cap :: text[i] == REPLACEMENT
  }

  lemma OnlyMarksFrom(text: string, j: nat, cap: nat)
    requires j < |text|
    ensures At(text, j + 1) > cap ==> OnlyMarks(text, j, cap)
    ensures At(text, j + 1) <= cap ==>
            (OnlyMarks(text, j, cap) <==> text[j] == REPLACEMENT && OnlyMarks(text, j + 1, cap))
  {
    AtMonotone(text);
  }

  lemma MarksJoin(m: nat, n: nat, rest: string)
    ensures Marks(m) + (Marks(n) + rest) == Marks(m + n) + rest
    ensures Marks(m) + ([REPLACEMENT] + rest) == Marks(m + 1) + rest
  {}

  lemma SurplusCut(text: string, j: nat, cap: nat, n: nat, more: string)
    requires j < |text| && n > 0 && At(text, j) <= cap < At(text, j + 1)
    ensures Cut(Marks(n) + more, cap - At(text, j)) == Cut(text[j..], cap - At(text, j))
  {
    AtNext(text, j);
    CutOfRest(text, j, cap);
    CutOfMarks(n, more, cap - At(text, j));
  }

  lemma SurplusStep(text: string, j: nat, cap: nat, n: nat, more: string)
    requires j < |text| && n > 0 && At(text, j + 1) <= cap && At(text, j) <= cap
    ensures Cut(Marks(n) + more, cap - At(text, j)) == Cut(text[j..], cap - At(text, j)) <==>
            && text[j] == REPLACEMENT
            && Cut(Marks(n - 1) + more, cap - At(text, j + 1)) == Cut(text[j + 1..], cap - At(text, j + 1))
  {
    AtNext(text, j);
    CutOfRest(text, j, cap);
    CutOfMarks(n, more, cap - At(text, j));
    var a, b := Cut(Marks(n) + more, cap - At(text, j)), Cut(text[j..], cap - At(text, j));
    assert a[0] == REPLACEMENT && b[0] == text[j];
    if text[j] == REPLACEMENT {
      assert a[1..] == Cut(Marks(n - 1) + more, cap - At(text, j + 1));
      assert b[1..] == Cut(text[j + 1..], cap - At(text, j + 1));
    }
  }

  lemma SurplusNext(text: string, marks: nat -> nat, out: nat -> string, j: nat, n: nat) returns (more: nat)
    requires j < |text| && ComesOutAt(text, marks, out, j) && text[j] == REPLACEMENT
    ensures more > 0 && Marks(n) + out(j) == Marks(more) + out(j + 1)
  {
    MarksJoin(n, marks(j), out(j + 1));
    more := n + if marks(j) == 0 then 1 else marks(j);
  }

  lemma NothingLeft(text: string, cap: nat, a: string, b: string)
    requires At(text, |text|) <= cap <= |Encode(text)|
    ensures Cut(a, cap - At(text, |text|)) == Cut(b, cap - At(text, |text|))
  {
    AtEnds(text);
  }

  /** A surplus mark goes unnoticed exactly when only marks follow within the cap. */
  lemma {:induction false} SurplusMark(text: string, marks: nat -> nat, out: nat -> string, j: nat, n: nat, cap: nat)
    requires ComesOut(text, marks, out) && j <= |text| && n > 0 && At(text, j) <= cap <= |Encode(text)|
    ensures Cut(Marks(n) + out(j), cap - At(text, j)) == Cut(text[j..], cap - At(text, j)) <==>
            OnlyMarks(text, j, cap)
    decreases |text| - j
  {
    if j == |text| {
      NothingLeft(text, cap, Marks(n) + out(j), text[j..]);
    } else {
      assert ComesOutAt(text, marks, out, j);
      OnlyMarksFrom(text, j, cap);
      if At(text, j + 1) > cap {
        SurplusCut(text, j, cap, n, out(j));
        return;
      }
      SurplusStep(text, j, cap, n, out(j));
      if text[j] == REPLACEMENT {
        var more := SurplusNext(text, marks, out, j, n - 1);
        SurplusMark(text, marks, out, j + 1, more, cap);
      }
    }
  }

  /** A torn character, as far as the cap lets it be seen, is followed by marks only. */
  ghost predicate Unnoticed(text: string, marks: nat -> nat, j: nat, cap: nat)
    requires j <= |text|
  {
    forall i | j <= i < |text| && marks(i) != 0 && At(text, i + 1) <= cap :: OnlyMarks(text, i, cap)
  }

  lemma UnnoticedFrom(text: string, marks: nat -> nat, j: nat, cap: nat)
    requires j < |text|
    ensures At(text, j + 1) > cap ==> Unnoticed(text, marks, j, cap)
    ensures At(text, j + 1) <= cap && marks(j) == 0 ==>
            (Unnoticed(text, marks, j, cap) <==> Unnoticed(text, marks, j + 1, cap))
    ensures At(text, j + 1) <= cap && marks(j) != 0 ==>
            (Unnoticed(text, marks, j, cap) <==> OnlyMarks(text, j, cap))
  {
    AtMonotone(text);
  }

  lemma IntactStep(text: string, j: nat, cap: nat, more: string)
    requires j < |text| && At(text, j) <= cap
    ensures At(text, j + 1) <= cap ==>
            (Cut([text[j]] + more, cap - At(text, j)) == Cut(text[j..], cap - At(text, j)) <==>
             Cut(more, cap - At(text, j + 1)) == Cut(text[j + 1..], cap - At(text, j + 1)))
    ensures At(text, j + 1) > cap ==>
            Cut([text[j]] + more, cap - At(text, j)) == Cut(text[j..], cap - At(text, j))
  {
    AtNext(text, j);
    CutOfRest(text, j, cap);
    CutFirst(text[j], more, cap - At(text, j));
    if At(text, j + 1) <= cap {
      var a, b := Cut([text[j]] + more, cap - At(text, j)), Cut(text[j..], cap - At(text, j));
      assert a[1..] == Cut(more, cap - At(text, j + 1)) && b[1..] == Cut(text[j + 1..], cap - At(text, j + 1));
    }
  }

  /** The first bytes of what comes out are those of the text exactly when no tear goes noticed. */
  lemma {:induction false} CutComesOutIff(text: string, marks: nat -> nat, out: nat -> string, j: nat, cap: nat)
    requires ComesOut(text, marks, out) && j <= |text| && At(text, j) <= cap <= |Encode(text)|
    ensures Cut(out(j), cap - At(text, j)) == Cut(text[j..], cap - At(text, j)) <==> Unnoticed(text, marks, j, cap)
    decreases |text| - j
  {
    if j == |text| {
    } else {
      assert ComesOutAt(text, marks, out, j);
      UnnoticedFrom(text, marks, j, cap);
      if marks(j) == 0 {
        IntactStep(text, j, cap, out(j + 1));
        if At(text, j + 1) <= cap { CutComesOutIff(text, marks, out, j + 1, cap); }
      } else if At(text, j + 1) > cap {
        SurplusCut(text, j, cap, marks(j), out(j + 1));
      } else {
        SurplusStep(text, j, cap, marks(j), out(j + 1));
        SurplusMark(text, marks, out, j + 1, marks(j) - 1, cap);
        OnlyMarksFrom(text, j, cap);
      }
    }
  }

  // ----- The text of a stream of chunks -----

  ghost function MarksAt(text: string, chunks: seq<seq<Byte>>, j: nat): nat
    requires j < |text|
  {
    AtNext(text, j);
    if Torn(text, chunks, j) then
      TornInside(text, chunks, j);
      1 + At(text, j + 1) - NextEnd(|Encode(text)|, Ends(chunks), At(text, j))
    else 0
  }

  ghost function OutAt(text: string, chunks: seq<seq<Byte>>, j: nat): string
    requires j <= |text|
  {
    AtEnds(text);
    AtGrows(text, j, |text|);
    ReadFrom(Decode, Encode(text), Ends(chunks), At(text, j))
  }

  lemma TornInside(text: string, chunks: seq<seq<Byte>>, j: nat)
    requires j < |text|
    ensures Torn(text, chunks, j) <==> exists p | At(text, j) < p < At(text, j + 1) :: p in Ends(chunks)
    ensures At(text, j) < At(text, j + 1) <= |Encode(text)|
    ensures Torn(text, chunks, j) ==> NextEnd(|Encode(text)|, Ends(chunks), At(text, j)) < At(text, j + 1)
  {
    AtNext(text, j);
    if Torn(text, chunks, j) {
      var m :| 0 <= m <= |chunks| && At(text, j) < EndOf(chunks, m) < At(text, j + 1);
      assert EndOf(chunks, m) in Ends(chunks);
    }
  }

  lemma CharComesOut(text: string, chunks: seq<seq<Byte>>, j: nat)
    requires j < |text|
    ensures var n := MarksAt(text, chunks, j);
            && (n != 0 <==> Torn(text, chunks, j)) && n != 1
            && OutAt(text, chunks, j) == (if n == 0 then [text[j]] else Marks(n)) + OutAt(text, chunks, j + 1)
  {
    AtNext(text, j);
    TornInside(text, chunks, j);
    if Torn(text, chunks, j) {
      CharIsFragile(Encode(text), At(text, j), At(text, j + 1), text[j]);
      TornReads(Decode, Encode(text), Ends(chunks), At(text, j), At(text, j + 1));
    } else {
      CharIsIntact(Encode(text), At(text, j), At(text, j + 1), text[j]);
      IntactReads(Decode, Encode(text), Ends(chunks), At(text, j), At(text, j + 1), text[j]);
    }
  }

  ghost function MarksOf(text: string, chunks: seq<seq<Byte>>): nat -> nat {
    (j: nat) => if j < |text| then MarksAt(text, chunks, j) else 0
  }

  ghost function OutOf(text: string, chunks: seq<seq<Byte>>): nat -> string {
    (j: nat) => if j <= |text| then OutAt(text, chunks, j) else ""
  }

  lemma TextComesOut(text: string, chunks: seq<seq<Byte>>)
    ensures ComesOut(text, MarksOf(text, chunks), OutOf(text, chunks))
  {
    AtEnds(text);
    forall j | 0 <= j < |text|
      ensures ComesOutAt(text, MarksOf(text, chunks), OutOf(text, chunks), j)
    {
      CharComesOut(text, chunks, j);
    }
  }

  lemma WholeTextComesOut(text: string, chunks: seq<seq<Byte>>)
    requires Concat(chunks) == Encode(text)
    ensures OutOf(text, chunks)(0) == DecodeEach(chunks)
  {
    AtEnds(text);
    EachIsReadFrom(chunks);
  }

  // ----- What comes out whole -----

  /** No character lies in two chunks. */
  ghost predicate Untorn(text: string, chunks: seq<seq<Byte>>) {
    forall j | 0 <= j < |text| :: !Torn(text, chunks, j)
  }

  /** A character begins here, or the text ends. */
  ghost predicate Between(text: string, at: nat) {
    exists k | 0 <= k <= |text| :: At(text, k) == at
  }

  /** Every chunk ends where a character does. */
  ghost predicate EndsBetween(text: string, chunks: seq<seq<Byte>>) {
    forall m | 0 <= m <= |chunks| :: Between(text, EndOf(chunks, m))
  }

  lemma UntornReads(text: string, chunks: seq<seq<Byte>>)
    requires Concat(chunks) == Encode(text) && Untorn(text, chunks)
    ensures DecodeEach(chunks) == text
  {
    TextComesOut(text, chunks);
    WholeTextComesOut(text, chunks);
    forall j | 0 <= j < |text| ensures MarksOf(text, chunks)(j) == 0 { CharComesOut(text, chunks, j); }
    WholeComesOut(text, MarksOf(text, chunks), OutOf(text, chunks), 0);
  }

  lemma BetweenIsUntorn(text: string, chunks: seq<seq<Byte>>)
    requires EndsBetween(text, chunks)
    ensures Untorn(text, chunks)
  {
    forall j | 0 <= j < |text|
      ensures !Torn(text, chunks, j)
    {
      forall m | 0 <= m <= |chunks|
        ensures !(At(text, j) < EndOf(chunks, m) < At(text, j + 1))
      {
        assert Between(text, EndOf(chunks, m));
        var k :| 0 <= k <= |text| && At(text, k) == EndOf(chunks, m);
        if k <= j { AtGrows(text, k, j); } else { AtGrows(text, j + 1, k); }
      }
    }
  }

  lemma {:induction false} FirstOfEach(chunks: seq<seq<Byte>>, m: nat)
    requires m <= |chunks|
    ensures DecodeEach(chunks[..m]) <= DecodeEach(chunks)
    decreases |chunks| - m
  {
    if m == |chunks| {
      assert chunks[..m] == chunks;
    } else {
      FirstOfEach(chunks, m + 1);
      EachNext(chunks, m);
    }
  }

  lemma WellFormedIsBetween(text: string, chunks: seq<seq<Byte>>)
    requires DecodeEach(chunks) == text && forall c | c in chunks :: WellFormed(c)
    ensures EndsBetween(text, chunks)
  {
    forall m | 0 <= m <= |chunks|
      ensures Between(text, EndOf(chunks, m))
    {
      var first := chunks[..m];
      assert forall c | c in first :: c in chunks;
      EachReadsIff(first);
      FirstOfEach(chunks, m);
      var k := |DecodeEach(first)|;
      assert text[..k] == DecodeEach(first);
      assert At(text, k) == EndOf(chunks, m);
    }
  }

  /** A stream that is the UTF-8 of a text: all chunks are well formed exactly when each ends where a
      character does, and exactly then does the text come out. */
  lemma WellFormedIffBetween(text: string, chunks: seq<seq<Byte>>)
    requires Concat(chunks) == Encode(text)
    ensures (forall c | c in chunks :: WellFormed(c)) <==> EndsBetween(text, chunks)
    ensures EndsBetween(text, chunks) <==> Untorn(text, chunks)
    ensures DecodeEach(chunks) == text <==> Untorn(text, chunks)
  {
    ChunksReadIff(text, chunks);
    if forall c | c in chunks :: WellFormed(c) { WellFormedIsBetween(text, chunks); }
    if EndsBetween(text, chunks) { BetweenIsUntorn(text, chunks); }
    if Untorn(text, chunks) { UntornReads(text, chunks); }
  }

  // ----- What comes out in the first bytes -----

  /** A character torn within the first `cap` bytes is followed there, itself included, by U+FFFD only. */
  ghost predicate TearsUnnoticed(text: string, chunks: seq<seq<Byte>>, cap: nat) {
    forall i, j | 0 <= i <= j < |text| && Torn(text, chunks, i) && At(text, j + 1) <= cap :: text[j] == REPLACEMENT
  }

  lemma UnnoticedIff(text: string, chunks: seq<seq<Byte>>, cap: nat)
    ensures Unnoticed(text, MarksOf(text, chunks), 0, cap) <==> TearsUnnoticed(text, chunks, cap)
  {
    forall i | 0 <= i < |text| ensures MarksOf(text, chunks)(i) != 0 <==> Torn(text, chunks, i) {
      CharComesOut(text, chunks, i);
    }
    if Unnoticed(text, MarksOf(text, chunks), 0, cap) {
      forall i, j | 0 <= i <= j < |text| && Torn(text, chunks, i) && At(text, j + 1) <= cap
        ensures text[j] == REPLACEMENT
      {
        AtGrows(text, i + 1, j + 1);
        assert OnlyMarks(text, i, cap);
      }
    }
  }

  /** The first bytes of a longer text come out unchanged exactly when no tear is noticed. */
  lemma FirstBytesComeOutIff(text: string, chunks: seq<seq<Byte>>, cap: nat)
    requires Concat(chunks) == Encode(text) && cap <= |Encode(text)|
    ensures Cut(DecodeEach(chunks), cap) == Cut(text, cap) <==> TearsUnnoticed(text, chunks, cap)
  {
    AtEnds(text);
    assert text[0..] == text;
    TextComesOut(text, chunks);
    WholeTextComesOut(text, chunks);
    CutComesOutIff(text, MarksOf(text, chunks), OutOf(text, chunks), 0, cap);
    UnnoticedIff(text, chunks, cap);
  }

  ghost predicate UntornWithin(text: string, chunks: seq<seq<Byte>>, cap: nat) {
    forall j | 0 <= j < |text| && At(text, j + 1) <= cap :: !Torn(text, chunks, j)
  }

  lemma PlainTearsNoticed(text: string, chunks: seq<seq<Byte>>, cap: nat)
    requires REPLACEMENT !in text
    ensures TearsUnnoticed(text, chunks, cap) <==> UntornWithin(text, chunks, cap)
  {
    AtMonotone(text);
    if TearsUnnoticed(text, chunks, cap) {
      forall j | 0 <= j < |text| && At(text, j + 1) <= cap
        ensures !Torn(text, chunks, j)
      {
        assert text[j] in text;
      }
    }
  }

  lemma AllWithin(text: string, chunks: seq<seq<Byte>>, cap: nat)
    requires |Encode(text)| <= cap
    ensures Untorn(text, chunks) <==> UntornWithin(text, chunks, cap)
  {
    if UntornWithin(text, chunks, cap) {
      forall j | 0 <= j < |text| ensures !Torn(text, chunks, j) { AtNext(text, j); }
    }
  }

  // ----- Single-byte text -----

  lemma SingleByteFirst(bytes: seq<Byte>)
    requires bytes != [] && bytes[0] < 0x80
    ensures Decode(bytes) == [bytes[0] as char] + Decode(bytes[1..]) && Bytes(bytes[0] as char) == [bytes[0]]
  {}

  lemma {:induction false} SingleBytes(bytes: seq<Byte>)
    requires forall b | b in bytes :: b < 0x80
    ensures WellFormed(bytes) && |Decode(bytes)| == |bytes|
    ensures forall i | 0 <= i < |bytes| :: Decode(bytes)[i] == bytes[i] as char
  {
    if bytes == [] {
    } else {
      var first, rest := bytes[0], bytes[1..];
      assert first in bytes && forall b | b in rest :: b in bytes;
      SingleBytes(rest);
      SingleByteFirst(bytes);
      EncodeFirst(first as char, Decode(rest));
      assert bytes == [first] + rest;
    }
  }

  lemma {:induction false} InConcat(chunks: seq<seq<Byte>>)
    ensures forall c, b | c in chunks && b in c :: b in Concat(chunks)
  {
    if chunks == [] {
    } else {
      var init, last := chunks[..|chunks| - 1], chunks[|chunks| - 1];
      InConcat(init);
      assert forall c | c in chunks :: c in init || c == last;
    }
  }

  /** However single-byte text is cut into chunks, it is read as the whole is. */
  lemma SingleByteChunks(chunks: seq<seq<Byte>>)
    requires forall b | b in Concat(chunks) :: b < 0x80
    ensures forall c | c in chunks :: WellFormed(c)
    ensures DecodeEach(chunks) == Decode(Concat(chunks))
  {
    InConcat(chunks);
    forall c | c in chunks ensures WellFormed(c) { SingleBytes(c); }
    SingleBytes(Concat(chunks));
    ChunksReadIff(Decode(Concat(chunks)), chunks);
  }
}
