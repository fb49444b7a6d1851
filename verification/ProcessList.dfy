/** Reading the output of `ps`: the lines of one process group, and their memory. */
module ProcessList {
  import opened Text

  /** `Number(text)` when it is finite. */
  type Numbers = string -> Option<real>

  function WordLength(s: string): (n: nat)
    ensures n <= |s|
    ensures forall i | 0 <= i < n :: !IsSpace(s[i])
    ensures n < |s| ==> IsSpace(s[n])
  {
    if s == "" || IsSpace(s[0]) then 0 else 1 + WordLength(s[1..])
  }

  lemma {:induction false} TrimStartShrinks(s: string)
    ensures |TrimStart(s)| <= |s|
    ensures s != "" && IsSpace(s[0]) ==> |TrimStart(s)| < |s|
  {
    if s == "" || !IsSpace(s[0]) {
    } else {
      TrimStartShrinks(s[1..]);
    }
  }

  /** `s.split(/\s+/)` of a trimmed text. */
  function Fields(s: string): (fields: seq<string>)
    ensures fields != []
    decreases |s|
  {
    var n := WordLength(s);
    if n == |s| then [s]
    else
      TrimStartShrinks(s[n..]);
      [s[..n]] + Fields(TrimStart(s[n..]))
  }

  /** A line of `ps`: its process group and its memory, as far as they are numbers. */
  datatype Row = Row(group: Option<real>, kib: Option<real>)

  function RowOf(line: string, number: Numbers): Row {
    var fields := Fields(Trim(line));
    Row(number(fields[0]), if |fields| > 1 then number(fields[1]) else None)
  }

  function MemoryOf(rows: seq<Row>, pid: int): seq<real> {
    if rows == [] then []
    else
      var rest, row := MemoryOf(rows[..|rows| - 1], pid), rows[|rows| - 1];
      if row.group == Some(pid as real) && row.kib.Some? then rest + [row.kib.value] else rest
  }

  function Rows(lines: seq<string>, number: Numbers): seq<Row> {
    seq(|lines|, i requires 0 <= i < |lines| => RowOf(lines[i], number))
  }

  /** The memory of a process group, as far as its lines say it. */
  function GroupMemory(lines: seq<string>, number: Numbers, pid: int): seq<real> {
    MemoryOf(Rows(lines, number), pid)
  }

  function Sum(s: seq<real>): real {
    if s == [] then 0.0 else Sum(s[..|s| - 1]) + s[|s| - 1]
  }

  function Ceiling(x: real): (n: int)
    ensures n as real - 1.0 < x <= n as real
  {
    if x.Floor as real == x then x.Floor else x.Floor + 1
  }

  function Megabytes(kib: real): (mb: int)
    ensures 1024.0 * (mb as real - 1.0) < kib <= 1024.0 * mb as real
  {
    Ceiling(kib / 1024.0)
  }

  lemma MemorySnoc(rows: seq<Row>, row: Row, pid: int)
    ensures MemoryOf(rows + [row], pid) ==
            if row.group == Some(pid as real) && row.kib.Some? then MemoryOf(rows, pid) + [row.kib.value]
            else MemoryOf(rows, pid)
  {
    assert (rows + [row])[..|rows|] == rows;
  }

  lemma GroupStep(lines: seq<string>, number: Numbers, pid: int, i: nat)
    requires i < |lines|
    ensures var row, before := RowOf(lines[i], number), GroupMemory(lines[..i], number, pid);
            GroupMemory(lines[..i + 1], number, pid)
            == if row.group == Some(pid as real) && row.kib.Some? then before + [row.kib.value] else before
  {
    assert Rows(lines[..i + 1], number) == Rows(lines[..i], number) + [RowOf(lines[i], number)];
    MemorySnoc(Rows(lines[..i], number), RowOf(lines[i], number), pid);
  }

  lemma SumSnoc(s: seq<real>, x: real)
    ensures Sum([]) == 0.0 && Sum(s + [x]) == Sum(s) + x
  {
    assert (s + [x])[..|s|] == s;
  }

  /** Whether a line is of the group and says how much memory it has. */
  predicate OfGroup(row: Row, pid: int) {
    row.group == Some(pid as real) && row.kib.Some?
  }

  /** The memory of the group is that of its rows, in order, none left out and none else. */
  lemma {:induction false} MemoryMeans(rows: seq<Row>, pid: int) returns (at: seq<nat>)
    ensures |at| == |MemoryOf(rows, pid)| && forall j, k | 0 <= j < k < |at| :: at[j] < at[k]
    ensures forall k | 0 <= k < |at| ::
              at[k] < |rows| && OfGroup(rows[at[k]], pid) && MemoryOf(rows, pid)[k] == rows[at[k]].kib.value
    ensures forall i | 0 <= i < |rows| && OfGroup(rows[i], pid) :: i in at
  {
    if rows == [] {
      at := [];
    } else {
      var n := |rows| - 1;
      at := MemoryMeans(rows[..n], pid);
      assert forall i | 0 <= i < n :: rows[..n][i] == rows[i];
      if OfGroup(rows[n], pid) { at := at + [n]; }
    }
  }

  method MeasureLines(lines: seq<string>, number: Numbers, pid: int) returns (processes: nat, kib: real)
    ensures processes == |GroupMemory(lines, number, pid)| && kib == Sum(GroupMemory(lines, number, pid))
  {
    processes, kib := 0, 0.0;
    for i := 0 to |lines|
      invariant processes == |GroupMemory(lines[..i], number, pid)| && kib == Sum(GroupMemory(lines[..i], number, pid))
    {
      GroupStep(lines, number, pid, i);
      var row := RowOf(lines[i], number);
      if row.group == Some(pid as real) && row.kib.Some? {
        SumSnoc(GroupMemory(lines[..i], number, pid), row.kib.value);
        processes, kib := processes + 1, kib + row.kib.value;
      }
    }
    assert lines[..|lines|] == lines;
  }

  /** The lines of the group, and their memory, added up one by one. */
  method Measure(stdout: string, number: Numbers, pid: int) returns (processes: nat, kib: real)
    ensures processes == |GroupMemory(Split(stdout, '\n'), number, pid)|
    ensures kib == Sum(GroupMemory(Split(stdout, '\n'), number, pid))
  {
    processes, kib := MeasureLines(Split(stdout, '\n'), number, pid);
  }

  /** Whether a listing of process groups, one a line, names the group. */
  predicate Names(listing: string, number: Numbers, pid: int) {
    exists line | line in Split(listing, '\n') :: number(Trim(line)) == Some(pid as real)
  }

  // ----- A printed line reads back -----

  predicate Word(s: string) {
    s != "" && forall i | 0 <= i < |s| :: !IsSpace(s[i])
  }

  lemma {:induction false} WordFirst(word: string, rest: string)
    requires (forall i | 0 <= i < |word| :: !IsSpace(word[i])) && (rest != "" ==> IsSpace(rest[0]))
    ensures WordLength(word + rest) == |word|
  {
    if word == "" {
      assert word + rest == rest;
    } else {
      assert (word + rest)[1..] == word[1..] + rest;
      WordFirst(word[1..], rest);
    }
  }

  lemma {:induction false} PaddingDropped(pad: string, s: string)
    requires (forall i | 0 <= i < |pad| :: IsSpace(pad[i])) && (s != "" ==> !IsSpace(s[0]))
    ensures TrimStart(pad + s) == s
  {
    if pad == "" {
      assert pad + s == s;
    } else {
      assert (pad + s)[1..] == pad[1..] + s;
      PaddingDropped(pad[1..], s);
    }
  }

  /** A line with a group and its memory, however padded and aligned, is read as those two. */
  lemma LineReadsBack(pad: string, group: string, gap: string, memory: string, number: Numbers)
    requires Word(group) && Word(memory) && gap != ""
    requires (forall i | 0 <= i < |pad| :: IsSpace(pad[i])) && (forall i | 0 <= i < |gap| :: IsSpace(gap[i]))
    ensures RowOf(pad + group + gap + memory, number) == Row(number(group), number(memory))
  {
    var text := group + gap + memory;
    assert pad + group + gap + memory == pad + text;
    PaddingDropped(pad, text);
    assert text[|text| - 1] == memory[|memory| - 1];
    assert Trim(pad + text) == text;
    assert text == group + (gap + memory);
    WordFirst(group, gap + memory);
    assert text[|group|..] == gap + memory;
    PaddingDropped(gap, memory);
    WordFirst(memory, "");
    assert memory + "" == memory;
    assert Fields(memory) == [memory];
    assert Fields(text) == [group] + Fields(memory);
  }

  /** A line of one word says no memory, and a blank one no group either. */
  lemma ShortLines(pad: string, group: string, number: Numbers)
    requires Word(group) && forall i | 0 <= i < |pad| :: IsSpace(pad[i])
    ensures RowOf(pad + group, number) == Row(number(group), None)
    ensures RowOf(pad, number) == Row(number(""), None)
  {
    PaddingDropped(pad, group);
    assert Trim(pad + group) == group;
    WordFirst(group, "");
    assert group + "" == group;
    PaddingDropped(pad, "");
    assert pad + "" == pad;
    assert Fields("") == [""];
  }
}
