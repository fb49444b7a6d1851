/** A dotenv file: reading a value, filling its placeholders, and what every key reads afterwards. */
module EnvFile {
  import opened Text

  // ----- Reading and setting one value -----

  predicate Placeholder(value: Option<string>) {
    value.None? || Trim(value.value) == "" || StartsWith(Trim(value.value), "replace-with-")
  }

  /** Nothing, white space and a value that starts with `replace-with-` are placeholders; no other value is. */
  lemma PlaceholderMeans(value: string, pad: string)
    requires Trimmed(value) && forall i | 0 <= i < |pad| :: IsSpace(pad[i])
    ensures Placeholder(None) && Placeholder(Some("")) && Placeholder(Some(pad))
    ensures Placeholder(Some(value)) <==> value == "" || (|value| >= 13 && value[..13] == "replace-with-")
  {
    TrimOfTrimmed(value);
    TrimOfTrimmed("");
    TrimOfSpaces(pad);
  }

  lemma {:induction false} TrimOfSpaces(pad: string)
    requires forall i | 0 <= i < |pad| :: IsSpace(pad[i])
    ensures TrimStart(pad) == "" && Trim(pad) == ""
  {
    if pad == "" {
    } else {
      TrimOfSpaces(pad[1..]);
    }
  }

  predicate Keyed(line: string, key: string) {
    StartsWith(line, key + "=")
  }

  function ValueOf(line: string, key: string): string
    requires Keyed(line, key)
  {
    Trim(line[|key| + 1..])
  }

  /** The value of the first line that sets the key. */
  function ReadLines(lines: seq<string>, key: string): Option<string> {
    if lines == [] then None
    else if Keyed(lines[0], key) then Some(ValueOf(lines[0], key))
    else ReadLines(lines[1..], key)
  }

  function ReadValue(source: string, key: string): Option<string> {
    ReadLines(Lines(source), key)
  }

  predicate Needs(current: Option<string>, retired: seq<string>) {
    Placeholder(current) || current.value in retired
  }

  /** The lines with the first line of the key replaced, or a new line at the end. */
  function PutLine(lines: seq<string>, key: string, line: string): seq<string> {
    if lines == [] then [line]
    else if Keyed(lines[0], key) then [line] + lines[1..]
    else [lines[0]] + PutLine(lines[1..], key, line)
  }

  function Set(source: string, key: string, value: string, retired: seq<string>): (string, bool) {
    if Needs(ReadValue(source, key), retired) then (Join(PutLine(Lines(source), key, key + "=" + value), '\n'), true)
    else (source, false)
  }

  lemma {:induction false} FirstLine(lines: seq<string>, key: string, line: string, i: nat)
    requires i <= |lines| && forall k | 0 <= k < i :: !Keyed(lines[k], key)
    requires i < |lines| ==> Keyed(lines[i], key)
    ensures ReadLines(lines, key) == if i < |lines| then Some(ValueOf(lines[i], key)) else None
    ensures PutLine(lines, key, line) == if i < |lines| then lines[i := line] else lines + [line]
  {
    if i == 0 {
    } else {
      FirstLine(lines[1..], key, line, i - 1);
      assert lines == [lines[0]] + lines[1..];
    }
  }

  method FindIndex(lines: seq<string>, key: string) returns (i: nat)
    ensures i <= |lines| && forall k | 0 <= k < i :: !Keyed(lines[k], key)
    ensures i < |lines| ==> Keyed(lines[i], key)
  {
    i := 0;
    while i < |lines| && !Keyed(lines[i], key)
      invariant i <= |lines| && forall k | 0 <= k < i :: !Keyed(lines[k], key)
    {
      i := i + 1;
    }
  }

  method SetPlaceholderValue(source: string, key: string, value: string, retired: seq<string>)
      returns (next: string, changed: bool)
    ensures (next, changed) == Set(source, key, value, retired)
  {
    var lines, line := Lines(source), key + "=" + value;
    var i := FindIndex(lines, key);
    FirstLine(lines, key, line, i);
    if i == |lines| {
      return Join(lines + [line], '\n'), true;
    }
    var current := ValueOf(lines[i], key);
    if !Placeholder(Some(current)) && current !in retired {
      return source, false;
    }
    lines := lines[i := line];
    return Join(lines, '\n'), true;
  }

  // ----- One file -----

  datatype Setting = Setting(key: string, value: string, retired: seq<string>)

  /** The settings applied in order, and the keys that changed. */
  function Configure(source: string, settings: seq<Setting>): (string, seq<string>) {
    if settings == [] then (source, [])
    else
      var before := Configure(source, settings[..|settings| - 1]);
      var s := settings[|settings| - 1];
      var result := Set(before.0, s.key, s.value, s.retired);
      (result.0, if result.1 then before.1 + [s.key] else before.1)
  }

  function Ended(text: string): string {
    if EndsWith(text, "\n") then text else text + "\n"
  }

  /** What the file holds afterwards: untouched if nothing differs, else ended by a line feed. */
  function Written(source: string, next: string): string {
    if next == source then source else Ended(next)
  }

  /** A file that changes ends with one line feed more only if it has none at its end. */
  lemma WrittenMeans(source: string, next: string)
    ensures next == source ==> Written(source, next) == source
    ensures next != source ==>
            Written(source, next) == if next != "" && next[|next| - 1] == '\n' then next else next + "\n"
  {}

  method WriteConfiguredFile(source: string, settings: seq<Setting>) returns (file: string, configured: seq<string>)
    ensures file == Written(source, Configure(source, settings).0)
    ensures configured == Configure(source, settings).1
  {
    var next := source;
    configured := [];
    for i := 0 to |settings|
      invariant (next, configured) == Configure(source, settings[..i])
    {
      assert settings[..i + 1][..i] == settings[..i];
      var changed;
      next, changed := SetPlaceholderValue(next, settings[i].key, settings[i].value, settings[i].retired);
      if changed { configured := configured + [settings[i].key]; }
    }
    assert settings[..|settings|] == settings;
    file := if next != source then Ended(next) else source;
  }

  // ----- Reading does not see line endings -----

  lemma {:induction false} TrimEndOfSpace(s: string, c: char)
    requires IsSpace(c)
    ensures TrimEnd(s + [c]) == TrimEnd(s)
  {
    assert (s + [c])[..|s|] == s;
  }

  lemma {:induction false} TrimStartOfSpace(s: string, c: char)
    requires IsSpace(c)
    ensures TrimStart(s + [c]) == (if TrimStart(s) == "" then "" else TrimStart(s) + [c])
  {
    if s == "" {
      assert s + [c] == [c];
      assert TrimStart([c]) == TrimStart([c][1..]) == "";
    } else {
      assert (s + [c])[1..] == s[1..] + [c];
      if IsSpace(s[0]) { TrimStartOfSpace(s[1..], c); }
    }
  }

  lemma TrimOfCr(s: string)
    ensures Trim(WithoutCr(s)) == Trim(s)
  {
    if s != "" && s[|s| - 1] == '\r' {
      var before := s[..|s| - 1];
      assert s == before + ['\r'];
      TrimStartOfSpace(before, '\r');
      TrimEndOfSpace(TrimStart(before), '\r');
    }
  }

  lemma KeyedWithoutCr(line: string, key: string)
    ensures Keyed(WithoutCr(line), key) == Keyed(line, key)
    ensures Keyed(line, key) ==> ValueOf(WithoutCr(line), key) == ValueOf(line, key)
  {
    if line != "" && line[|line| - 1] == '\r' && Keyed(line, key) {
      var shorter := line[..|line| - 1];
      assert (key + "=")[|key|] == line[|key|] == '=';
      assert shorter[..|key| + 1] == line[..|key| + 1];
      var rest := line[|key| + 1..];
      assert rest[|rest| - 1] == '\r' && rest[..|rest| - 1] == shorter[|key| + 1..];
      TrimOfCr(rest);
    }
  }

  /** The same lines, up to carriage returns at their ends. */
  predicate Alike(a: seq<string>, b: seq<string>) {
    |a| == |b| && forall i | 0 <= i < |a| :: a[i] == b[i] || a[i] == WithoutCr(b[i])
  }

  lemma {:induction false} AlikeRead(a: seq<string>, b: seq<string>, key: string)
    requires Alike(a, b)
    ensures ReadLines(a, key) == ReadLines(b, key)
  {
    if a == [] {
    } else {
      KeyedWithoutCr(b[0], key);
      AlikeRead(a[1..], b[1..], key);
    }
  }

  lemma JoinedRead(lines: seq<string>, key: string)
    requires lines != [] && forall l | l in lines :: '\n' !in l
    ensures ReadValue(Join(lines, '\n'), key) == ReadLines(lines, key)
  {
    SplitOfJoin(lines, '\n');
    AlikeRead(StripBreaks(lines), lines, key);
  }

  lemma {:induction false} AppendedRead(lines: seq<string>, line: string, key: string)
    ensures ReadLines(lines + [line], key) ==
            if ReadLines(lines, key).Some? then ReadLines(lines, key)
            else if Keyed(line, key) then Some(ValueOf(line, key)) else None
  {
    if lines == [] {
    } else {
      assert (lines + [line])[1..] == lines[1..] + [line];
      AppendedRead(lines[1..], line, key);
    }
  }

  lemma EndedRead(text: string, key: string)
    ensures ReadValue(Ended(text), key) == ReadValue(text, key)
  {
    if !EndsWith(text, "\n") {
      var parts := Split(text, '\n');
      assert text + "\n" == text + ['\n'] + "";
      SplitAppend(text, "", '\n');
      AppendedRead(parts, "", key);
      AlikeRead(StripBreaks(parts + [""]), parts + [""], key);
      AlikeRead(StripBreaks(parts), parts, key);
    }
  }

  // ----- Setting a value: what every key reads afterwards -----

  ghost predicate Plain(key: string) {
    forall c | c in key :: c != '=' && c != '\n'
  }

  /** The key of a line ends at the first equals sign. */
  lemma EqualsSign(line: string, key: string)
    requires Plain(key) && Keyed(line, key)
    ensures |key| < |line| && line[|key|] == '=' && line[..|key|] == key && forall i | 0 <= i < |key| :: line[i] != '='
  {
    assert line[|key|] == (key + "=")[|key|];
    forall i | 0 <= i < |key|
      ensures line[i] == key[i] && key[i] in key
    {
      assert line[i] == (key + "=")[i];
    }
  }

  lemma OneKey(line: string, key: string, other: string)
    requires Plain(key) && Plain(other) && Keyed(line, key) && Keyed(line, other)
    ensures key == other
  {
    EqualsSign(line, key);
    EqualsSign(line, other);
  }

  lemma FreshLine(key: string, value: string)
    ensures Keyed(key + "=" + value, key) && ValueOf(key + "=" + value, key) == Trim(value)
  {
    assert (key + "=" + value)[|key| + 1..] == value;
  }

  lemma {:induction false} PutLineRead(lines: seq<string>, key: string, value: string, other: string)
    requires Plain(key) && Plain(other)
    ensures ReadLines(PutLine(lines, key, key + "=" + value), other) ==
            if other == key then Some(Trim(value)) else ReadLines(lines, other)
  {
    var line := key + "=" + value;
    FreshLine(key, value);
    if Keyed(line, other) { OneKey(line, key, other); }
    if lines == [] {
    } else {
      if Keyed(lines[0], key) {
        assert ([line] + lines[1..])[1..] == lines[1..];
        if Keyed(lines[0], other) { OneKey(lines[0], key, other); }
      } else {
        assert ([lines[0]] + PutLine(lines[1..], key, line))[1..] == PutLine(lines[1..], key, line);
        PutLineRead(lines[1..], key, value, other);
      }
    }
  }

  lemma {:induction false} PutLineSingle(lines: seq<string>, key: string, line: string)
    requires '\n' !in line && forall l | l in lines :: '\n' !in l
    ensures var put := PutLine(lines, key, line); put != [] && forall l | l in put :: '\n' !in l
  {
    if lines == [] {
    } else {
      assert forall l | l in lines[1..] :: l in lines;
      PutLineSingle(lines[1..], key, line);
    }
  }

  lemma LinesSingle(text: string)
    ensures forall l | l in Lines(text) :: '\n' !in l
  {
    var parts := Split(text, '\n');
    forall i | 0 <= i < |parts|
      ensures '\n' !in Lines(text)[i]
    {
      assert parts[i] in parts;
    }
  }

  lemma SetRead(source: string, key: string, value: string, retired: seq<string>, other: string)
    requires Plain(key) && Plain(other) && '\n' !in value
    ensures var next := Set(source, key, value, retired).0;
            ReadValue(next, other) ==
            if other == key && Needs(ReadValue(source, key), retired) then Some(Trim(value))
              else ReadValue(source, other)
  {
    if Needs(ReadValue(source, key), retired) {
      LinesSingle(source);
      PutLineSingle(Lines(source), key, key + "=" + value);
      JoinedRead(PutLine(Lines(source), key, key + "=" + value), other);
      PutLineRead(Lines(source), key, value, other);
    }
  }

  lemma SingleLineRead(key: string, value: string)
    requires Plain(key) && '\n' !in value
    ensures ReadValue(key + "=" + value, key) == Some(Trim(value))
  {
    var line := key + "=" + value;
    FreshLine(key, value);
    assert '\n' !in line;
    JoinedRead([line], key);
  }

  lemma EmptyRead(key: string)
    ensures ReadValue("", key) == None
  {
    SplitWhole("", '\n');
    assert !Keyed("", key);
    assert ReadLines([""][1..], key) == None;
    assert ReadLines([""], key) == None;
    assert Lines("") == [""];
  }

  // ----- A whole file -----

  /** One trimmed line. */
  ghost predicate Whole(value: string) {
    (forall c | c in value :: c != '\n') && Trimmed(value)
  }

  ghost predicate Distinct(settings: seq<Setting>) {
    forall i, j | 0 <= i < j < |settings| :: settings[i].key != settings[j].key
  }

  ghost predicate Sound(settings: seq<Setting>) {
    Distinct(settings) && forall i | 0 <= i < |settings| :: Plain(settings[i].key) && Whole(settings[i].value)
  }

  /** What a key should read after the settings, given what it read before. */
  function Settled(settings: seq<Setting>, key: string, before: Option<string>): Option<string> {
    if settings == [] then before
    else
      var s := settings[|settings| - 1];
      if s.key == key && Needs(before, s.retired) then Some(s.value)
        else Settled(settings[..|settings| - 1], key, before)
  }

  /** The keys that should be reported. */
  function Due(source: string, settings: seq<Setting>): seq<string> {
    if settings == [] then []
    else
      var s := settings[|settings| - 1];
      var before := Due(source, settings[..|settings| - 1]);
      if Needs(ReadValue(source, s.key), s.retired) then before + [s.key] else before
  }

  lemma {:induction false} Unlisted(settings: seq<Setting>, key: string, before: Option<string>)
    requires forall s | s in settings :: s.key != key
    ensures Settled(settings, key, before) == before
  {
    if settings == [] {
    } else {
      assert settings[|settings| - 1] in settings;
      assert forall s | s in settings[..|settings| - 1] :: s in settings;
      Unlisted(settings[..|settings| - 1], key, before);
    }
  }

  lemma SoundPrefix(settings: seq<Setting>)
    requires Sound(settings) && settings != []
    ensures Sound(settings[..|settings| - 1])
    ensures var last := settings[|settings| - 1];
            Plain(last.key) && '\n' !in last.value && Trim(last.value) == last.value
            && forall s | s in settings[..|settings| - 1] :: s.key != last.key
  {
    TrimOfTrimmed(settings[|settings| - 1].value);
  }

  lemma {:induction false} ConfigureRead(source: string, settings: seq<Setting>, key: string)
    requires Sound(settings) && Plain(key)
    ensures ReadValue(Configure(source, settings).0, key) == Settled(settings, key, ReadValue(source, key))
    decreases |settings|
  {
    if settings == [] {
    } else {
      var before, s := settings[..|settings| - 1], settings[|settings| - 1];
      SoundPrefix(settings);
      ConfigureRead(source, before, key);
      ConfigureRead(source, before, s.key);
      Unlisted(before, s.key, ReadValue(source, s.key));
      SetRead(Configure(source, before).0, s.key, s.value, s.retired, key);
    }
  }

  /** The reported keys are those whose value was missing, a placeholder or retired, in order. */
  lemma {:induction false} ConfiguredAreDue(source: string, settings: seq<Setting>)
    requires Sound(settings)
    ensures Configure(source, settings).1 == Due(source, settings)
  {
    if settings == [] {
    } else {
      var before, s := settings[..|settings| - 1], settings[|settings| - 1];
      SoundPrefix(settings);
      ConfiguredAreDue(source, before);
      ConfigureRead(source, before, s.key);
      Unlisted(before, s.key, ReadValue(source, s.key));
    }
  }

  lemma {:induction false} DueNothing(source: string, settings: seq<Setting>)
    ensures Due(source, settings) == [] <==> forall s | s in settings :: !Needs(ReadValue(source, s.key), s.retired)
  {
    if settings == [] {
    } else {
      var before, s := settings[..|settings| - 1], settings[|settings| - 1];
      assert s in settings;
      assert settings == before + [s];
      DueNothing(source, before);
    }
  }

  /** A key is reported exactly when one of the settings is for it and it was due. */
  lemma {:induction false} DueMeans(source: string, settings: seq<Setting>, key: string)
    ensures key in Due(source, settings) <==>
            exists i | 0 <= i < |settings| ::
              settings[i].key == key && Needs(ReadValue(source, key), settings[i].retired)
  {
    if settings == [] {
    } else {
      var init := settings[..|settings| - 1];
      DueMeans(source, init, key);
      assert forall i | 0 <= i < |init| :: init[i] == settings[i];
    }
  }

  lemma {:induction false} NothingDueNothingChanges(source: string, settings: seq<Setting>)
    requires Configure(source, settings).1 == []
    ensures Configure(source, settings).0 == source
  {
    if settings == [] {
    } else {
      NothingDueNothingChanges(source, settings[..|settings| - 1]);
    }
  }

  lemma DueIsReported(source: string, settings: seq<Setting>, s: Setting)
    requires Sound(settings) && s in settings && Needs(ReadValue(source, s.key), s.retired)
    ensures Configure(source, settings).1 != []
  {
    ConfiguredAreDue(source, settings);
    DueNothing(source, settings);
  }

  /** What any key reads from a file that has been configured and written. */
  lemma FileRead(source: string, settings: seq<Setting>, key: string)
    requires Sound(settings) && Plain(key)
    ensures ReadValue(Written(source, Configure(source, settings).0), key)
            == Settled(settings, key, ReadValue(source, key))
  {
    ConfigureRead(source, settings, key);
    EndedRead(Configure(source, settings).0, key);
  }

  /** A listed key ends as its setting says, if it was due. */
  lemma {:induction false} ListedRead(settings: seq<Setting>, s: Setting, before: Option<string>)
    requires Sound(settings) && s in settings
    ensures Settled(settings, s.key, before) == if Needs(before, s.retired) then Some(s.value) else before
    decreases |settings|
  {
    var last := settings[|settings| - 1];
    SoundPrefix(settings);
    assert settings == settings[..|settings| - 1] + [last];
    if s == last { Unlisted(settings[..|settings| - 1], s.key, before); }
    else { ListedRead(settings[..|settings| - 1], s, before); }
  }

  /** A key none of whose settings is due keeps its value. */
  lemma {:induction false} KeptRead(settings: seq<Setting>, key: string, before: Option<string>)
    requires forall s | s in settings && s.key == key :: !Needs(before, s.retired)
    ensures Settled(settings, key, before) == before
  {
    if settings == [] {
    } else {
      assert settings[|settings| - 1] in settings;
      assert forall s | s in settings[..|settings| - 1] :: s in settings;
      KeptRead(settings[..|settings| - 1], key, before);
    }
  }

  lemma NeverRetired(settings: seq<Setting>, key: string, before: Option<string>)
    requires (forall i | 0 <= i < |settings| :: settings[i].retired == []) && !Placeholder(before)
    ensures Settled(settings, key, before) == before
  {
    KeptRead(settings, key, before);
  }

  /** Settings replace nothing real, except one value of one key. */
  ghost predicate Sparing(settings: seq<Setting>, key: string, retired: string) {
    forall i | 0 <= i < |settings| ::
      settings[i].retired == [] || (settings[i].key == key && settings[i].retired == [retired])
  }

  lemma FileKeeps(source: string, settings: seq<Setting>, key: string, spared: string, retired: string)
    requires Sound(settings) && Sparing(settings, spared, retired) && Plain(key)
    requires !Placeholder(ReadValue(source, key)) && (key == spared ==> ReadValue(source, key) != Some(retired))
    ensures ReadValue(Written(source, Configure(source, settings).0), key) == ReadValue(source, key)
  {
    FileRead(source, settings, key);
    KeptRead(settings, key, ReadValue(source, key));
  }

  /** One key put with one value in both files. */
  lemma OneValue(frontend: string, worker: string, fs: seq<Setting>, ws: seq<Setting>, i: nat, j: nat)
    requires Sound(fs) && Sound(ws) && i < |fs| && j < |ws|
    requires fs[i].key == ws[j].key && fs[i].retired == ws[j].retired == [] && fs[i].value == ws[j].value
    ensures var f, w := ReadValue(frontend, fs[i].key), ReadValue(worker, fs[i].key);
            && ReadValue(Written(frontend, Configure(frontend, fs).0), fs[i].key)
               == (if Placeholder(f) then Some(fs[i].value) else f)
            && ReadValue(Written(worker, Configure(worker, ws).0), fs[i].key)
               == (if Placeholder(w) then Some(fs[i].value) else w)
  {
    FileRead(frontend, fs, fs[i].key);
    FileRead(worker, ws, fs[i].key);
    ListedRead(fs, fs[i], ReadValue(frontend, fs[i].key));
    ListedRead(ws, ws[j], ReadValue(worker, fs[i].key));
  }

  // ----- A second configuration -----

  /** Due now, and still due after being set. */
  predicate Stuck(source: string, s: Setting) {
    Needs(ReadValue(source, s.key), s.retired) && Needs(Some(s.value), s.retired)
  }

  predicate NoneStuck(source: string, settings: seq<Setting>) {
    settings == [] || (NoneStuck(source, settings[..|settings| - 1]) && !Stuck(source, settings[|settings| - 1]))
  }

  lemma {:induction false} NoneStuckAt(source: string, settings: seq<Setting>)
    ensures NoneStuck(source, settings) <==> forall i | 0 <= i < |settings| :: !Stuck(source, settings[i])
  {
    if settings == [] {
    } else {
      NoneStuckAt(source, settings[..|settings| - 1]);
      assert forall i | 0 <= i < |settings| - 1 :: settings[..|settings| - 1][i] == settings[i];
    }
  }

  predicate SameKeys(a: seq<Setting>, b: seq<Setting>) {
    |a| == |b| && forall i | 0 <= i < |a| :: a[i].key == b[i].key && a[i].retired == b[i].retired
  }

  /** A second configuration of the same keys reports nothing exactly when no setting is stuck. */
  lemma SecondDue(source: string, first: seq<Setting>, second: seq<Setting>)
    requires Sound(first) && Sound(second) && SameKeys(first, second)
    ensures var file := Written(source, Configure(source, first).0);
            Configure(file, second).1 == [] <==> NoneStuck(source, first)
  {
    NoneStuckAt(source, first);
    var file := Written(source, Configure(source, first).0);
    ConfiguredAreDue(file, second);
    DueNothing(file, second);
    forall i | 0 <= i < |first|
      ensures Needs(ReadValue(file, second[i].key), second[i].retired) <==> Stuck(source, first[i])
    {
      assert first[i] in first;
      FileRead(source, first, first[i].key);
      ListedRead(first, first[i], ReadValue(source, first[i].key));
    }
    assert forall i | 0 <= i < |second| :: second[i] in second;
  }

  lemma FirstFive(source: string, s: seq<Setting>)
    requires |s| >= 5
    ensures NoneStuck(source, s[..5]) <==>
            !Stuck(source, s[0]) && !Stuck(source, s[1]) && !Stuck(source, s[2]) && !Stuck(source, s[3])
              && !Stuck(source, s[4])
  {
    assert s[..1][..0] == [] && s[..2][..1] == s[..1] && s[..3][..2] == s[..2] && s[..4][..3] == s[..3]
           && s[..5][..4] == s[..4];
    assert NoneStuck(source, s[..1]) <==> !Stuck(source, s[0]);
    assert NoneStuck(source, s[..2]) <==> !Stuck(source, s[0]) && !Stuck(source, s[1]);
    assert NoneStuck(source, s[..3]) <==> NoneStuck(source, s[..2]) && !Stuck(source, s[2]);
    assert NoneStuck(source, s[..4]) <==> NoneStuck(source, s[..3]) && !Stuck(source, s[3]);
  }

  lemma FiveSettings(source: string, s: seq<Setting>)
    requires |s| == 5
    ensures NoneStuck(source, s) <==>
            !Stuck(source, s[0]) && !Stuck(source, s[1]) && !Stuck(source, s[2]) && !Stuck(source, s[3])
              && !Stuck(source, s[4])
  {
    FirstFive(source, s);
    assert s[..5] == s;
  }

  lemma LastFour(source: string, s: seq<Setting>)
    requires |s| == 9
    ensures NoneStuck(source, s) <==>
            NoneStuck(source, s[..5]) && !Stuck(source, s[5]) && !Stuck(source, s[6]) && !Stuck(source, s[7])
              && !Stuck(source, s[8])
  {
    assert s[..6][..5] == s[..5] && s[..7][..6] == s[..6] && s[..8][..7] == s[..7];
    assert NoneStuck(source, s[..6]) <==> NoneStuck(source, s[..5]) && !Stuck(source, s[5]);
    assert NoneStuck(source, s[..7]) <==> NoneStuck(source, s[..6]) && !Stuck(source, s[6]);
    assert NoneStuck(source, s[..8]) <==> NoneStuck(source, s[..7]) && !Stuck(source, s[7]);
  }

  lemma NineSettings(source: string, s: seq<Setting>)
    requires |s| == 9
    ensures NoneStuck(source, s) <==>
            && !Stuck(source, s[0]) && !Stuck(source, s[1]) && !Stuck(source, s[2]) && !Stuck(source, s[3])
               && !Stuck(source, s[4])
            && !Stuck(source, s[5]) && !Stuck(source, s[6]) && !Stuck(source, s[7]) && !Stuck(source, s[8])
  {
    FirstFive(source, s);
    LastFour(source, s);
  }

  // ----- Sound settings -----

  ghost predicate Different(keys: seq<string>) {
    forall i, j | 0 <= i < j < |keys| :: keys[i] != keys[j]
  }

  ghost predicate PlainKeys(keys: seq<string>) {
    forall i | 0 <= i < |keys| :: Plain(keys[i])
  }

  lemma SoundFrom(settings: seq<Setting>, keys: seq<string>)
    requires |settings| == |keys| && Different(keys) && PlainKeys(keys)
    requires forall i | 0 <= i < |settings| :: settings[i].key == keys[i] && Whole(settings[i].value)
    ensures Sound(settings)
  {}

  lemma {:induction false} TrimStartWithin(s: string)
    ensures forall c | c in TrimStart(s) :: c in s
  {
    if s == "" || !IsSpace(s[0]) {
    } else {
      TrimStartWithin(s[1..]);
      assert forall c | c in s[1..] :: c in s;
    }
  }

  lemma {:induction false} ReadWhole(lines: seq<string>, key: string)
    requires forall l | l in lines :: '\n' !in l
    ensures ReadLines(lines, key).Some? ==> Whole(ReadLines(lines, key).value)
  {
    if lines == [] {
    } else {
      if Keyed(lines[0], key) {
        var rest := lines[0][|key| + 1..];
        assert lines[0] in lines;
        assert forall c | c in rest :: c in lines[0];
        TrimStartWithin(rest);
      } else {
        assert forall l | l in lines[1..] :: l in lines;
        ReadWhole(lines[1..], key);
      }
    }
  }

  lemma ReadIsWhole(source: string, key: string)
    ensures ReadValue(source, key).Some? ==> Whole(ReadValue(source, key).value)
  {
    LinesSingle(source);
    ReadWhole(Lines(source), key);
  }
}
