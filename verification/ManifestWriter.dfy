/** Atomic manifest writes: any number of concurrent callers, partial writes, failures at every step. */
module ManifestWriter {
  import opened Text

  type Bytes = seq<bv8>

  // ----- Which paths are manifests -----

  function StripSlashes(path: string): string {
    if path != "" && path[|path| - 1] == '/' then StripSlashes(path[..|path| - 1]) else path
  }

  function Last(parts: seq<string>): string
    requires parts != []
  {
    parts[|parts| - 1]
  }

  function Basename(path: string): string {
    Last(Split(StripSlashes(path), '/'))
  }

  predicate EndsLine(c: char) {
    c in "\n\r\U{2028}\U{2029}"
  }

  predicate Anything(s: string) {
    forall i | 0 <= i < |s| :: !EndsLine(s[i])
  }

  predicate EndsIn(s: string, extension: string) {
    EndsWith(s, extension) && Anything(s[..|s| - |extension|])
  }

  predicate ManifestFrom(name: string, i: nat) {
    i + 8 <= |name| && name[i..i + 8] == "manifest" && (EndsIn(name[i + 8..], ".json") || EndsIn(name[i + 8..], ".js"))
  }

  /** `/manifest.*\.(?:json|js)$/` on the last path segment. */
  predicate IsManifest(path: string) {
    var name := Basename(path);
    exists i | 0 <= i < |name| :: ManifestFrom(name, i)
  }

  // ----- Callers -----

  /** One call; `token` is the process id and the random identifier of its temporary name. */
  datatype Job = Job(target: string, data: Bytes, token: string) {
    function Temporary(): string {
      target + "." + token + ".tmp"
    }

    predicate Atomic() {
      IsManifest(target)
    }

    /** The file the call writes to. */
    function Scratch(): string {
      if Atomic() then Temporary() else target
    }
  }

  /** Temporary names are distinct and nobody asks to write one. */
  ghost predicate Apart(jobs: seq<Job>) {
    forall i, j | 0 <= i < |jobs| && 0 <= j < |jobs| && i != j && jobs[i].Atomic() ::
      jobs[i].Temporary() != jobs[j].Scratch()
  }

  // ----- Steps -----

  datatype Phase =
    | Idle
    | Writing(written: nat)
    | Renaming
    | Renamed
    | Unlinking(error: string)
    | Finished(outcome: Option<string>)

  /** What happened, in order: a target was replaced, a callback ran. */
  datatype Note = Installed(job: nat) | Called(job: nat, outcome: Option<string>)

  datatype World = World(disk: map<string, Bytes>, phases: seq<Phase>, log: seq<Note>)

  /** `Open` truncates, `Write` puts the next bytes, `RenameFails` may have taken effect all the same. */
  datatype Event =
    | Open(job: nat)
    | Write(job: nat, count: nat)
    | WriteFails(job: nat, error: string)
    | WriteDone(job: nat)
    | RenameDone(job: nat)
    | RenameFails(job: nat, error: string, applied: bool)
    | UnlinkDone(job: nat, removed: bool)
    | Report(job: nat)

  function Padded(content: Bytes, length: nat): (r: Bytes)
    ensures |r| >= length && content <= r
    decreases length - |content|
  {
    if |content| < length then Padded(content + [0], length) else content
  }

  /** Bytes put at a position of a file, whatever another writer has made of that file meanwhile. */
  function PutAt(content: Bytes, at: nat, bytes: Bytes): Bytes {
    var padded := Padded(content, at + |bytes|);
    padded[..at] + bytes + padded[at + |bytes|..]
  }

  function Content(disk: map<string, Bytes>, path: string): Option<Bytes> {
    if path in disk then Some(disk[path]) else None
  }

  function Held(disk: map<string, Bytes>, path: string): Bytes {
    if path in disk then disk[path] else []
  }

  predicate Enabled(jobs: seq<Job>, w: World, e: Event) {
    && e.job < |jobs| && e.job < |w.phases|
    && var job, phase := jobs[e.job], w.phases[e.job];
       match e
       case Open(_) => phase.Idle?
       case Write(_, count) => phase.Writing? && 0 < count && phase.written + count <= |job.data|
       case WriteFails(_, _) => phase.Idle? || phase.Writing?
       case WriteDone(_) => phase == Writing(|job.data|)
       case RenameDone(_) => phase.Renaming? && job.Temporary() in w.disk
       case RenameFails(_, _, applied) => phase.Renaming? && (applied ==> job.Temporary() in w.disk)
       case UnlinkDone(_, _) => phase.Unlinking?
       case Report(_) => phase.Renamed?
  }

  function Moved(disk: map<string, Bytes>, from: string, to: string): map<string, Bytes>
    requires from in disk
  {
    (disk - {from})[to := disk[from]]
  }

  function Apply(jobs: seq<Job>, w: World, e: Event): World
    requires Enabled(jobs, w, e)
  {
    var i, job, phase := e.job, jobs[e.job], w.phases[e.job];
    match e
    case Open(_) => World(w.disk[job.Scratch() := []], w.phases[i := Writing(0)], w.log)
    case Write(_, count) =>
      var chunk := job.data[phase.written..phase.written + count];
      World(w.disk[job.Scratch() := PutAt(Held(w.disk, job.Scratch()), phase.written, chunk)],
            w.phases[i := Writing(phase.written + count)], w.log)
    case WriteFails(_, error) =>
      if job.Atomic() then w.(phases := w.phases[i := Unlinking(error)])
      else World(w.disk, w.phases[i := Finished(Some(error))], w.log + [Called(i, Some(error))])
    case WriteDone(_) =>
      if job.Atomic() then w.(phases := w.phases[i := Renaming])
      else World(w.disk, w.phases[i := Finished(None)], w.log + [Called(i, None)])
    case RenameDone(_) =>
      World(Moved(w.disk, job.Temporary(), job.target), w.phases[i := Renamed], w.log + [Installed(i)])
    case RenameFails(_, error, applied) =>
      if applied then
        World(Moved(w.disk, job.Temporary(), job.target), w.phases[i := Unlinking(error)], w.log + [Installed(i)])
      else w.(phases := w.phases[i := Unlinking(error)])
    case UnlinkDone(_, removed) =>
      World(if removed then w.disk - {job.Temporary()} else w.disk,
            w.phases[i := Finished(Some(phase.error))], w.log + [Called(i, Some(phase.error))])
    case Report(_) => World(w.disk, w.phases[i := Finished(None)], w.log + [Called(i, None)])
  }

  function Start(jobs: seq<Job>, disk: map<string, Bytes>): World {
    World(disk, seq(|jobs|, _ => Idle), [])
  }

  ghost predicate Runs(jobs: seq<Job>, w: World, events: seq<Event>, end: World)
    decreases |events|
  {
    if events == [] then w == end
    else Enabled(jobs, w, events[0]) && Runs(jobs, Apply(jobs, w, events[0]), events[1..], end)
  }

  // ----- The callbacks as a program -----

  /** The nested callbacks: each method is what runs when the file system answers one request of one call. */
  class AtomicWriter {
    const jobs: seq<Job>
    var disk: map<string, Bytes>
    var phases: seq<Phase>
    var log: seq<Note>

    constructor (jobs: seq<Job>, disk: map<string, Bytes>)
      ensures this.jobs == jobs && Snapshot() == Start(jobs, disk)
    {
      this.jobs, this.disk, phases, log := jobs, disk, seq(|jobs|, _ => Idle), [];
    }

    function Snapshot(): World reads this {
      World(disk, phases, log)
    }

    /** Where the bytes of a call go: a manifest is written under its temporary name. */
    method WriteFile(i: nat) returns (path: string)
      requires i < |jobs|
      ensures path == jobs[i].target <==> !IsManifest(jobs[i].target)
      ensures path == jobs[i].Scratch()
    {
      if !IsManifest(jobs[i].target) { return jobs[i].target; }
      path := jobs[i].Temporary();
      assert |path| > |jobs[i].target|;
    }

    method Callback(i: nat, outcome: Option<string>)
      requires i < |phases|
      modifies this`phases, this`log
      ensures phases == old(phases)[i := Finished(outcome)] && log == old(log) + [Called(i, outcome)]
    {
      phases := phases[i := Finished(outcome)];
      log := log + [Called(i, outcome)];
    }

    method OnWritten(i: nat, error: Option<string>)
      requires Enabled(jobs, Snapshot(), if error.None? then WriteDone(i) else WriteFails(i, error.value))
      modifies this
      ensures Snapshot() == Apply(jobs, old(Snapshot()),
                                  if error.None? then WriteDone(i) else WriteFails(i, error.value))
    {
      if !jobs[i].Atomic() {
        Callback(i, error);
      } else if error.Some? {
        phases := phases[i := Unlinking(error.value)];
      } else {
        phases := phases[i := Renaming];
      }
    }

    method OnRenamed(i: nat, error: Option<string>)
      requires i < |jobs| && |phases| == |jobs|
      requires if error.None? then phases[i] == Renamed else phases[i] == Renaming
      modifies this
      ensures Snapshot() == Apply(jobs, old(Snapshot()),
                                  if error.None? then Report(i) else RenameFails(i, error.value, false))
    {
      if error.Some? {
        phases := phases[i := Unlinking(error.value)];
      } else {
        Callback(i, None);
      }
    }

    method OnUnlinked(i: nat, removed: bool)
      requires i < |jobs| && |phases| == |jobs| && phases[i].Unlinking?
      modifies this
      ensures Snapshot() == Apply(jobs, old(Snapshot()), UnlinkDone(i, removed))
    {
      if removed { disk := disk - {jobs[i].Temporary()}; }
      Callback(i, Some(phases[i].error));
    }
  }

  // ----- A temporary name is never a manifest -----

  lemma {:induction false} LastCharacter(parts: seq<string>)
    requires parts != [] && Join(parts, '/') != ""
    ensures var path := Join(parts, '/');
            path[|path| - 1] == '/' || (Last(parts) != "" && Last(parts)[|Last(parts)| - 1] == path[|path| - 1])
  {
    if |parts| > 1 && Join(parts[1..], '/') != "" { LastCharacter(parts[1..]); }
  }

  lemma TemporaryIsNotManifest(job: Job)
    ensures !IsManifest(job.Temporary())
  {
    var path := job.Temporary();
    assert path[|path| - 1] == 'p';
    assert StripSlashes(path) == path;
    LastCharacter(Split(path, '/'));
    var name := Basename(path);
    forall i | 0 <= i < |name|
      ensures !ManifestFrom(name, i)
    {
      if i + 8 <= |name| {
        EndsInLast(name[i + 8..], ".json");
        EndsInLast(name[i + 8..], ".js");
      }
    }
  }

  lemma BasenameOf(directory: string, name: string)
    requires name != "" && '/' !in name
    ensures Basename(directory + "/" + name) == name && Basename(name) == name
  {
    var path := directory + "/" + name;
    assert path[|path| - 1] == name[|name| - 1] && name[|name| - 1] in name;
    assert StripSlashes(path) == path && StripSlashes(name) == name;
    assert path == directory + ['/'] + name;
    SplitAppend(directory, name, '/');
    SplitWhole(name, '/');
  }

  /** The parts of a manifest's name: `manifest`, what stands before it and after it, and the extension. */
  predicate ManifestParts(name: string, before: string, between: string, extension: string) {
    && name == before + "manifest" + between + extension
    && (extension == ".json" || extension == ".js")
    && forall i | 0 <= i < |between| ::
         between[i] != '\n' && between[i] != '\r' && between[i] != '\U{2028}' && between[i] != '\U{2029}'
  }

  lemma NoLineEnd(s: string)
    ensures Anything(s) <==>
            forall i | 0 <= i < |s| :: s[i] != '\n' && s[i] != '\r' && s[i] != '\U{2028}' && s[i] != '\U{2029}'
  {}

  lemma ManifestAt(name: string, before: string, between: string, extension: string)
    requires ManifestParts(name, before, between, extension)
    ensures ManifestFrom(name, |before|)
  {
    NoLineEnd(between);
    assert name[|before|..|before| + 8] == "manifest";
    assert name[|before| + 8..] == between + extension;
    assert (between + extension)[|between|..] == extension && (between + extension)[..|between|] == between;
  }

  lemma ExtensionOf(rest: string) returns (between: string, extension: string)
    requires EndsIn(rest, ".json") || EndsIn(rest, ".js")
    ensures rest == between + extension && (extension == ".json" || extension == ".js") && Anything(between)
  {
    extension := if EndsIn(rest, ".json") then ".json" else ".js";
    between := rest[..|rest| - |extension|];
    assert rest[|rest| - |extension|..] == extension;
  }

  lemma PartsAt(name: string, i: nat) returns (before: string, between: string, extension: string)
    requires ManifestFrom(name, i)
    ensures ManifestParts(name, before, between, extension)
  {
    before := name[..i];
    between, extension := ExtensionOf(name[i + 8..]);
    NoLineEnd(between);
    CutAt(name, i, i + 8);
    JoinLast(before + "manifest", between, extension);
  }

  lemma JoinLast(a: string, b: string, c: string)
    ensures a + (b + c) == a + b + c
  {}

  lemma CutAt(s: string, i: nat, j: nat)
    requires i <= j <= |s|
    ensures s == s[..i] + s[i..j] + s[j..]
  {}

  /** A path is a manifest's exactly when its last segment has `manifest` in it and ends in `.json` or `.js`, with
      no line end between. */
  lemma ManifestIff(directory: string, name: string)
    requires name != "" && '/' !in name
    ensures IsManifest(directory + "/" + name) <==> IsManifest(name)
    ensures IsManifest(name) <==>
            exists before, between, extension :: ManifestParts(name, before, between, extension)
  {
    BasenameOf(directory, name);
    if IsManifest(name) {
      var i :| 0 <= i < |name| && ManifestFrom(name, i);
      var before, between, extension := PartsAt(name, i);
    }
    if before, between, extension :| ManifestParts(name, before, between, extension) {
      ManifestAt(name, before, between, extension);
    }
  }

  lemma EndsInLast(s: string, extension: string)
    requires extension != ""
    ensures EndsIn(s, extension) ==> s[|s| - 1] == extension[|extension| - 1]
  {
    if EndsIn(s, extension) {
      assert s[|s| - |extension|..][|extension| - 1] == extension[|extension| - 1];
    }
  }

  // ----- What every step keeps -----

  /** What a path should hold: the data of the last call that replaced it, or what was there at the start. */
  function Expected(jobs: seq<Job>, initial: map<string, Bytes>, log: seq<Note>, path: string): Option<Bytes> {
    if log == [] then Content(initial, path)
    else
      var note := log[|log| - 1];
      if note.Installed? && note.job < |jobs| && jobs[note.job].target == path then Some(jobs[note.job].data)
      else Expected(jobs, initial, log[..|log| - 1], path)
  }

  function Calls(log: seq<Note>, job: nat): nat {
    if log == [] then 0
    else Calls(log[..|log| - 1], job) + if log[|log| - 1].Called? && log[|log| - 1].job == job then 1 else 0
  }

  /** The scratch file of an atomic call holds exactly what that call has written, and is gone once renamed. */
  predicate ScratchOk(job: Job, phase: Phase, disk: map<string, Bytes>) {
    job.Atomic() ==>
      match phase
      case Writing(written) => written <= |job.data| && Content(disk, job.Temporary()) == Some(job.data[..written])
      case Renaming => Content(disk, job.Temporary()) == Some(job.data)
      case Renamed => job.Temporary() !in disk
      case Finished(None) => job.Temporary() !in disk
      case _ => true
  }

  /** Success is on the record only after the replacement. */
  ghost predicate RecordOk(job: Job, i: nat, phase: Phase, log: seq<Note>) {
    && Calls(log, i) == (if phase.Finished? then 1 else 0)
    && (phase.Renamed? ==> Installed(i) in log)
    && (job.Atomic() ==> SuccessFollows(log, i))
  }

  ghost predicate SuccessFollows(log: seq<Note>, i: nat) {
    forall n | 0 <= n < |log| && log[n] == Called(i, None) :: Installed(i) in log[..n]
  }

  ghost predicate ManifestsOk(jobs: seq<Job>, initial: map<string, Bytes>, w: World) {
    forall path | IsManifest(path) :: Content(w.disk, path) == Expected(jobs, initial, w.log, path)
  }

  ghost predicate Inv(jobs: seq<Job>, initial: map<string, Bytes>, w: World) {
    && |w.phases| == |jobs|
    && (forall i | 0 <= i < |jobs| :: ScratchOk(jobs[i], w.phases[i], w.disk))
    && (forall i | 0 <= i < |jobs| :: RecordOk(jobs[i], i, w.phases[i], w.log))
    && ManifestsOk(jobs, initial, w)
  }

  lemma PutAtEnd(content: Bytes, chunk: Bytes)
    ensures PutAt(content, |content|, chunk) == content + chunk
  {
    PaddedTo(content, |content| + |chunk|);
  }

  lemma {:induction false} PaddedTo(content: Bytes, length: nat)
    requires |content| <= length
    ensures |Padded(content, length)| == length
    decreases length - |content|
  {
    if |content| >= length {
    } else {
      PaddedTo(content + [0], length);
    }
  }

  lemma OwnScratchKept(jobs: seq<Job>, w: World, e: Event)
    requires Apart(jobs) && Enabled(jobs, w, e) && ScratchOk(jobs[e.job], w.phases[e.job], w.disk)
    ensures ScratchOk(jobs[e.job], Apply(jobs, w, e).phases[e.job], Apply(jobs, w, e).disk)
  {
    var job, phase := jobs[e.job], w.phases[e.job];
    if e.Write? && job.Atomic() {
      PutAtEnd(job.data[..phase.written], job.data[phase.written..phase.written + e.count]);
      assert job.data[..phase.written] + job.data[phase.written..phase.written + e.count]
             == job.data[..phase.written + e.count];
    } else if e.WriteDone? {
      assert job.data[..|job.data|] == job.data;
    }
  }

  /** A step touches the call's scratch file and, at a rename, its target. */
  lemma Untouched(jobs: seq<Job>, w: World, e: Event, path: string)
    requires Enabled(jobs, w, e) && path != jobs[e.job].Scratch()
             && (jobs[e.job].Atomic() ==> path != jobs[e.job].target)
    requires w.phases[e.job].Renaming? || w.phases[e.job].Unlinking? ==> jobs[e.job].Atomic()
    ensures Content(Apply(jobs, w, e).disk, path) == Content(w.disk, path)
  {}

  lemma OtherScratchKept(jobs: seq<Job>, w: World, e: Event, i: nat)
    requires Apart(jobs) && Enabled(jobs, w, e) && |w.phases| == |jobs| && i < |jobs| && i != e.job
    requires ScratchOk(jobs[i], w.phases[i], w.disk)
             && (w.phases[e.job].Renaming? || w.phases[e.job].Unlinking? ==> jobs[e.job].Atomic())
    ensures ScratchOk(jobs[i], Apply(jobs, w, e).phases[i], Apply(jobs, w, e).disk)
  {
    if jobs[i].Atomic() {
      TemporaryIsNotManifest(jobs[i]);
      Untouched(jobs, w, e, jobs[i].Temporary());
      assert Apply(jobs, w, e).phases[i] == w.phases[i];
    }
  }

  /** Only calls on manifests ever rename or unlink. */
  ghost predicate PhasesOk(jobs: seq<Job>, w: World) {
    |w.phases| == |jobs| &&
    forall i | 0 <= i < |jobs| && (w.phases[i].Renaming? || w.phases[i].Renamed? || w.phases[i].Unlinking?) ::
      jobs[i].Atomic()
  }

  lemma ManifestKept(jobs: seq<Job>, initial: map<string, Bytes>, w: World, e: Event, path: string)
    requires Apart(jobs) && Enabled(jobs, w, e) && PhasesOk(jobs, w) && IsManifest(path)
    requires ScratchOk(jobs[e.job], w.phases[e.job], w.disk)
    requires Content(w.disk, path) == Expected(jobs, initial, w.log, path)
    ensures var next := Apply(jobs, w, e); Content(next.disk, path) == Expected(jobs, initial, next.log, path)
  {
    var next := Apply(jobs, w, e);
    TemporaryIsNotManifest(jobs[e.job]);
    if jobs[e.job].Atomic() ==> path != jobs[e.job].target { Untouched(jobs, w, e, path); }
    assert |next.log| > |w.log| ==> next.log[..|next.log| - 1] == w.log;
  }

  lemma CallsSnoc(log: seq<Note>, note: Note, i: nat)
    ensures Calls(log + [note], i) == Calls(log, i) + if note.Called? && note.job == i then 1 else 0
  {
    assert (log + [note])[..|log|] == log;
  }

  lemma FollowsSnoc(log: seq<Note>, note: Note, i: nat)
    requires SuccessFollows(log, i) && (note == Called(i, None) ==> Installed(i) in log)
    ensures SuccessFollows(log + [note], i)
  {
    forall n | 0 <= n < |log + [note]| && (log + [note])[n] == Called(i, None)
      ensures Installed(i) in (log + [note])[..n]
    {
      assert (log + [note])[..n] == log[..n];
      assert log[..|log|] == log;
    }
  }

  /** The note that a step leaves, if any. */
  function NoteOf(jobs: seq<Job>, w: World, e: Event): Option<Note>
    requires Enabled(jobs, w, e)
  {
    match e
    case WriteFails(i, error) => if jobs[i].Atomic() then None else Some(Called(i, Some(error)))
    case WriteDone(i) => if jobs[i].Atomic() then None else Some(Called(i, None))
    case RenameDone(i) => Some(Installed(i))
    case RenameFails(i, _, applied) => if applied then Some(Installed(i)) else None
    case UnlinkDone(i, _) => Some(Called(i, Some(w.phases[i].error)))
    case Report(i) => Some(Called(i, None))
    case _ => None
  }

  lemma NoteLeft(jobs: seq<Job>, w: World, e: Event)
    requires Enabled(jobs, w, e)
    ensures var note := NoteOf(jobs, w, e);
            Apply(jobs, w, e).log == if note.Some? then w.log + [note.value] else w.log
  {}

  /** A note that agrees with the phases before and after it. */
  predicate NoteFits(job: Job, i: nat, phase: Phase, note: Note, after: Phase) {
    && (note == Called(i, None) && job.Atomic() ==> phase.Renamed?)
    && (if note.Called? && note.job == i then after.Finished? && !phase.Finished?
        else after.Finished? == phase.Finished?)
    && (after.Renamed? ==> phase.Renamed? || note == Installed(i))
  }

  lemma OwnNoteFits(jobs: seq<Job>, w: World, e: Event)
    requires Enabled(jobs, w, e) && NoteOf(jobs, w, e).Some?
    ensures NoteFits(jobs[e.job], e.job, w.phases[e.job], NoteOf(jobs, w, e).value, Apply(jobs, w, e).phases[e.job])
  {}

  lemma QuietPhases(jobs: seq<Job>, w: World, e: Event)
    requires Enabled(jobs, w, e) && NoteOf(jobs, w, e).None?
    ensures var phase, after := w.phases[e.job], Apply(jobs, w, e).phases[e.job];
            !phase.Finished? && !after.Finished? && !after.Renamed?
  {}

  lemma OtherPhases(jobs: seq<Job>, w: World, e: Event, i: nat)
    requires Enabled(jobs, w, e) && i < |w.phases| && i != e.job
    ensures Apply(jobs, w, e).phases[i] == w.phases[i]
    ensures NoteOf(jobs, w, e).Some? ==> NoteOf(jobs, w, e).value.job == e.job
  {}

  lemma RecordExtended(job: Job, i: nat, phase: Phase, log: seq<Note>, note: Note, after: Phase)
    requires RecordOk(job, i, phase, log) && NoteFits(job, i, phase, note, after)
    ensures RecordOk(job, i, after, log + [note])
  {
    CallsSnoc(log, note, i);
    if job.Atomic() { FollowsSnoc(log, note, i); }
  }

  lemma RecordKept(jobs: seq<Job>, w: World, e: Event, i: nat)
    requires Enabled(jobs, w, e) && PhasesOk(jobs, w) && i < |jobs| && RecordOk(jobs[i], i, w.phases[i], w.log)
    ensures var next := Apply(jobs, w, e); RecordOk(jobs[i], i, next.phases[i], next.log)
  {
    NoteLeft(jobs, w, e);
    if i != e.job { OtherPhases(jobs, w, e, i); }
    if NoteOf(jobs, w, e).Some? {
      if i == e.job { OwnNoteFits(jobs, w, e); }
      RecordExtended(jobs[i], i, w.phases[i], w.log, NoteOf(jobs, w, e).value, Apply(jobs, w, e).phases[i]);
    } else if i == e.job {
      QuietPhases(jobs, w, e);
    }
  }

  lemma PhasesKept(jobs: seq<Job>, w: World, e: Event)
    requires Enabled(jobs, w, e) && PhasesOk(jobs, w)
    ensures PhasesOk(jobs, Apply(jobs, w, e))
  {}

  lemma CallsKept(jobs: seq<Job>, w: World, e: Event)
    requires Apart(jobs) && Enabled(jobs, w, e) && PhasesOk(jobs, w)
    requires forall i | 0 <= i < |jobs| :: ScratchOk(jobs[i], w.phases[i], w.disk)
    requires forall i | 0 <= i < |jobs| :: RecordOk(jobs[i], i, w.phases[i], w.log)
    ensures |Apply(jobs, w, e).phases| == |jobs|
    ensures var next := Apply(jobs, w, e);
            && (forall i | 0 <= i < |jobs| :: ScratchOk(jobs[i], next.phases[i], next.disk))
            && (forall i | 0 <= i < |jobs| :: RecordOk(jobs[i], i, next.phases[i], next.log))
  {
    var next := Apply(jobs, w, e);
    forall i | 0 <= i < |jobs|
      ensures ScratchOk(jobs[i], next.phases[i], next.disk) && RecordOk(jobs[i], i, next.phases[i], next.log)
    {
      if i == e.job { OwnScratchKept(jobs, w, e); } else { OtherScratchKept(jobs, w, e, i); }
      RecordKept(jobs, w, e, i);
    }
  }

  lemma EventKeeps(jobs: seq<Job>, initial: map<string, Bytes>, w: World, e: Event)
    requires Apart(jobs) && Enabled(jobs, w, e) && PhasesOk(jobs, w) && Inv(jobs, initial, w)
    ensures PhasesOk(jobs, Apply(jobs, w, e)) && Inv(jobs, initial, Apply(jobs, w, e))
  {
    PhasesKept(jobs, w, e);
    CallsKept(jobs, w, e);
    var next := Apply(jobs, w, e);
    forall path | IsManifest(path)
      ensures Content(next.disk, path) == Expected(jobs, initial, next.log, path)
    {
      ManifestKept(jobs, initial, w, e, path);
    }
  }

  lemma {:induction false} RunKeeps(jobs: seq<Job>, initial: map<string, Bytes>, w: World, events: seq<Event>,
                                    end: World)
    requires Apart(jobs) && PhasesOk(jobs, w) && Inv(jobs, initial, w) && Runs(jobs, w, events, end)
    ensures PhasesOk(jobs, end) && Inv(jobs, initial, end)
    decreases |events|
  {
    if events == [] {
    } else {
      EventKeeps(jobs, initial, w, events[0]);
      RunKeeps(jobs, initial, Apply(jobs, w, events[0]), events[1..], end);
    }
  }

  // ----- Main results -----

  /** At any moment of any run a manifest holds, whole, the data of the last call that replaced it, or
      what was there before the run. */
  lemma ManifestsAreWhole(jobs: seq<Job>, initial: map<string, Bytes>, events: seq<Event>, end: World, path: string)
    requires Apart(jobs) && Runs(jobs, Start(jobs, initial), events, end) && IsManifest(path)
    ensures Content(end.disk, path) == Expected(jobs, initial, end.log, path)
    ensures || Content(end.disk, path) == Content(initial, path)
            || exists i | 0 <= i < |jobs| ::
                 jobs[i].target == path && Installed(i) in end.log && end.disk.Items >= {(path, jobs[i].data)}
  {
    RunKeeps(jobs, initial, Start(jobs, initial), events, end);
    ExpectedIsWhole(jobs, initial, end.log, path);
  }

  lemma {:induction false} ExpectedIsWhole(jobs: seq<Job>, initial: map<string, Bytes>, log: seq<Note>, path: string)
    ensures var held := Expected(jobs, initial, log, path);
      held == Content(initial, path)
      || exists i | 0 <= i < |jobs| :: jobs[i].target == path && Installed(i) in log && held == Some(jobs[i].data)
  {
    if log == [] {
    } else {
      var note := log[|log| - 1];
      if note.Installed? && note.job < |jobs| && jobs[note.job].target == path {
        assert note == Installed(note.job) && note in log;
      } else {
        ExpectedIsWhole(jobs, initial, log[..|log| - 1], path);
      }
    }
  }

  /** A call runs its callback once: not before it has finished, and never again. */
  lemma CallbackRunsOnce(jobs: seq<Job>, initial: map<string, Bytes>, events: seq<Event>, end: World, i: nat)
    requires Apart(jobs) && Runs(jobs, Start(jobs, initial), events, end) && i < |jobs|
    ensures |end.phases| == |jobs| && Calls(end.log, i) == if end.phases[i].Finished? then 1 else 0
  {
    RunKeeps(jobs, initial, Start(jobs, initial), events, end);
  }

  lemma InstalledHolds(jobs: seq<Job>, initial: map<string, Bytes>, log: seq<Note>, m: nat, i: nat)
    requires i < |jobs| && m < |log| && log[m] == Installed(i)
    ensures Expected(jobs, initial, log[..m + 1], jobs[i].target) == Some(jobs[i].data)
  {
    assert log[..m + 1][m] == Installed(i);
  }

  /** Success is reported only after the call's own data became the target. */
  lemma SuccessMeansInstalled(jobs: seq<Job>, initial: map<string, Bytes>, events: seq<Event>, end: World, i: nat,
                              n: nat)
    requires Apart(jobs) && Runs(jobs, Start(jobs, initial), events, end)
    requires i < |jobs| && jobs[i].Atomic() && n < |end.log| && end.log[n] == Called(i, None)
    ensures exists m | 0 <= m < n ::
              end.log[m] == Installed(i) && Expected(jobs, initial, end.log[..m + 1], jobs[i].target)
                == Some(jobs[i].data)
  {
    RunKeeps(jobs, initial, Start(jobs, initial), events, end);
    assert RecordOk(jobs[i], i, end.phases[i], end.log);
    assert Installed(i) in end.log[..n];
    var m :| 0 <= m < n && end.log[..n][m] == Installed(i);
    assert end.log[m] == Installed(i);
    InstalledHolds(jobs, initial, end.log, m, i);
  }

  /** A successful call leaves no temporary file behind. */
  lemma SuccessLeavesNothing(jobs: seq<Job>, initial: map<string, Bytes>, events: seq<Event>, end: World, i: nat)
    requires Apart(jobs) && Runs(jobs, Start(jobs, initial), events, end)
    requires i < |jobs| && jobs[i].Atomic() && i < |end.phases| && end.phases[i] == Finished(None)
    ensures jobs[i].Temporary() !in end.disk
  {
    RunKeeps(jobs, initial, Start(jobs, initial), events, end);
    assert ScratchOk(jobs[i], end.phases[i], end.disk);
  }

  /** What the file system may do at every moment: open, write any part of what is left, fail at any time, and rename
      and unlink with or without success. */
  lemma AnythingMayFail(jobs: seq<Job>, w: World, i: nat, count: nat, error: string)
    requires |w.phases| == |jobs| && i < |jobs|
    ensures w.phases[i].Idle? ==> Enabled(jobs, w, Open(i)) && Enabled(jobs, w, WriteFails(i, error))
    ensures w.phases[i].Writing? ==> Enabled(jobs, w, WriteFails(i, error))
    ensures w.phases[i].Writing? && 0 < count && w.phases[i].written + count <= |jobs[i].data| ==>
            Enabled(jobs, w, Write(i, count))
    ensures w.phases[i].Renaming? ==> Enabled(jobs, w, RenameFails(i, error, false))
    ensures w.phases[i].Renaming? && jobs[i].Temporary() in w.disk ==>
            Enabled(jobs, w, RenameFails(i, error, true)) && Enabled(jobs, w, RenameDone(i))
    ensures w.phases[i].Unlinking? ==> Enabled(jobs, w, UnlinkDone(i, false)) && Enabled(jobs, w, UnlinkDone(i, true))
  {}

  /** The steps a call has left; every event of the call takes at least one of them. */
  function Left(job: Job, phase: Phase): nat {
    match phase
    case Idle => |job.data| + 5
    case Writing(written) => (if written <= |job.data| then |job.data| - written else 0) + 4
    case Renaming => 3
    case Renamed => 1
    case Unlinking(_) => 2
    case Finished(_) => 0
  }

  lemma EventSpends(jobs: seq<Job>, w: World, e: Event)
    requires Enabled(jobs, w, e)
    ensures Left(jobs[e.job], Apply(jobs, w, e).phases[e.job]) < Left(jobs[e.job], w.phases[e.job])
  {}

  /** What an error-free file system would do next for a call is always possible. */
  function Smooth(job: Job, i: nat, phase: Phase): Event
    requires !phase.Finished?
  {
    match phase
    case Idle => Open(i)
    case Writing(written) => if written < |job.data| then Write(i, |job.data| - written) else WriteDone(i)
    case Renaming => RenameDone(i)
    case Renamed => Report(i)
    case Unlinking(_) => UnlinkDone(i, true)
  }

  /** No call on a manifest is ever stuck: the error-free answer is always possible, and every step of a
      call brings it nearer to its callback. */
  lemma CallsAdvance(jobs: seq<Job>, initial: map<string, Bytes>, events: seq<Event>, end: World, i: nat)
    requires Apart(jobs) && Runs(jobs, Start(jobs, initial), events, end) && i < |jobs| && jobs[i].Atomic()
    ensures |end.phases| == |jobs|
    ensures !end.phases[i].Finished? ==> Enabled(jobs, end, Smooth(jobs[i], i, end.phases[i]))
    ensures forall e: Event | Enabled(jobs, end, e) && e.job == i ::
              Left(jobs[i], Apply(jobs, end, e).phases[i]) < Left(jobs[i], end.phases[i])
  {
    RunKeeps(jobs, initial, Start(jobs, initial), events, end);
    assert ScratchOk(jobs[i], end.phases[i], end.disk);
    forall e: Event | Enabled(jobs, end, e) && e.job == i
      ensures Left(jobs[i], Apply(jobs, end, e).phases[i]) < Left(jobs[i], end.phases[i])
    {
      EventSpends(jobs, end, e);
    }
  }

  // ----- What a failed call did -----

  /** The error that a call met, and how its unlink ended. */
  function FailureOf(events: seq<Event>, i: nat): Option<string> {
    if events == [] then None
    else
      var last := events[|events| - 1];
      if last.job == i && (last.WriteFails? || last.RenameFails?) then Some(last.error)
      else FailureOf(events[..|events| - 1], i)
  }

  function UnlinkOf(events: seq<Event>, i: nat): Option<bool> {
    if events == [] then None
    else
      var last := events[|events| - 1];
      if last.job == i && last.UnlinkDone? then Some(last.removed) else UnlinkOf(events[..|events| - 1], i)
  }

  /** A call reports its failure, an atomic one after an unlink. */
  predicate HistoryOk(job: Job, phase: Phase, disk: map<string, Bytes>, failure: Option<string>, unlink: Option<bool>) {
    match phase
    case Unlinking(error) => failure == Some(error) && unlink == None
    case Finished(outcome) =>
      && failure == outcome && (unlink.Some? <==> job.Atomic() && outcome.Some?)
      && (unlink == Some(true) ==> job.Temporary() !in disk)
    case _ => failure == None && unlink == None
  }

  lemma HistorySnoc(events: seq<Event>, e: Event, i: nat)
    ensures FailureOf(events + [e], i) ==
            if e.job == i && (e.WriteFails? || e.RenameFails?) then Some(e.error) else FailureOf(events, i)
    ensures UnlinkOf(events + [e], i) == if e.job == i && e.UnlinkDone? then Some(e.removed) else UnlinkOf(events, i)
  {
    assert (events + [e])[..|events|] == events;
  }

  lemma HistoryOwn(jobs: seq<Job>, w: World, e: Event, failure: Option<string>, unlink: Option<bool>)
    requires |w.phases| == |jobs| && Enabled(jobs, w, e)
    requires HistoryOk(jobs[e.job], w.phases[e.job], w.disk, failure, unlink)
    requires PhasesOk(jobs, w)
    ensures var v := Apply(jobs, w, e);
            HistoryOk(jobs[e.job], v.phases[e.job], v.disk,
                      if e.WriteFails? || e.RenameFails? then Some(e.error) else failure,
                      if e.UnlinkDone? then Some(e.removed) else unlink)
  {}

  lemma HistoryOther(jobs: seq<Job>, w: World, e: Event, i: nat, failure: Option<string>, unlink: Option<bool>)
    requires Apart(jobs) && PhasesOk(jobs, w) && Enabled(jobs, w, e) && i < |jobs| && i != e.job
    requires HistoryOk(jobs[i], w.phases[i], w.disk, failure, unlink)
    ensures var v := Apply(jobs, w, e); HistoryOk(jobs[i], v.phases[i], v.disk, failure, unlink)
  {
    OtherPhases(jobs, w, e, i);
    if jobs[i].Atomic() {
      TemporaryIsNotManifest(jobs[i]);
      Untouched(jobs, w, e, jobs[i].Temporary());
    }
  }

  lemma HistoryStep(jobs: seq<Job>, w: World, e: Event, past: seq<Event>, i: nat)
    requires Apart(jobs) && PhasesOk(jobs, w) && Enabled(jobs, w, e) && i < |jobs|
    requires HistoryOk(jobs[i], w.phases[i], w.disk, FailureOf(past, i), UnlinkOf(past, i))
    ensures var v := Apply(jobs, w, e);
            && PhasesOk(jobs, v)
            && HistoryOk(jobs[i], v.phases[i], v.disk, FailureOf(past + [e], i), UnlinkOf(past + [e], i))
  {
    PhasesKept(jobs, w, e);
    HistorySnoc(past, e, i);
    if e.job == i {
      HistoryOwn(jobs, w, e, FailureOf(past, i), UnlinkOf(past, i));
    } else {
      HistoryOther(jobs, w, e, i, FailureOf(past, i), UnlinkOf(past, i));
    }
  }

  lemma {:induction false} HistoryKeeps(jobs: seq<Job>, w: World, events: seq<Event>, end: World, past: seq<Event>,
                                        i: nat)
    requires Apart(jobs) && PhasesOk(jobs, w) && Runs(jobs, w, events, end) && i < |jobs|
    requires HistoryOk(jobs[i], w.phases[i], w.disk, FailureOf(past, i), UnlinkOf(past, i))
    ensures |end.phases| == |jobs|
    ensures HistoryOk(jobs[i], end.phases[i], end.disk, FailureOf(past + events, i), UnlinkOf(past + events, i))
    decreases |events|
  {
    if events == [] {
      assert past + events == past;
    } else {
      HistoryStep(jobs, w, events[0], past, i);
      HistoryKeeps(jobs, Apply(jobs, w, events[0]), events[1..], end, past + [events[0]], i);
      assert past + [events[0]] + events[1..] == past + events;
    }
  }

  /** A call reports an error exactly as its write or its rename failed with it. One on a manifest has then asked
      for its temporary file to be unlinked, and if that worked there is none left; no other call unlinks. */
  lemma FailureIsCleanedUp(jobs: seq<Job>, initial: map<string, Bytes>, events: seq<Event>, end: World, i: nat)
    requires Apart(jobs) && Runs(jobs, Start(jobs, initial), events, end) && i < |jobs|
    ensures |end.phases| == |jobs|
    ensures end.phases[i].Finished? ==>
            && FailureOf(events, i) == end.phases[i].outcome
            && (UnlinkOf(events, i).Some? <==> jobs[i].Atomic() && end.phases[i].outcome.Some?)
            && (UnlinkOf(events, i) == Some(true) ==> jobs[i].Temporary() !in end.disk)
  {
    HistoryKeeps(jobs, Start(jobs, initial), events, end, [], i);
    assert [] + events == events;
  }
}
