/**
 The durable deployment gate: any number of deployer processes, each a program of atomic SQL
 statements and provider calls, share one database and one hosting provider. A statement may
 fail before it commits, or commit and lose its acknowledgement; a process may stop anywhere.
 */
module DeploymentGate {
  import opened Text

  /** A deployment identity: its id and the hash of the artifact it deploys. */
  datatype Fence = Fence(id: string, sha: string)

  datatype HandlerPin = HandlerPin(
    packId: string, packVersion: string, workflowType: string,
    workflowVersion: string, runtimeVersion: string, definitionHash: string)

  datatype Status = Pending | Started | Closed
  datatype Execution = Execution(pin: HandlerPin, status: Status)

  /** What all processes share: the fence row, the generation row, the executions, the uploaded Workers. */
  datatype Site = Site(
    fence: Option<Fence>,
    generation: Option<Fence>,
    executions: map<string, Execution>,
    uploaded: set<Fence>)

  /** Whether an artifact's own probe accepts a handler pin. */
  type Support = (string, HandlerPin) -> bool

  const INSPECTION_LIMIT := 1000

  function ActivePins(site: Site): set<HandlerPin> {
    set run | run in site.executions && site.executions[run].status != Closed :: site.executions[run].pin
  }

  /** Every pending or started execution has a handler that the artifact `sha` retains. */
  predicate Retains(support: Support, sha: string, site: Site) {
    forall pin | pin in ActivePins(site) :: support(sha, pin)
  }

  // ----- One statement each -----

  datatype Outcome = Acknowledged | FailedBefore | AcknowledgementLost

  predicate Commits(o: Outcome) { o != FailedBefore }

  predicate IdChar(c: char) {
    'a' <= c <= 'z' || 'A' <= c <= 'Z' || '0' <= c <= '9' || c == '-'
  }

  predicate ValidFence(f: Fence) {
    && 1 <= |f.id| <= 80 && (forall i | 0 <= i < |f.id| :: IdChar(f.id[i]))
    && |f.sha| == 64 && (forall i | 0 <= i < |f.sha| :: '0' <= f.sha[i] <= '9' || 'a' <= f.sha[i] <= 'f')
  }

  /** INSERT of the singleton fence row: a second row violates the primary key. */
  function InsertFence(site: Site, f: Fence, o: Outcome): (Site, bool) {
    if !ValidFence(f) || site.fence.Some? || !Commits(o) then (site, false)
    else (site.(fence := Some(f)), o == Acknowledged)
  }

  predicate FenceRead(site: Site, f: Fence, o: Outcome) {
    ValidFence(f) && o == Acknowledged && site.fence == Some(f)
  }

  /** DELETE of the fence row, guarded by identity and artifact. */
  function DeleteFence(site: Site, f: Fence, o: Outcome): (Site, bool) {
    if Commits(o) && site.fence == Some(f) then (site.(fence := None), o == Acknowledged)
    else (site, o == Acknowledged)
  }

  /** UPDATE of `activate_on_release`: its trigger installs the generation and removes the fence.
      An UPDATE that matches no row still succeeds. */
  function ActivateFence(site: Site, f: Fence, o: Outcome): (Site, bool) {
    if Commits(o) && site.fence == Some(f) then (site.(fence := None, generation := Some(f)), o == Acknowledged)
    else (site, o == Acknowledged)
  }

  /** The provider may have taken an upload whose command failed. */
  function Upload(site: Site, f: Fence, o: Outcome): (Site, bool) {
    (if Commits(o) then site.(uploaded := site.uploaded + {f}) else site, o == Acknowledged)
  }

  predicate UploadedAs(site: Site, id: string) {
    exists u | u in site.uploaded :: u.id == id
  }

  /** The health probe reports the deployment id of some uploaded Worker, never its artifact. */
  predicate Observed(site: Site, f: Fence, o: Outcome) {
    o == Acknowledged && UploadedAs(site, f.id)
  }

  // ----- One process -----

  /** How the deployment command was started. */
  datatype Mode = Fresh | Inspect | Resume | Release

  /** The statement a process executes next. */
  datatype Pc =
    | Insert | Confirm | ResumeRequire
    | LoadRequire | Load | Check | Recheck
    | Deploy | Verify
    | ReleaseRequire | ReleaseDelete
    | ReadGeneration | ActivateRequire | ActivateUpdate
    | CatchRequire | CatchDelete
    | Succeeded | Failed

  datatype Proc = Proc(fence: Fence, mode: Mode, pc: Pc, pins: set<HandlerPin>)

  function Start(f: Fence, mode: Mode): Proc {
    Proc(f, mode, match mode case Resume => ResumeRequire case Release => Verify case _ => Insert, {})
  }

  predicate Ended(p: Proc) { p.pc == Succeeded || p.pc == Failed }

  /** Inside the `try`, before `attempted` is set. */
  predicate Preparing(pc: Pc) {
    match pc case LoadRequire | Load | Check | Recheck => true case _ => false
  }

  /** After a successful check, up to activation. */
  predicate Checked(pc: Pc) {
    match pc case Recheck | Deploy | Verify | ReadGeneration | ActivateRequire | ActivateUpdate => true case _ => false
  }

  predicate Activating(pc: Pc) {
    match pc case ReadGeneration | ActivateRequire | ActivateUpdate => true case _ => false
  }

  /** A failure inside the `try` before anything was attempted runs the release in `catch`. */
  function Throw(p: Proc): Proc {
    p.(pc := if p.mode != Resume && Preparing(p.pc) then CatchRequire else Failed)
  }

  function Then(p: Proc, ok: bool, next: Pc): Proc {
    if ok then p.(pc := next) else Throw(p)
  }

  /** One atomic step of one process, as the statement at its program counter acts. */
  function ProcStep(support: Support, site: Site, p: Proc, o: Outcome): (Site, Proc) {
    match p.pc
    case Insert => var (s, ok) := InsertFence(site, p.fence, o); (s, Then(p, ok, Confirm))
    case Confirm => (site, Then(p, FenceRead(site, p.fence, o), LoadRequire))
    case ResumeRequire => (site, Then(p, FenceRead(site, p.fence, o), LoadRequire))
    case LoadRequire => (site, Then(p, FenceRead(site, p.fence, o), Load))
    case Load =>
      if o == Acknowledged && |ActivePins(site)| <= INSPECTION_LIMIT
      then (site, p.(pc := Check, pins := ActivePins(site)))
      else (site, Throw(p))
    case Check => (site, Then(p, o == Acknowledged && forall pin | pin in p.pins :: support(p.fence.sha, pin), Recheck))
    case Recheck => (site, Then(p, FenceRead(site, p.fence, o), Deploy))
    case Deploy =>
      if p.mode == Inspect then (site, p.(pc := Verify))
      else var (s, ok) := Upload(site, p.fence, o); (s, Then(p, ok, Verify))
    case Verify =>
      if p.mode == Inspect then (site, p.(pc := ReleaseRequire))
      else (site, Then(p, Observed(site, p.fence, o), ReadGeneration))
    case ReleaseRequire => (site, Then(p, FenceRead(site, p.fence, o), ReleaseDelete))
    case ReleaseDelete => var (s, ok) := DeleteFence(site, p.fence, o); (s, Then(p, ok, Succeeded))
    case ReadGeneration =>
      if !ValidFence(p.fence) || o != Acknowledged then (site, Throw(p))
      else (site, p.(pc := if site.generation == Some(p.fence) then Succeeded else ActivateRequire))
    case ActivateRequire => (site, Then(p, FenceRead(site, p.fence, o), ActivateUpdate))
    case ActivateUpdate => var (s, ok) := ActivateFence(site, p.fence, o); (s, Then(p, ok, Succeeded))
    case CatchRequire => (site, Then(p, FenceRead(site, p.fence, o), CatchDelete))
    case CatchDelete => var (s, _) := DeleteFence(site, p.fence, o); (s, p.(pc := Failed))
    case Succeeded => (site, p)
    case Failed => (site, p)
  }

  // ----- All processes -----

  /** The world: the shared site, the latest process of each deployment id, and the history. */
  datatype World = World(
    site: Site,
    procs: map<string, Proc>,
    issued: map<string, string>,  // artifact of every fence ever inserted, by id
    attempted: set<Fence>,        // fences under which an activating run started `deploy`
    activated: set<Fence>)        // every generation so far

  datatype Event =
    | Launch(fence: Fence, mode: Mode)
    | Advance(id: string, outcome: Outcome)
    | Crash(id: string)
    | Admit(run: string, pin: HandlerPin, worker: Option<Fence>)
    | Transition(run: string, status: Status)
    | Purge(run: string)

  /** A fresh id is unused; a resumed or released id has no live process. */
  predicate MayLaunch(w: World, f: Fence, mode: Mode) {
    if mode == Fresh || mode == Inspect then f.id !in w.procs
    else f.id in w.procs ==> Ended(w.procs[f.id])
  }

  /** The admission triggers, and a Worker that pins only handlers of its own artifact.
      `None` is a Worker from before the first gated deployment. */
  predicate Admissible(support: Support, site: Site, run: string, pin: HandlerPin, worker: Option<Fence>) {
    && run !in site.executions
    && site.fence.None?
    && (site.generation.Some? ==> worker.Some? && worker.value.id == site.generation.value.id)
    && (worker.Some? ==> worker.value in site.uploaded && support(worker.value.sha, pin))
  }

  function StatusRank(s: Status): nat {
    match s case Pending => 0 case Started => 1 case Closed => 2
  }

  function Apply(support: Support, w: World, e: Event): World {
    match e
    case Launch(f, mode) =>
      if MayLaunch(w, f, mode) then w.(procs := w.procs[f.id := Start(f, mode)]) else w
    case Crash(id) =>
      if id in w.procs && !Ended(w.procs[id]) then w.(procs := w.procs[id := w.procs[id].(pc := Failed)]) else w
    case Advance(id, o) =>
      if id !in w.procs then w
      else
        var p := w.procs[id];
        var (s, q) := ProcStep(support, w.site, p, o);
        World(s, w.procs[id := q],
              if w.site.fence.None? && s.fence.Some? then w.issued[p.fence.id := p.fence.sha] else w.issued,
              if p.pc == Recheck && q.pc == Deploy && p.mode != Inspect then w.attempted + {p.fence} else w.attempted,
              if s.generation.Some? then w.activated + {s.generation.value} else w.activated)
    case Admit(run, pin, worker) =>
      if Admissible(support, w.site, run, pin, worker)
      then w.(site := w.site.(executions := w.site.executions[run := Execution(pin, Pending)]))
      else w
    case Transition(run, status) =>
      if run in w.site.executions && StatusRank(w.site.executions[run].status) <= StatusRank(status)
      then w.(site := w.site.(executions := w.site.executions[run := w.site.executions[run].(status := status)]))
      else w
    case Purge(run) => w.(site := w.site.(executions := w.site.executions - {run}))
  }

  /** The first gated deployment finds no fence, no generation and any executions. */
  predicate Initial(w: World) {
    && w.site.fence.None? && w.site.generation.None? && w.site.uploaded == {}
    && w.procs == map[] && w.issued == map[] && w.attempted == {} && w.activated == {}
  }

  function Run(support: Support, w: World, events: seq<Event>): World {
    if events == [] then w else Apply(support, Run(support, w, events[..|events| - 1]), events[|events| - 1])
  }

  // ----- The invariant -----

  /** Points of the program where the process owns the fence row. */
  predicate Holds(p: Proc) {
    match p.pc
    case Insert | ResumeRequire | Succeeded | Failed => false
    case Verify | ReadGeneration | ActivateRequire => p.mode != Release
    case _ => true
  }

  /** Runs that cannot have uploaded: a fresh run before `deploy`, an inspection always. */
  predicate BeforeUpload(p: Proc) {
    || p.mode == Inspect
    || (p.mode == Fresh && (Preparing(p.pc) || p.pc.Insert? || p.pc.Confirm? || p.pc.CatchRequire?
                            || p.pc.CatchDelete?))
  }

  predicate CheckedSoFar(support: Support, site: Site, p: Proc) {
    && (p.pc == Check ==> ActivePins(site) <= p.pins)
    && (Checked(p.pc) && p.mode != Release ==> Retains(support, p.fence.sha, site))
    && (Activating(p.pc) ==> UploadedAs(site, p.fence.id))
  }

  /** Which program points each mode can reach. */
  predicate Reaches(p: Proc) {
    match p.mode
    case Release => Activating(p.pc) || p.pc.Verify? || Ended(p)
    case Inspect => !Activating(p.pc) && !p.pc.ResumeRequire?
    case Fresh => !p.pc.ResumeRequire? && !p.pc.ReleaseRequire? && !p.pc.ReleaseDelete?
    case Resume => Preparing(p.pc) || Checked(p.pc) || p.pc.ResumeRequire? || Ended(p)
  }

  predicate OwnershipOk(w: World, p: Proc) {
    && (p.pc == Insert ==> p.fence.id !in w.issued)
    && (Holds(p) ==> w.site.fence == Some(p.fence))
    && (BeforeUpload(p) ==> !UploadedAs(w.site, p.fence.id) && p.fence !in w.attempted)
    && (p.pc == Succeeded && p.mode != Inspect ==> p.fence in w.activated)
  }

  predicate ProcOk(support: Support, w: World, p: Proc) {
    Reaches(p) && OwnershipOk(w, p) && CheckedSoFar(support, w.site, p)
  }

  predicate Issued(w: World, f: Fence) {
    f.id in w.issued && w.issued[f.id] == f.sha
  }

  /** The fence row is a known, not yet activated deployment; once uploaded, it retains all active work. */
  predicate FenceOk(support: Support, w: World) {
    w.site.fence.Some? ==>
      && Issued(w, w.site.fence.value)
      && w.site.fence.value !in w.activated
      && (UploadedAs(w.site, w.site.fence.value.id) ==> Retains(support, w.site.fence.value.sha, w.site))
  }

  /** The current generation retains all active work. */
  predicate GenerationOk(support: Support, w: World) {
    w.site.generation.Some? ==>
      && w.site.generation.value in w.activated
      && Retains(support, w.site.generation.value.sha, w.site)
  }

  predicate HistoryOk(w: World) {
    && (forall f | f in w.site.uploaded :: Issued(w, f))
    && (forall f | f in w.attempted :: Issued(w, f) && (w.site.fence == Some(f) || f in w.activated))
    && (forall f | f in w.activated :: Issued(w, f))
    && (forall id | id in w.issued :: id in w.procs)
  }

  predicate SiteOk(support: Support, w: World) {
    FenceOk(support, w) && GenerationOk(support, w) && HistoryOk(w)
  }

  predicate Known(support: Support, w: World, id: string) {
    id in w.procs && w.procs[id].fence.id == id && ProcOk(support, w, w.procs[id])
  }

  ghost predicate Inv(support: Support, w: World) {
    SiteOk(support, w) && forall id | id in w.procs :: Known(support, w, id)
  }

  // ----- Each event keeps the invariant -----

  /** What one step of process `p` may do to everything else. */
  predicate OwnEffect(w: World, p: Proc, v: World) {
    && v.site.executions == w.site.executions
    && (v.site.fence == w.site.fence
        || (w.site.fence.None? && v.site.fence == Some(p.fence))
        || (w.site.fence == Some(p.fence) && v.site.fence.None?))
    && (v.site.uploaded == w.site.uploaded || v.site.uploaded == w.site.uploaded + {p.fence})
    && (v.attempted == w.attempted || v.attempted == w.attempted + {p.fence})
    && w.activated <= v.activated
    && (forall id | id in v.issued :: id in w.issued || id == p.fence.id)
  }

  lemma StepEffect(support: Support, w: World, id: string, o: Outcome)
    requires id in w.procs
    ensures OwnEffect(w, w.procs[id], Apply(support, w, Advance(id, o)))
  {}

  /** A process is untouched by the step of a process with another deployment id. */
  lemma OthersKept(support: Support, w: World, p: Proc, v: World, q: Proc)
    requires OwnEffect(w, p, v) && p.fence.id != q.fence.id
    requires ProcOk(support, w, q)
    ensures ProcOk(support, v, q)
  {
    assert ActivePins(v.site) == ActivePins(w.site);
  }

  lemma StepKeepsOthers(support: Support, w: World, id: string, o: Outcome, other: string)
    requires Known(support, w, id) && Known(support, w, other) && id != other
    ensures Known(support, Apply(support, w, Advance(id, o)), other)
  {
    StepEffect(support, w, id, o);
    OthersKept(support, w, w.procs[id], Apply(support, w, Advance(id, o)), w.procs[other]);
  }

  lemma StepReaches(support: Support, site: Site, p: Proc, o: Outcome)
    requires Reaches(p)
    ensures Reaches(ProcStep(support, site, p, o).1)
  {}

  lemma StepHolds(support: Support, site: Site, p: Proc, o: Outcome)
    requires Reaches(p) && (Holds(p) ==> site.fence == Some(p.fence))
    ensures var (s, q) := ProcStep(support, site, p, o); Holds(q) ==> s.fence == Some(p.fence)
  {}

  lemma StepUploads(support: Support, site: Site, p: Proc, o: Outcome)
    requires Reaches(p)
    ensures var (s, q) := ProcStep(support, site, p, o);
            BeforeUpload(q) ==> BeforeUpload(p) && s.uploaded == site.uploaded && !(q.pc.Deploy? && p.mode != Inspect)
  {}

  lemma StepSucceeds(support: Support, site: Site, p: Proc, o: Outcome)
    requires Reaches(p) && (Holds(p) ==> site.fence == Some(p.fence))
    ensures var (s, q) := ProcStep(support, site, p, o);
            q.pc.Succeeded? && p.mode != Inspect ==> p.pc.Succeeded? || s.generation == Some(p.fence)
  {}

  lemma StepKeepsIdentity(support: Support, site: Site, p: Proc, o: Outcome)
    ensures var q := ProcStep(support, site, p, o).1; q.fence == p.fence && q.mode == p.mode && !q.pc.Insert?
  {}

  lemma StepKeepsOwnership(support: Support, w: World, id: string, o: Outcome)
    requires Known(support, w, id)
    ensures var v := Apply(support, w, Advance(id, o)); Reaches(v.procs[id]) && OwnershipOk(v, v.procs[id])
  {
    var p := w.procs[id];
    StepReaches(support, w.site, p, o);
    StepHolds(support, w.site, p, o);
    StepUploads(support, w.site, p, o);
    StepSucceeds(support, w.site, p, o);
    StepKeepsIdentity(support, w.site, p, o);
  }

  lemma StepKeepsPins(support: Support, site: Site, p: Proc, o: Outcome)
    ensures ActivePins(ProcStep(support, site, p, o).0) == ActivePins(site)
  {
    assert ProcStep(support, site, p, o).0.executions == site.executions;
  }

  /** A step into the checked points comes from one, or from the check itself. */
  lemma StepFromCheck(support: Support, site: Site, p: Proc, o: Outcome)
    requires Reaches(p)
    ensures var q := ProcStep(support, site, p, o).1;
      && (q.pc == Check ==> q.pins == ActivePins(site))
      && (Checked(q.pc) && p.mode != Release && !Checked(p.pc) ==>
            p.pc == Check && forall pin | pin in p.pins :: support(p.fence.sha, pin))
      && (Activating(q.pc) && !Activating(p.pc) ==> UploadedAs(site, p.fence.id))
  {}

  lemma StepKeepsUploads(support: Support, site: Site, p: Proc, o: Outcome)
    ensures UploadedAs(site, p.fence.id) ==> UploadedAs(ProcStep(support, site, p, o).0, p.fence.id)
  {
    assert site.uploaded <= ProcStep(support, site, p, o).0.uploaded;
  }

  lemma StepChecks(support: Support, site: Site, p: Proc, o: Outcome)
    requires Reaches(p) && CheckedSoFar(support, site, p)
    ensures var (s, q) := ProcStep(support, site, p, o); CheckedSoFar(support, s, q)
  {
    StepKeepsPins(support, site, p, o);
    StepFromCheck(support, site, p, o);
    StepKeepsUploads(support, site, p, o);
    StepKeepsIdentity(support, site, p, o);
  }

  lemma StepKeepsChecked(support: Support, w: World, id: string, o: Outcome)
    requires Known(support, w, id)
    ensures var v := Apply(support, w, Advance(id, o)); CheckedSoFar(support, v.site, v.procs[id])
  {
    StepChecks(support, w.site, w.procs[id], o);
  }

  lemma StepKeepsFence(support: Support, w: World, id: string, o: Outcome)
    requires SiteOk(support, w) && Known(support, w, id)
    ensures FenceOk(support, Apply(support, w, Advance(id, o)))
  {
    var p := w.procs[id];
    var v := Apply(support, w, Advance(id, o));
    assert ActivePins(v.site) == ActivePins(w.site);
  }

  lemma StepKeepsGeneration(support: Support, w: World, id: string, o: Outcome)
    requires SiteOk(support, w) && Known(support, w, id)
    ensures GenerationOk(support, Apply(support, w, Advance(id, o)))
  {
    var p := w.procs[id];
    var v := Apply(support, w, Advance(id, o));
    assert ActivePins(v.site) == ActivePins(w.site);
  }

  /** What a step does to the fence and generation rows. */
  lemma StepOnRows(support: Support, site: Site, p: Proc, o: Outcome)
    requires Reaches(p)
    ensures var s := ProcStep(support, site, p, o).0;
      && (s.generation != site.generation ==> site.fence == Some(p.fence) == s.generation)
      && (site.fence.Some? && s.fence != site.fence ==>
            site.fence == Some(p.fence) && s.fence.None?
            && (s.generation == Some(p.fence) || (s.generation == site.generation && BeforeUpload(p))))
  {}

  /** Uploads and attempts happen under the process's own fence. */
  lemma StepUnderFence(support: Support, site: Site, p: Proc, o: Outcome)
    requires Reaches(p) && (Holds(p) ==> site.fence == Some(p.fence))
    ensures var (s, q) := ProcStep(support, site, p, o);
      && (s.uploaded != site.uploaded ==> site.fence == Some(p.fence) && s.uploaded == site.uploaded + {p.fence})
      && (p.pc == Recheck ==> site.fence == Some(p.fence) == s.fence)
      && (site.fence.None? && s.fence.Some? ==> s.fence == Some(p.fence) && p.pc == Insert)
      && (site.fence.Some? && s.fence.Some? ==> s.fence == site.fence)
  {}

  lemma StepKeepsHistory(support: Support, w: World, id: string, o: Outcome)
    requires SiteOk(support, w) && Known(support, w, id)
    ensures HistoryOk(Apply(support, w, Advance(id, o)))
  {
    StepOnRows(support, w.site, w.procs[id], o);
    StepUnderFence(support, w.site, w.procs[id], o);
  }

  lemma StepKeepsSite(support: Support, w: World, id: string, o: Outcome)
    requires SiteOk(support, w) && Known(support, w, id)
    ensures SiteOk(support, Apply(support, w, Advance(id, o)))
  {
    StepKeepsFence(support, w, id, o);
    StepKeepsGeneration(support, w, id, o);
    StepKeepsHistory(support, w, id, o);
  }

  lemma StepKeepsSelf(support: Support, w: World, id: string, o: Outcome)
    requires SiteOk(support, w) && Known(support, w, id)
    ensures Known(support, Apply(support, w, Advance(id, o)), id)
  {
    StepKeepsOwnership(support, w, id, o);
    StepKeepsChecked(support, w, id, o);
    StepKeepsIdentity(support, w.site, w.procs[id], o);
  }

  lemma AdvanceKeeps(support: Support, w: World, id: string, o: Outcome)
    requires Inv(support, w) && id in w.procs
    ensures Inv(support, Apply(support, w, Advance(id, o)))
  {
    var v := Apply(support, w, Advance(id, o));
    assert v.procs.Keys == w.procs.Keys;
    assert Known(support, w, id);
    StepKeepsSite(support, w, id, o);
    StepKeepsSelf(support, w, id, o);
    forall other | other in v.procs ensures Known(support, v, other) {
      if other != id {
        assert Known(support, w, other);
        StepKeepsOthers(support, w, id, o, other);
      }
    }
  }

  /** Retiring work keeps everything. */
  lemma ProcKeptByRetiring(support: Support, w: World, executions: map<string, Execution>, p: Proc)
    requires ActivePins(w.site.(executions := executions)) <= ActivePins(w.site) && ProcOk(support, w, p)
    ensures ProcOk(support, w.(site := w.site.(executions := executions)), p)
  {}

  lemma SiteKeptByRetiring(support: Support, w: World, executions: map<string, Execution>)
    requires ActivePins(w.site.(executions := executions)) <= ActivePins(w.site) && SiteOk(support, w)
    ensures SiteOk(support, w.(site := w.site.(executions := executions)))
  {}

  lemma RetiringKeeps(support: Support, w: World, executions: map<string, Execution>)
    requires Inv(support, w) && ActivePins(w.site.(executions := executions)) <= ActivePins(w.site)
    ensures Inv(support, w.(site := w.site.(executions := executions)))
  {
    SiteKeptByRetiring(support, w, executions);
    forall id | id in w.procs ensures Known(support, w.(site := w.site.(executions := executions)), id) {
      assert Known(support, w, id);
      ProcKeptByRetiring(support, w, executions, w.procs[id]);
    }
  }

  /** While no fence is up, no process is between its check and its activation. */
  lemma ProcKeptByAdmission(support: Support, w: World, executions: map<string, Execution>, p: Proc)
    requires w.site.fence.None? && ProcOk(support, w, p)
    ensures ProcOk(support, w.(site := w.site.(executions := executions)), p)
  {}

  lemma AdmissionKeeps(support: Support, w: World, run: string, pin: HandlerPin, worker: Option<Fence>)
    requires Inv(support, w) && Admissible(support, w.site, run, pin, worker)
    ensures Inv(support, Apply(support, w, Admit(run, pin, worker)))
  {
    var v := Apply(support, w, Admit(run, pin, worker));
    assert ActivePins(v.site) <= ActivePins(w.site) + {pin};
    assert GenerationOk(support, v);
    forall id | id in v.procs ensures Known(support, v, id) {
      assert Known(support, w, id);
      ProcKeptByAdmission(support, w, v.site.executions, w.procs[id]);
    }
  }

  /** The environment changes executions only, and while a fence is up it only retires work. */
  lemma ExecutionsKeep(support: Support, w: World, e: Event)
    requires Inv(support, w) && (e.Admit? || e.Transition? || e.Purge?)
    ensures Inv(support, Apply(support, w, e))
  {
    var executions := Apply(support, w, e).site.executions;
    if e.Admit? {
      if Admissible(support, w.site, e.run, e.pin, e.worker) { AdmissionKeeps(support, w, e.run, e.pin, e.worker); }
    } else {
      assert ActivePins(w.site.(executions := executions)) <= ActivePins(w.site);
      RetiringKeeps(support, w, executions);
    }
  }

  lemma LaunchKeeps(support: Support, w: World, f: Fence, mode: Mode)
    requires Inv(support, w) && MayLaunch(w, f, mode)
    ensures Inv(support, Apply(support, w, Launch(f, mode)))
  {
    var v := Apply(support, w, Launch(f, mode));
    assert ProcOk(support, v, Start(f, mode));
    forall id | id in v.procs ensures Known(support, v, id) {
      if id != f.id {
        assert Known(support, w, id);
        assert OwnershipOk(v, v.procs[id]);
      }
    }
  }

  lemma CrashKeeps(support: Support, w: World, id: string)
    requires Inv(support, w) && id in w.procs && !Ended(w.procs[id])
    ensures Inv(support, Apply(support, w, Crash(id)))
  {
    var v := Apply(support, w, Crash(id));
    forall other | other in v.procs ensures Known(support, v, other) {
      assert Known(support, w, other);
      assert OwnershipOk(v, v.procs[other]);
    }
  }

  lemma EventKeeps(support: Support, w: World, e: Event)
    requires Inv(support, w)
    ensures Inv(support, Apply(support, w, e))
  {
    match e
    case Advance(id, o) => if id in w.procs { AdvanceKeeps(support, w, id, o); }
    case Launch(f, mode) => if MayLaunch(w, f, mode) { LaunchKeeps(support, w, f, mode); }
    case Crash(id) => if id in w.procs && !Ended(w.procs[id]) { CrashKeeps(support, w, id); }
    case _ => ExecutionsKeep(support, w, e);
  }

  lemma {:induction false} RunKeeps(support: Support, w: World, events: seq<Event>)
    requires Initial(w)
    ensures Inv(support, Run(support, w, events))
  {
    if events == [] {
    } else {
      RunKeeps(support, w, events[..|events| - 1]);
      EventKeeps(support, Run(support, w, events[..|events| - 1]), events[|events| - 1]);
    }
  }
}
