/**
 The gate as the program it is: awaited statements, a `try` and a `catch`. A script supplies,
 for each statement in turn, the shared site it meets (others have run meanwhile) and how it
 ends; an exhausted script is a process that stopped. Each method is proved to walk exactly the
 steps of `DeploymentGate.ProcStep`, so what is proved of all runs there holds of this code.
 */
module GateProgram {
  import opened Text
  import opened DeploymentGate
  import opened DeploymentSafety

  datatype Turn = Turn(site: Site, outcome: Outcome)

  /** The steps of one process over a script. */
  function Replay(support: Support, site: Site, p: Proc, script: seq<Turn>): (Site, Proc)
    decreases |script|
  {
    if Ended(p) || script == [] then (site, p)
    else
      var (s, q) := ProcStep(support, script[0].site, p, script[0].outcome);
      Replay(support, s, q, script[1..])
  }

  lemma {:induction false} ReplayLast(support: Support, site: Site, p: Proc, script: seq<Turn>, t: Turn)
    ensures var (s, q) := Replay(support, site, p, script);
            Replay(support, site, p, script + [t])
            == if Ended(q) then (s, q) else ProcStep(support, t.site, q, t.outcome)
    decreases |script|
  {
    if script == [] {
      if !Ended(p) {
        var (s, q) := ProcStep(support, t.site, p, t.outcome);
        assert ([] + [t])[1..] == [];
        assert Replay(support, s, q, []) == (s, q);
      }
    } else if !Ended(p) {
      var (s, q) := ProcStep(support, script[0].site, p, script[0].outcome);
      assert (script + [t])[1..] == script[1..] + [t];
      ReplayLast(support, s, q, script[1..], t);
    }
  }

  /** What a run of the world hands to one process. */
  function ScriptOf(support: Support, w: World, events: seq<Event>, id: string): seq<Turn> {
    if events == [] then []
    else
      var before, e := events[..|events| - 1], events[|events| - 1];
      ScriptOf(support, w, before, id)
      + if e.Advance? && e.id == id then [Turn(Run(support, w, before).site, e.outcome)] else []
  }

  lemma ReplayedTurn(support: Support, site: Site, p: Proc, script: seq<Turn>, v: World, o: Outcome, id: string)
    requires id in v.procs && v.procs[id] == Replay(support, site, p, script).1
    ensures id in Apply(support, v, Advance(id, o)).procs
    ensures Apply(support, v, Advance(id, o)).procs[id] == Replay(support, site, p, script + [Turn(v.site, o)]).1
  {
    StepOf(support, v, id, o);
    ReplayLast(support, site, p, script, Turn(v.site, o));
  }

  lemma ReplayedStep(support: Support, w: World, before: seq<Event>, e: Event, id: string)
    requires id in w.procs && id in Run(support, w, before).procs
    requires Run(support, w, before).procs[id]
             == Replay(support, w.site, w.procs[id], ScriptOf(support, w, before, id)).1
    requires (e.Advance? && e.id == id) || LeavesAlone(e, id)
    ensures id in Apply(support, Run(support, w, before), e).procs
    ensures var turns := if e.Advance? && e.id == id then [Turn(Run(support, w, before).site, e.outcome)] else [];
            Apply(support, Run(support, w, before), e).procs[id]
            == Replay(support, w.site, w.procs[id], ScriptOf(support, w, before, id) + turns).1
  {
    var v, script := Run(support, w, before), ScriptOf(support, w, before, id);
    if LeavesAlone(e, id) {
      LeftAlone(support, v, e, id);
      assert script + [] == script;
    } else {
      ReplayedTurn(support, w.site, w.procs[id], script, v, e.outcome, id);
    }
  }

  /** Every process of every run behaves as its own program on the script the run hands it. */
  lemma {:induction false} RunReplaysProgram(support: Support, w: World, events: seq<Event>, id: string)
    requires id in w.procs
    requires forall e | e in events :: (e.Advance? && e.id == id) || LeavesAlone(e, id)
    ensures id in Run(support, w, events).procs
    ensures Run(support, w, events).procs[id]
            == Replay(support, w.site, w.procs[id], ScriptOf(support, w, events, id)).1
  {
    if events == [] {
    } else {
      var before, e := events[..|events| - 1], events[|events| - 1];
      RunReplaysProgram(support, w, before, id);
      assert e in events;
      ReplayedStep(support, w, before, e, id);
    }
  }

  datatype Reply = Done | Threw | Stopped

  class Deployer {
    const support: Support
    const fence: Fence
    const mode: Mode
    var site: Site
    var script: seq<Turn>
    ghost var proc: Proc

    constructor (support: Support, fence: Fence, mode: Mode, site: Site, script: seq<Turn>)
      ensures this.support == support && this.fence == fence && this.mode == mode
      ensures this.site == site && this.script == script && proc == Start(fence, mode)
    {
      this.support, this.fence, this.mode := support, fence, mode;
      this.site, this.script := site, script;
      this.proc := Start(fence, mode);
    }

    ghost predicate At(pc: Pc)
      reads this
    {
      proc.fence == fence && proc.mode == mode && proc.pc == pc
    }

    /** The fields denote a point of the same replay as before. */
    twostate predicate Continues()
      reads this
    {
      && proc.fence == fence && proc.mode == mode
      && Replay(support, site, proc, script) == Replay(support, old(site), old(proc), old(script))
    }

    /** Waits for the next statement to run: by then the others have changed the site. */
    method Await() returns (outcome: Option<Outcome>)
      requires !Ended(proc)
      modifies this`site, this`script
      ensures outcome.None? ==> old(script) == [] && script == [] && site == old(site)
      ensures outcome.Some? ==> old(script) != [] && script == old(script)[1..]
                                && Turn(site, outcome.value) == old(script)[0]
      ensures outcome.Some? ==> var (s, q) := ProcStep(support, site, proc, outcome.value);
                                Replay(support, s, q, script) == Replay(support, old(site), proc, old(script))
    {
      if script == [] { return None; }
      site := script[0].site;
      outcome := Some(script[0].outcome);
      script := script[1..];
    }

    method RequireDeploymentFence() returns (r: Reply)
      requires proc.fence == fence && proc.mode == mode
      requires proc.pc in {Confirm, ResumeRequire, LoadRequire, Recheck, ReleaseRequire, ActivateRequire, CatchRequire}
      modifies this
      ensures Continues()
      ensures r.Done? ==> proc == old(proc).(pc := match old(proc).pc
                                                   case Confirm | ResumeRequire => LoadRequire
                                                   case LoadRequire => Load
                                                   case Recheck => Deploy
                                                   case ReleaseRequire => ReleaseDelete
                                                   case ActivateRequire => ActivateUpdate
                                                   case _ => CatchDelete)
      ensures r.Threw? ==> proc == Throw(old(proc))
      ensures r.Stopped? ==> proc == old(proc) && script == []
    {
      var o := Await();
      if o.None? { return Stopped; }
      var owned := ValidFence(fence) && o.value == Acknowledged && site.fence == Some(fence);
      proc := ProcStep(support, site, proc, o.value).1;
      return if owned then Done else Threw;
    }

    method AcquireDeploymentFence() returns (r: Reply)
      requires At(Pc.Insert)
      modifies this
      ensures Continues()
      ensures r.Done? ==> proc == old(proc).(pc := LoadRequire)
      ensures r.Threw? ==> proc == old(proc).(pc := Failed)
      ensures r.Stopped? ==> !Ended(proc) && script == []
    {
      var o := Await();
      if o.None? { return Stopped; }
      var before := site;
      var ok: bool;
      site, ok := InsertFence(before, fence, o.value).0, InsertFence(before, fence, o.value).1;
      proc := ProcStep(support, before, proc, o.value).1;
      if !ok { return Threw; }
      r := RequireDeploymentFence();
    }

    /** Used both by an inspection at its end and by the `catch` of a failed preparation. */
    method ReleaseDeploymentFence() returns (r: Reply)
      requires At(ReleaseRequire) || At(CatchRequire)
      modifies this
      ensures Continues()
      ensures r.Done? ==> proc == old(proc).(pc := if old(proc).pc == CatchRequire then Failed else Succeeded)
      ensures r.Threw? ==> proc == old(proc).(pc := Failed)
      ensures r.Stopped? ==> !Ended(proc) && script == []
    {
      r := RequireDeploymentFence();
      if !r.Done? { return; }
      var o := Await();
      if o.None? { return Stopped; }
      var before := site;
      site := DeleteFence(before, fence, o.value).0;
      proc := ProcStep(support, before, proc, o.value).1;
      return if o.value == Acknowledged then Done else Threw;
    }

    method ActivateDeploymentFence() returns (r: Reply)
      requires At(Pc.ReadGeneration)
      modifies this
      ensures Continues()
      ensures r.Done? ==> proc == old(proc).(pc := Succeeded)
      ensures r.Threw? ==> proc == old(proc).(pc := Failed)
      ensures r.Stopped? ==> !Ended(proc) && script == []
    {
      var o := Await();
      if o.None? { return Stopped; }
      proc := ProcStep(support, site, proc, o.value).1;
      if !ValidFence(fence) || o.value != Acknowledged { return Threw; }
      if site.generation == Some(fence) { return Done; }
      r := RequireDeploymentFence();
      if !r.Done? { return; }
      r := InstallGeneration();
    }

    /** The guarded UPDATE, after the ownership check. */
    method InstallGeneration() returns (r: Reply)
      requires At(Pc.ActivateUpdate)
      modifies this
      ensures Continues()
      ensures r.Done? ==> proc == old(proc).(pc := Succeeded)
      ensures r.Threw? ==> proc == old(proc).(pc := Failed)
      ensures r.Stopped? ==> proc == old(proc) && script == []
    {
      var o := Await();
      if o.None? { return Stopped; }
      var before := site;
      site := ActivateFence(before, fence, o.value).0;
      proc := ProcStep(support, before, proc, o.value).1;
      return if o.value == Acknowledged then Done else Threw;
    }

    method LoadRequiredDurableHandlers() returns (r: Reply, pins: set<HandlerPin>)
      requires At(Pc.LoadRequire)
      modifies this
      ensures Continues()
      ensures r.Done? ==> proc == old(proc).(pc := Check, pins := pins)
      ensures r.Threw? ==> proc == Throw(old(proc))
      ensures r.Stopped? ==> !Ended(proc) && script == []
    {
      pins := {};
      r := RequireDeploymentFence();
      if !r.Done? { return; }
      var o := Await();
      if o.None? { return Stopped, pins; }
      pins := ActivePins(site);
      proc := ProcStep(support, site, proc, o.value).1;
      return if o.value == Acknowledged && |pins| <= INSPECTION_LIMIT then Done else Threw, pins;
    }

    /** The body of the `try` up to `attempted = true`. */
    method Prepare() returns (r: Reply)
      requires At(Pc.LoadRequire)
      modifies this
      ensures Continues()
      ensures r.Done? ==> proc.pc == Deploy
      ensures r.Threw? ==> proc.pc == if mode == Resume then Failed else CatchRequire
      ensures r.Stopped? ==> !Ended(proc) && script == []
    {
      var pins;
      r, pins := LoadRequiredDurableHandlers();
      if !r.Done? { return; }
      var o := Await();
      if o.None? { return Stopped; }
      proc := ProcStep(support, site, proc, o.value).1;
      if o.value != Acknowledged || exists pin | pin in pins :: !support(fence.sha, pin) { return Threw; }
      r := RequireDeploymentFence();
    }

    /** An inspection has nothing to observe. */
    method Verify() returns (r: Reply)
      requires At(Pc.Verify)
      modifies this
      ensures Continues()
      ensures r.Done? ==> proc == old(proc).(pc := if mode == Inspect then ReleaseRequire else ReadGeneration)
      ensures r.Threw? ==> proc == old(proc).(pc := Failed)
      ensures r.Stopped? ==> proc == old(proc) && script == []
    {
      var o := Await();
      if o.None? { return Stopped; }
      var seen := mode == Inspect || (o.value == Acknowledged && exists u | u in site.uploaded :: u.id == fence.id);
      proc := ProcStep(support, site, proc, o.value).1;
      return if seen then Done else Threw;
    }

    /** `deploy`, `verify`, and the release or activation that ends the `try`. */
    method Complete() returns (r: Reply)
      requires At(Deploy) && mode != Release
      modifies this
      ensures Continues()
      ensures r.Done? ==> proc.pc == Succeeded
      ensures r.Threw? ==> proc.pc == Failed
      ensures r.Stopped? ==> !Ended(proc) && script == []
    {
      var o := Await();
      if o.None? { return Stopped; }
      var before := site;
      if mode != Inspect { site := Upload(before, fence, o.value).0; }
      proc := ProcStep(support, before, proc, o.value).1;
      if mode != Inspect && o.value != Acknowledged { return Threw; }
      r := Verify();
      if r.Done? {
        if mode == Inspect { r := ReleaseDeploymentFence(); } else { r := ActivateDeploymentFence(); }
      }
    }

    /** `withDurableDeploymentGate`: a fresh, inspecting or resuming run, from first to last statement. */
    method WithDurableDeploymentGate() returns (r: Reply)
      requires mode != Release && proc == Start(fence, mode)
      modifies this
      ensures var (s, p) := Replay(support, old(site), Start(fence, mode), old(script));
              site == s && (r.Done? <==> p.pc == Succeeded) && (r.Threw? <==> p.pc == Failed)
    {
      if mode == Resume { r := RequireDeploymentFence(); } else { r := AcquireDeploymentFence(); }
      if !r.Done? { return; }
      var attempted := mode == Resume;
      r := Prepare();
      if r.Done? {
        r := Complete();
      } else if r.Threw? && !attempted {
        var released := ReleaseDeploymentFence();
        if released.Stopped? { r := Stopped; }
      }
    }

    /** The `--release` run: verify, then activate, without the check. */
    method ReleaseUncertainDeployment() returns (r: Reply)
      requires mode == Release && proc == Start(fence, mode)
      modifies this
      ensures var (s, p) := Replay(support, old(site), Start(fence, mode), old(script));
              site == s && (r.Done? <==> p.pc == Succeeded) && (r.Threw? <==> p.pc == Failed)
    {
      r := Verify();
      if r.Done? { r := ActivateDeploymentFence(); }
    }
  }
}
