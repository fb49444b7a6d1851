/** What the deployment gate guarantees in every run, from the invariant of `DeploymentGate`. */
module DeploymentSafety {
  import opened Text
  import opened DeploymentGate

  lemma RunExtends(support: Support, w: World, events: seq<Event>, e: Event)
    ensures Run(support, w, events + [e]) == Apply(support, Run(support, w, events), e)
  {
    assert (events + [e])[..|events|] == events;
  }

  lemma StepOf(support: Support, v: World, id: string, o: Outcome)
    requires id in v.procs
    ensures var v' := Apply(support, v, Advance(id, o));
            id in v'.procs && (v'.site, v'.procs[id]) == ProcStep(support, v.site, v.procs[id], o)
  {}

  /** In every reachable state, so in particular at the moment of every activation, each pending
      or started execution has a pin that the artifact of the active generation retains. */
  lemma GenerationRetainsActiveWork(support: Support, w: World, events: seq<Event>)
    requires Initial(w)
    ensures var site := Run(support, w, events).site;
            site.generation.Some? ==> Retains(support, site.generation.value.sha, site)
  {
    RunKeeps(support, w, events);
  }

  lemma OthersLeaveRows(support: Support, v: World, e: Event)
    requires e.Advance? ==> e.id !in v.procs
    ensures Apply(support, v, e).site.fence == v.site.fence && Apply(support, v, e).site.generation == v.site.generation
  {}

  lemma RowsAfter(support: Support, v: World, e: Event)
    requires Inv(support, v)
    ensures var v' := Apply(support, v, e);
      && (v'.site.generation != v.site.generation ==>
            v.site.fence.Some? && v'.site.generation == v.site.fence && e.Advance? && e.id == v.site.fence.value.id)
      && (v.site.fence.Some? && v'.site.fence != v.site.fence ==>
            var f := v.site.fence.value;
            e.Advance? && e.id == f.id && v'.site.fence.None?
            && (v'.site.generation == Some(f)
                || (v'.site.generation == v.site.generation && f !in v.attempted && !UploadedAs(v.site, f.id))))
  {
    if e.Advance? && e.id in v.procs {
      assert Known(support, v, e.id);
      StepOf(support, v, e.id, e.outcome);
      StepOnRows(support, v.site, v.procs[e.id], e.outcome);
    } else {
      OthersLeaveRows(support, v, e);
    }
  }

  /** The rows name valid deployments, and the generation was seen uploaded. */
  predicate RowsOk(site: Site) {
    && (site.fence.Some? ==> ValidFence(site.fence.value))
    && (site.generation.Some? ==> ValidFence(site.generation.value) && UploadedAs(site, site.generation.value.id))
  }

  lemma StepRowsOk(support: Support, site: Site, p: Proc, o: Outcome)
    requires RowsOk(site) && (Activating(p.pc) ==> UploadedAs(site, p.fence.id))
    ensures RowsOk(ProcStep(support, site, p, o).0)
  {
    assert site.uploaded <= ProcStep(support, site, p, o).0.uploaded;
  }

  lemma OthersLeaveUploads(support: Support, v: World, e: Event)
    requires (e.Advance? ==> e.id !in v.procs) && RowsOk(v.site)
    ensures RowsOk(Apply(support, v, e).site)
  {
    OthersLeaveRows(support, v, e);
    assert Apply(support, v, e).site.uploaded == v.site.uploaded;
  }

  lemma {:induction false} RunRowsOk(support: Support, w: World, events: seq<Event>)
    requires Initial(w)
    ensures RowsOk(Run(support, w, events).site)
  {
    if events == [] {
    } else {
      var before, e := events[..|events| - 1], events[|events| - 1];
      assert events == before + [e];
      RunExtends(support, w, before, e);
      RunRowsOk(support, w, before);
      RunKeeps(support, w, before);
      var v := Run(support, w, before);
      if e.Advance? && e.id in v.procs {
        assert Known(support, v, e.id);
        StepOf(support, v, e.id, e.outcome);
        StepRowsOk(support, v.site, v.procs[e.id], e.outcome);
      } else {
        OthersLeaveUploads(support, v, e);
      }
    }
  }

  /** Only a deployment's own process takes its fence down: by activating it, or by releasing a
      fence under which nothing was ever uploaded. */
  lemma OnlyOwnerRemovesFence(support: Support, w: World, events: seq<Event>, e: Event)
    requires Initial(w)
    requires Run(support, w, events).site.fence.Some?
    ensures var v, v' := Run(support, w, events), Run(support, w, events + [e]);
            var f := v.site.fence.value;
            v'.site.fence != v.site.fence ==>
              && e.Advance? && e.id == f.id && v'.site.fence.None?
              && (v'.site.generation == Some(f)
                  || (v'.site.generation == v.site.generation && f !in v.attempted && !UploadedAs(v.site, f.id)))
  {
    RunExtends(support, w, events, e);
    RunKeeps(support, w, events);
    RowsAfter(support, Run(support, w, events), e);
  }

  /** The generation row changes only when its own process turns its own fence into it, and no
      deployment becomes the generation a second time. */
  lemma ActivatesOnceAndOnlyOwnFence(support: Support, w: World, events: seq<Event>, e: Event)
    requires Initial(w)
    ensures var v, v' := Run(support, w, events), Run(support, w, events + [e]);
            v'.site.generation != v.site.generation ==>
              && v'.site.generation.Some? && v.site.fence == v'.site.generation
              && e.Advance? && e.id == v'.site.generation.value.id
              && v'.site.generation.value !in v.activated
  {
    RunExtends(support, w, events, e);
    RunKeeps(support, w, events);
    RowsAfter(support, Run(support, w, events), e);
    if Run(support, w, events).site.fence.Some? { FenceIsNew(support, Run(support, w, events)); }
  }

  lemma FenceIsNew(support: Support, v: World)
    requires FenceOk(support, v) && v.site.fence.Some?
    ensures v.site.fence.value !in v.activated
  {}

  lemma ActivatedStep(support: Support, v: World, e: Event)
    requires GenerationOk(support, v)
    ensures var v' := Apply(support, v, e);
            v'.activated == v.activated + (if v'.site.generation.Some? then {v'.site.generation.value} else {})
  {}

  predicate WasGeneration(support: Support, w: World, events: seq<Event>, f: Fence) {
    exists k | 0 <= k <= |events| :: Run(support, w, events[..k]).site.generation == Some(f)
  }

  lemma WasGenerationStep(support: Support, w: World, events: seq<Event>, e: Event, f: Fence)
    ensures WasGeneration(support, w, events + [e], f)
        <==> WasGeneration(support, w, events, f) || Run(support, w, events + [e]).site.generation == Some(f)
  {
    var longer := events + [e];
    assert longer[..|longer|] == longer;
    assert forall k | 0 <= k <= |events| :: longer[..k] == events[..k];
  }

  /** `activated` is exactly the list of generations the run has had. */
  lemma {:induction false} ActivatedIsHistory(support: Support, w: World, events: seq<Event>, f: Fence)
    requires Initial(w)
    ensures f in Run(support, w, events).activated <==> WasGeneration(support, w, events, f)
  {
    if events == [] {
      assert Run(support, w, events[..0]) == w;
    } else {
      var shorter, e := events[..|events| - 1], events[|events| - 1];
      assert events == shorter + [e];
      ActivatedIsHistory(support, w, shorter, f);
      RunKeeps(support, w, shorter);
      RunExtends(support, w, shorter, e);
      ActivatedStep(support, Run(support, w, shorter), e);
      WasGenerationStep(support, w, shorter, e, f);
    }
  }

  lemma StepReturns(support: Support, site: Site, p: Proc, o: Outcome)
    requires Reaches(p) && (Holds(p) ==> site.fence == Some(p.fence)) && p.pc != Succeeded && p.mode != Inspect
    ensures var (s, q) := ProcStep(support, site, p, o);
            q.pc == Succeeded ==> s.generation == Some(p.fence) && (s.fence.None? || s.fence == site.fence)
  {}

  lemma GenerationIsNotFence(support: Support, v: World)
    requires FenceOk(support, v) && GenerationOk(support, v) && (v.site.fence.Some? || v.site.generation.Some?)
    ensures v.site.fence != v.site.generation
  {}

  /** A normal return of an activating run is the return of a committed activation. */
  lemma ReturnMeansCommitted(support: Support, w: World, events: seq<Event>, id: string, o: Outcome)
    requires Initial(w)
    requires id in Run(support, w, events).procs
    ensures var p, v := Run(support, w, events).procs[id], Run(support, w, events + [Advance(id, o)]);
            v.procs[id].pc == Succeeded && p.pc != Succeeded && p.mode != Inspect
            ==> v.site.generation == Some(p.fence) && v.site.fence != Some(p.fence)
  {
    var v, p := Run(support, w, events), Run(support, w, events).procs[id];
    RunExtends(support, w, events, Advance(id, o));
    RunKeeps(support, w, events);
    assert Known(support, v, id);
    StepOf(support, v, id, o);
    if p.pc != Succeeded && p.mode != Inspect {
      StepReturns(support, v.site, p, o);
      RunKeeps(support, w, events + [Advance(id, o)]);
      if Run(support, w, events + [Advance(id, o)]).site.generation.Some? {
        GenerationIsNotFence(support, Run(support, w, events + [Advance(id, o)]));
      }
    }
  }

  lemma StepInspected(support: Support, site: Site, p: Proc, o: Outcome)
    requires Reaches(p) && (Holds(p) ==> site.fence == Some(p.fence)) && p.pc != Succeeded && p.mode == Inspect
    ensures var (s, q) := ProcStep(support, site, p, o);
            q.pc == Succeeded ==> site.fence == Some(p.fence) && s == site.(fence := None)
  {}

  /** A normal return of an inspection: its fence was up and is gone, nothing was uploaded or attempted under
      it, and the generation is what it was and never was this deployment. */
  lemma InspectionLeavesNothing(support: Support, w: World, events: seq<Event>, id: string, o: Outcome)
    requires Initial(w)
    requires id in Run(support, w, events).procs
    ensures var u, v := Run(support, w, events), Run(support, w, events + [Advance(id, o)]);
            var p := u.procs[id];
            id in v.procs && v.procs[id].pc == Succeeded && p.pc != Succeeded && p.mode == Inspect ==>
              && u.site.fence == Some(p.fence) && v.site == u.site.(fence := None)
              && !UploadedAs(v.site, p.fence.id) && p.fence !in v.attempted && p.fence !in v.activated
  {
    var u, p := Run(support, w, events), Run(support, w, events).procs[id];
    RunExtends(support, w, events, Advance(id, o));
    RunKeeps(support, w, events);
    assert Known(support, u, id);
    StepOf(support, u, id, o);
    if p.pc != Succeeded && p.mode == Inspect {
      StepInspected(support, u.site, p, o);
      StepKeepsIdentity(support, u.site, p, o);
      InspectionOwns(support, w, events + [Advance(id, o)], id);
      ActivatedStep(support, u, Advance(id, o));
      if u.site.fence == Some(p.fence) { FenceIsNew(support, u); }
    }
  }

  /** An inspection never uploads or attempts anything. */
  lemma InspectionOwns(support: Support, w: World, events: seq<Event>, id: string)
    requires Initial(w)
    requires id in Run(support, w, events).procs && Run(support, w, events).procs[id].mode == Inspect
    ensures var v := Run(support, w, events); var f := v.procs[id].fence;
            !UploadedAs(v.site, f.id) && f !in v.attempted
  {
    RunKeeps(support, w, events);
    assert Known(support, Run(support, w, events), id);
  }

  lemma {:induction false} AttemptedGrows(support: Support, w: World, events: seq<Event>, more: seq<Event>)
    ensures Run(support, w, events).attempted <= Run(support, w, events + more).attempted
  {
    if more == [] {
      assert events + more == events;
    } else {
      var n := |more| - 1;
      AttemptedGrows(support, w, events, more[..n]);
      assert (events + more)[..|events + more| - 1] == events + more[..n];
    }
  }

  /** Once an activating run has reached `deploy`, its fence stays until it is the generation,
      whatever fails, crashes, resumes or runs beside it. */
  lemma AttemptedFenceStays(support: Support, w: World, events: seq<Event>, more: seq<Event>, f: Fence)
    requires Initial(w)
    requires f in Run(support, w, events).attempted
    ensures var v := Run(support, w, events + more); v.site.fence == Some(f) || f in v.activated
  {
    AttemptedGrows(support, w, events, more);
    RunKeeps(support, w, events + more);
  }

  /** Events of everything but one process. */
  predicate LeavesAlone(e: Event, id: string) {
    match e
    case Advance(other, _) => other != id
    case Launch(f, _) => f.id != id
    case Crash(other) => other != id
    case _ => true
  }

  lemma LeftAlone(support: Support, v: World, e: Event, id: string)
    requires id in v.procs && LeavesAlone(e, id)
    ensures id in Apply(support, v, e).procs && Apply(support, v, e).procs[id] == v.procs[id]
  {}

  lemma {:induction false} Bystanders(support: Support, w: World, events: seq<Event>, between: seq<Event>, id: string)
    requires Initial(w) && id in Run(support, w, events).procs
    requires forall e | e in between :: LeavesAlone(e, id)
    ensures id in Run(support, w, events + between).procs
    ensures Run(support, w, events + between).procs[id] == Run(support, w, events).procs[id]
  {
    if between == [] {
      assert events + between == events;
    } else {
      var n := |between| - 1;
      assert between[n] in between && forall e | e in between[..n] :: e in between;
      Bystanders(support, w, events, between[..n], id);
      LeftAlone(support, Run(support, w, events + between[..n]), between[n], id);
      assert events + between == events + between[..n] + [between[n]];
      RunExtends(support, w, events + between[..n], between[n]);
    }
  }

  lemma CatchSteps(support: Support, site: Site, p: Proc)
    requires site.fence == Some(p.fence) && ValidFence(p.fence)
    ensures p.pc == CatchRequire ==> ProcStep(support, site, p, Acknowledged) == (site, p.(pc := CatchDelete))
    ensures p.pc == CatchDelete ==> ProcStep(support, site, p, Acknowledged) == (site.(fence := None), p.(pc := Failed))
  {}

  lemma HolderOf(support: Support, w: World, events: seq<Event>, id: string)
    requires Initial(w) && id in Run(support, w, events).procs && Holds(Run(support, w, events).procs[id])
    ensures var v := Run(support, w, events); v.site.fence == Some(v.procs[id].fence)
  {
    RunKeeps(support, w, events);
    assert Known(support, Run(support, w, events), id);
  }

  /** A run that fails before `deploy` and whose two release statements are acknowledged takes its
      fence down again, whatever others do in between: the table is empty, as its INSERT found it. */
  lemma PreflightFailureReleases(support: Support, w: World, events: seq<Event>, between: seq<Event>, id: string)
    requires Initial(w) && id in Run(support, w, events).procs
    requires Run(support, w, events).procs[id].pc == CatchRequire
    requires forall e | e in between :: LeavesAlone(e, id)
    ensures var v := Run(support, w, events + [Advance(id, Acknowledged)] + between + [Advance(id, Acknowledged)]);
            v.site.fence.None? && id in v.procs && v.procs[id].pc == Failed
  {
    var required := events + [Advance(id, Acknowledged)];
    RunExtends(support, w, events, Advance(id, Acknowledged));
    RunRowsOk(support, w, events);
    HolderOf(support, w, events, id);
    StepOf(support, Run(support, w, events), id, Acknowledged);
    CatchSteps(support, Run(support, w, events).site, Run(support, w, events).procs[id]);
    Bystanders(support, w, required, between, id);
    HolderOf(support, w, required + between, id);
    StepOf(support, Run(support, w, required + between), id, Acknowledged);
    CatchSteps(support, Run(support, w, required + between).site, Run(support, w, required + between).procs[id]);
    RunExtends(support, w, required + between, Advance(id, Acknowledged));
  }

  lemma ReleaseSteps(support: Support, site: Site, p: Proc, o: Outcome)
    requires site.fence == Some(p.fence) && ValidFence(p.fence) && p.mode == Inspect
    ensures p.pc == ReleaseRequire ==>
            ProcStep(support, site, p, o) == (site, p.(pc := if o == Acknowledged then ReleaseDelete else Failed))
    ensures p.pc == ReleaseDelete ==>
            ProcStep(support, site, p, o)
            == (if Commits(o) then site.(fence := None) else site,
                p.(pc := if o == Acknowledged then Succeeded else Failed))
  {}

  lemma FenceLeftAlone(support: Support, v: World, e: Event, f: Fence)
    requires Inv(support, v) && LeavesAlone(e, f.id)
    ensures Apply(support, v, e).site.fence == Some(f) <==> v.site.fence == Some(f)
  {
    if e.Advance? && e.id in v.procs {
      assert Known(support, v, e.id);
      StepOf(support, v, e.id, e.outcome);
      StepOnRows(support, v.site, v.procs[e.id], e.outcome);
      StepUnderFence(support, v.site, v.procs[e.id], e.outcome);
    } else {
      OthersLeaveRows(support, v, e);
    }
  }

  lemma FenceBystander(support: Support, w: World, events: seq<Event>, e: Event, f: Fence)
    requires Initial(w) && LeavesAlone(e, f.id)
    ensures Run(support, w, events + [e]).site.fence == Some(f) <==> Run(support, w, events).site.fence == Some(f)
  {
    RunKeeps(support, w, events);
    FenceLeftAlone(support, Run(support, w, events), e, f);
    RunExtends(support, w, events, e);
  }

  lemma {:induction false} FenceBystanders(support: Support, w: World, events: seq<Event>, between: seq<Event>,
                                           f: Fence)
    requires Initial(w) && forall e | e in between :: LeavesAlone(e, f.id)
    ensures Run(support, w, events + between).site.fence == Some(f) <==> Run(support, w, events).site.fence == Some(f)
  {
    if between == [] {
      assert events + between == events;
    } else {
      var init, last := between[..|between| - 1], between[|between| - 1];
      assert last in between && forall e | e in init :: e in between;
      FenceBystanders(support, w, events, init, f);
      FenceBystander(support, w, events + init, last, f);
      assert events + between == events + init + [last];
    }
  }

  lemma AfterReleaseStep(support: Support, w: World, events: seq<Event>, id: string, o: Outcome)
    requires Initial(w) && id in Run(support, w, events).procs && Run(support, w, events).procs[id].mode == Inspect
    requires var pc := Run(support, w, events).procs[id].pc; pc == ReleaseRequire || pc == ReleaseDelete || pc == Failed
    ensures var v, v' := Run(support, w, events), Run(support, w, events + [Advance(id, o)]);
            var p := v.procs[id];
            && id in v'.procs && p.fence.id == id && (Holds(p) ==> v.site.fence == Some(p.fence))
            && v'.site == (if p.pc == ReleaseDelete && Commits(o) then v.site.(fence := None) else v.site)
            && v'.procs[id] == p.(pc := if p.pc == Failed || o != Acknowledged then Failed
                                        else if p.pc == ReleaseRequire then ReleaseDelete
                                        else Succeeded)
  {
    var v := Run(support, w, events);
    RunKeeps(support, w, events);
    RunRowsOk(support, w, events);
    assert Known(support, v, id);
    RunExtends(support, w, events, Advance(id, o));
    StepOf(support, v, id, o);
    if v.procs[id].pc != Failed { ReleaseSteps(support, v.site, v.procs[id], o); }
  }

  /** The end of an inspection, whatever others do between its two statements: it returns exactly when both
      are acknowledged; otherwise `catch` does not release again, and the fence stays exactly when the DELETE
      did not commit. */
  lemma InspectionKeepsFenceIff(support: Support, w: World, events: seq<Event>, between: seq<Event>, id: string,
                                require: Outcome, delete: Outcome)
    requires Initial(w) && id in Run(support, w, events).procs && Run(support, w, events).procs[id].mode == Inspect
    requires Run(support, w, events).procs[id].pc == ReleaseRequire
    requires forall e | e in between :: LeavesAlone(e, id)
    ensures var f := Run(support, w, events).procs[id].fence;
            var after := Run(support, w, events + [Advance(id, require)] + between + [Advance(id, delete)]);
            && id in after.procs
            && after.procs[id].pc == (if require == Acknowledged && delete == Acknowledged then Succeeded else Failed)
            && (after.site.fence == Some(f) <==> require != Acknowledged || !Commits(delete))
  {
    var required := events + [Advance(id, require)];
    AfterReleaseStep(support, w, events, id, require);
    Bystanders(support, w, required, between, id);
    FenceBystanders(support, w, required, between, Run(support, w, events).procs[id].fence);
    AfterReleaseStep(support, w, required + between, id, delete);
  }

  /** Whether an INSERT takes the row. */
  predicate Takes(site: Site, f: Fence, o: Outcome) {
    ValidFence(f) && site.fence.None? && Commits(o)
  }

  lemma InsertStep(support: Support, site: Site, p: Proc, o: Outcome)
    requires p.pc == Insert && site.fence != Some(p.fence)
    ensures var (s, q) := ProcStep(support, site, p, o);
      && (s.fence == Some(p.fence) <==> Takes(site, p.fence, o))
      && q == p.(pc := if Takes(site, p.fence, o) && o == Acknowledged then Confirm else Failed)
  {}

  lemma ConfirmStep(support: Support, site: Site, p: Proc, o: Outcome)
    requires p.pc == Confirm && site.fence == Some(p.fence) && ValidFence(p.fence)
    ensures ProcStep(support, site, p, o) == (site, p.(pc := if o == Acknowledged then LoadRequire else Failed))
  {}

  lemma InserterIsNew(support: Support, v: World, id: string)
    requires Inv(support, v) && id in v.procs && v.procs[id].pc == Insert
    ensures v.procs[id].fence.id == id && v.site.fence != Some(v.procs[id].fence)
  {
    assert Known(support, v, id);
  }

  lemma AfterInsert(support: Support, w: World, events: seq<Event>, id: string, o: Outcome)
    requires Initial(w) && id in Run(support, w, events).procs && Run(support, w, events).procs[id].pc == Insert
    ensures var v, v' := Run(support, w, events), Run(support, w, events + [Advance(id, o)]);
            var p := v.procs[id];
            && p.fence.id == id && id in v'.procs
            && (v'.site.fence == Some(p.fence) <==> Takes(v.site, p.fence, o))
            && v'.procs[id] == p.(pc := if Takes(v.site, p.fence, o) && o == Acknowledged then Confirm else Failed)
  {
    var v := Run(support, w, events);
    RunKeeps(support, w, events);
    InserterIsNew(support, v, id);
    RunExtends(support, w, events, Advance(id, o));
    StepOf(support, v, id, o);
    InsertStep(support, v.site, v.procs[id], o);
  }

  /** The confirmation, or nothing if the process has ended. */
  lemma AfterConfirm(support: Support, w: World, events: seq<Event>, id: string, o: Outcome)
    requires id in Run(support, w, events).procs
    requires var v := Run(support, w, events); var p := v.procs[id];
             p.pc == Failed || (p.pc == Confirm && v.site.fence == Some(p.fence) && ValidFence(p.fence))
    ensures var v, v' := Run(support, w, events), Run(support, w, events + [Advance(id, o)]);
            && v'.site == v.site && id in v'.procs
            && v'.procs[id].pc == (if v.procs[id].pc == Confirm && o == Acknowledged then LoadRequire else Failed)
  {
    var v := Run(support, w, events);
    RunExtends(support, w, events, Advance(id, o));
    StepOf(support, v, id, o);
    if v.procs[id].pc == Confirm { ConfirmStep(support, v.site, v.procs[id], o); }
  }

  /** Acquisition, whatever others do between its two statements: it succeeds exactly when the INSERT takes
      the row and both are acknowledged. Both run outside the `try`, so a failure leaves the fence up
      exactly when the INSERT took the row. */
  lemma AcquireFailureKeepsFenceIff(support: Support, w: World, events: seq<Event>, between: seq<Event>, id: string,
                                    insert: Outcome, confirm: Outcome)
    requires Initial(w) && id in Run(support, w, events).procs && Run(support, w, events).procs[id].pc == Insert
    requires forall e | e in between :: LeavesAlone(e, id)
    ensures var v, f := Run(support, w, events), Run(support, w, events).procs[id].fence;
            var after := Run(support, w, events + [Advance(id, insert)] + between + [Advance(id, confirm)]);
            && id in after.procs
            && after.procs[id].pc == (if Takes(v.site, f, insert) && insert == Acknowledged && confirm == Acknowledged
                                      then LoadRequire else Failed)
            && (after.site.fence == Some(f) <==> Takes(v.site, f, insert))
  {
    var inserted := events + [Advance(id, insert)];
    AfterInsert(support, w, events, id, insert);
    Bystanders(support, w, inserted, between, id);
    FenceBystanders(support, w, inserted, between, Run(support, w, events).procs[id].fence);
    AfterConfirm(support, w, inserted + between, id, confirm);
  }

  lemma Launched(support: Support, v: World, f: Fence, mode: Mode)
    requires MayLaunch(v, f, mode)
    ensures var v' := Apply(support, v, Launch(f, mode));
            v'.site == v.site && f.id in v'.procs && v'.procs[f.id] == Start(f, mode)
  {}

  lemma ReleaseAgain(support: Support, v: World, f: Fence)
    requires v.site.generation == Some(f) && ValidFence(f) && UploadedAs(v.site, f.id)
    requires f.id in v.procs && v.procs[f.id] == Start(f, Release)
    ensures var ok := Advance(f.id, Acknowledged);
            var released := Apply(support, Apply(support, v, ok), ok);
            released.site == v.site && f.id in released.procs && released.procs[f.id].pc == Succeeded
  {
    var ok := Advance(f.id, Acknowledged);
    StepOf(support, v, f.id, Acknowledged);
    var read := Apply(support, v, ok);
    assert read.site == v.site && read.procs[f.id] == Start(f, Release).(pc := ReadGeneration);
    StepOf(support, read, f.id, Acknowledged);
  }

  lemma ResumeAgain(support: Support, v: World, f: Fence, o: Outcome)
    requires v.site.fence != Some(f) && f.id in v.procs && v.procs[f.id] == Start(f, Resume)
    ensures var resumed := Apply(support, v, Advance(f.id, o));
            resumed.site == v.site && f.id in resumed.procs && resumed.procs[f.id].pc == Failed
  {
    StepOf(support, v, f.id, o);
  }

  /** After a lost activation acknowledgement, `--release` and `--resume` of the same artifact
      both leave the site as it is; the release returns normally. */
  lemma RetryChangesNothing(support: Support, w: World, events: seq<Event>, f: Fence, o: Outcome)
    requires Initial(w)
    requires Run(support, w, events).site.generation == Some(f)
    requires MayLaunch(Run(support, w, events), f, Resume)
    ensures var ok := Advance(f.id, Acknowledged);
            var released := Run(support, w, events + [Launch(f, Release)] + [ok] + [ok]);
            released.site == Run(support, w, events).site && f.id in released.procs
              && released.procs[f.id].pc == Succeeded
    ensures var resumed := Run(support, w, events + [Launch(f, Resume)] + [Advance(f.id, o)]);
            resumed.site == Run(support, w, events).site && f.id in resumed.procs && resumed.procs[f.id].pc == Failed
  {
    var v, ok := Run(support, w, events), Advance(f.id, Acknowledged);
    RunKeeps(support, w, events);
    RunRowsOk(support, w, events);
    GenerationIsNotFence(support, v);
    RunExtends(support, w, events, Launch(f, Release));
    RunExtends(support, w, events + [Launch(f, Release)], ok);
    RunExtends(support, w, events + [Launch(f, Release)] + [ok], ok);
    Launched(support, v, f, Release);
    ReleaseAgain(support, Apply(support, v, Launch(f, Release)), f);
    RunExtends(support, w, events, Launch(f, Resume));
    RunExtends(support, w, events + [Launch(f, Resume)], Advance(f.id, o));
    Launched(support, v, f, Resume);
    ResumeAgain(support, Apply(support, v, Launch(f, Resume)), f, o);
  }

  /** `n` steps of one process with the same outcome, as events and as steps. */
  function Repeat(id: string, o: Outcome, n: nat): seq<Event> {
    if n == 0 then [] else Repeat(id, o, n - 1) + [Advance(id, o)]
  }

  function Steps(support: Support, site: Site, p: Proc, o: Outcome, n: nat): (Site, Proc) {
    if n == 0 then (site, p)
    else var (s, q) := Steps(support, site, p, o, n - 1); ProcStep(support, s, q, o)
  }

  lemma RepeatStep(events: seq<Event>, id: string, o: Outcome, n: nat)
    requires n > 0
    ensures events + Repeat(id, o, n) == events + Repeat(id, o, n - 1) + [Advance(id, o)]
  {}

  /** After `n` steps of one process from a site and a state of it. */
  predicate Reached(support: Support, v: World, id: string, o: Outcome, site: Site, p: Proc, n: nat) {
    id in v.procs && (v.site, v.procs[id]) == Steps(support, site, p, o, n)
  }

  lemma OneMoreStep(support: Support, v: World, id: string, o: Outcome, site: Site, p: Proc, n: nat)
    requires n > 0 && Reached(support, v, id, o, site, p, n - 1)
    ensures Reached(support, Apply(support, v, Advance(id, o)), id, o, site, p, n)
  {
    StepOf(support, v, id, o);
  }

  function Repeated(support: Support, v: World, id: string, o: Outcome, n: nat): World {
    if n == 0 then v else Apply(support, Repeated(support, v, id, o, n - 1), Advance(id, o))
  }

  lemma OneMoreEvent(support: Support, w: World, before: seq<Event>, longer: seq<Event>, e: Event, v: World)
    requires Run(support, w, before) == v && longer == before + [e]
    ensures Run(support, w, longer) == Apply(support, v, e)
  {
    RunExtends(support, w, before, e);
  }

  lemma {:induction false} RunRepeated(support: Support, w: World, events: seq<Event>, id: string, o: Outcome, n: nat)
    ensures Run(support, w, events + Repeat(id, o, n)) == Repeated(support, Run(support, w, events), id, o, n)
  {
    if n == 0 {
      assert events + Repeat(id, o, 0) == events;
    } else {
      RunRepeated(support, w, events, id, o, n - 1);
      RepeatStep(events, id, o, n);
      OneMoreEvent(support, w, events + Repeat(id, o, n - 1), events + Repeat(id, o, n), Advance(id, o),
                   Repeated(support, Run(support, w, events), id, o, n - 1));
    }
  }

  lemma {:induction false} RepeatedSteps(support: Support, v: World, id: string, o: Outcome, n: nat)
    requires id in v.procs
    ensures Reached(support, Repeated(support, v, id, o, n), id, o, v.site, v.procs[id], n)
  {
    if n == 0 {
    } else {
      RepeatedSteps(support, v, id, o, n - 1);
      OneMoreStep(support, Repeated(support, v, id, o, n - 1), id, o, v.site, v.procs[id], n);
    }
  }

  /** A step count along which a process goes from one point to another. */
  lemma StepsFurther(support: Support, site: Site, p: Proc, n: nat, s: Site, q: Proc, s': Site, q': Proc)
    requires Steps(support, site, p, Acknowledged, n) == (s, q) && ProcStep(support, s, q, Acknowledged) == (s', q')
    ensures Steps(support, site, p, Acknowledged, n + 1) == (s', q')
  {}

  /** The first six statements of a resumed run, all acknowledged. */
  lemma ResumeChecks(support: Support, site: Site, f: Fence)
    requires site.fence == Some(f) && ValidFence(f)
    requires Retains(support, f.sha, site) && |ActivePins(site)| <= INSPECTION_LIMIT
    ensures Steps(support, site, Start(f, Resume), Acknowledged, 5) == (site, Proc(f, Resume, Deploy, ActivePins(site)))
  {
    var p, pins := Start(f, Resume), ActivePins(site);
    StepsFurther(support, site, p, 0, site, p, site, Proc(f, Resume, LoadRequire, {}));
    StepsFurther(support, site, p, 1, site, Proc(f, Resume, LoadRequire, {}), site, Proc(f, Resume, Load, {}));
    StepsFurther(support, site, p, 2, site, Proc(f, Resume, Load, {}), site, Proc(f, Resume, Check, pins));
    StepsFurther(support, site, p, 3, site, Proc(f, Resume, Check, pins), site, Proc(f, Resume, Recheck, pins));
    StepsFurther(support, site, p, 4, site, Proc(f, Resume, Recheck, pins), site, Proc(f, Resume, Deploy, pins));
  }

  /** All ten of them. */
  lemma ResumeSteps(support: Support, site: Site, f: Fence)
    requires site.fence == Some(f) && site.generation != Some(f) && ValidFence(f)
    requires Retains(support, f.sha, site) && |ActivePins(site)| <= INSPECTION_LIMIT
    ensures var (s, p) := Steps(support, site, Start(f, Resume), Acknowledged, 10);
            s.generation == Some(f) && s.fence.None? && p.pc == Succeeded
  {
    var p, pins := Start(f, Resume), ActivePins(site);
    ResumeChecks(support, site, f);
    var uploaded := site.(uploaded := site.uploaded + {f});
    assert f in uploaded.uploaded;
    StepsFurther(support, site, p, 5, site, Proc(f, Resume, Deploy, pins), uploaded, Proc(f, Resume, Verify, pins));
    StepsFurther(support, site, p, 6, uploaded, Proc(f, Resume, Verify, pins), uploaded,
                 Proc(f, Resume, ReadGeneration, pins));
    StepsFurther(support, site, p, 7, uploaded, Proc(f, Resume, ReadGeneration, pins), uploaded,
                 Proc(f, Resume, ActivateRequire, pins));
    StepsFurther(support, site, p, 8, uploaded, Proc(f, Resume, ActivateRequire, pins), uploaded,
                 Proc(f, Resume, ActivateUpdate, pins));
    StepsFurther(support, site, p, 9, uploaded, Proc(f, Resume, ActivateUpdate, pins),
                 uploaded.(fence := None, generation := Some(f)), Proc(f, Resume, Succeeded, pins));
  }

  /** No crash wedges the gate: while a fence is up and its process is gone, resuming the same
      artifact and having every statement acknowledged activates it, provided the artifact
      retains the active work and that work is within the inspection limit. */
  lemma ResumeCompletes(support: Support, w: World, events: seq<Event>, f: Fence)
    requires Initial(w)
    requires Run(support, w, events).site.fence == Some(f)
    requires MayLaunch(Run(support, w, events), f, Resume)
    requires Retains(support, f.sha, Run(support, w, events).site)
    requires |ActivePins(Run(support, w, events).site)| <= INSPECTION_LIMIT
    ensures var v := Run(support, w, events + [Launch(f, Resume)] + Repeat(f.id, Acknowledged, 10));
            v.site.generation == Some(f) && v.site.fence.None? && f.id in v.procs && v.procs[f.id].pc == Succeeded
  {
    var launched := events + [Launch(f, Resume)];
    RunExtends(support, w, events, Launch(f, Resume));
    RunKeeps(support, w, events);
    RunRowsOk(support, w, events);
    RunRepeated(support, w, launched, f.id, Acknowledged, 10);
    RepeatedSteps(support, Run(support, w, launched), f.id, Acknowledged, 10);
    ResumeSteps(support, Run(support, w, events).site, f);
  }

  // ----- A whole run, statement by statement -----

  /** The statements of a fresh run and of an inspection, in order. */
  function Program(mode: Mode): seq<Pc>
    requires mode == Fresh || mode == Inspect
  {
    [Insert, Confirm, LoadRequire, Load, Check, Recheck, Deploy, Verify]
    + if mode == Fresh then [ReadGeneration, ActivateRequire, ActivateUpdate, Succeeded]
      else [ReleaseRequire, ReleaseDelete, Succeeded]
  }

  /** The process and the site after its first `k` statements, all acknowledged. */
  function ProcAfter(site: Site, f: Fence, mode: Mode, k: nat): Proc
    requires (mode == Fresh || mode == Inspect) && k < |Program(mode)|
  {
    Proc(f, mode, Program(mode)[k], if k < 4 then {} else ActivePins(site))
  }

  function SiteAfter(site: Site, f: Fence, mode: Mode, k: nat): Site {
    var last := if mode == Fresh then 11 else 10;
    site.(fence := if 0 < k < last then Some(f) else site.fence,
          uploaded := if mode == Fresh && k >= 7 then site.uploaded + {f} else site.uploaded,
          generation := if mode == Fresh && k >= 11 then Some(f) else site.generation)
  }

  predicate Hex(c: char) {
    '0' <= c <= '9' || 'a' <= c <= 'f'
  }

  /** A random UUID and a SHA-256 in lower-case hexadecimal make a valid fence; an identity with a quote, a
      space or a control character does not, nor one that is empty or longer than 80. */
  lemma FencesThatAreValid(f: Fence)
    ensures ValidFence(f) <==>
            && 0 < |f.id| <= 80 && |f.sha| == 64 && (forall c | c in f.sha :: Hex(c))
            && (forall c | c in f.id :: '-' == c || '0' <= c <= '9' || 'A' <= c <= 'Z' || 'a' <= c <= 'z')
    ensures ValidFence(f) ==> 0 < |f.id| <= 80 && (forall c | c in f.id :: '-' <= c <= 'z' && c != '/')
    ensures ValidFence(f) ==> |f.sha| == 64 && (forall c | c in f.sha :: Hex(c))
    ensures (|f.id| == 36 && forall c | c in f.id :: Hex(c) || c == '-') &&
            (|f.sha| == 64 && forall c | c in f.sha :: Hex(c)) ==>
            ValidFence(f)
  {
    assert forall i | 0 <= i < |f.id| :: f.id[i] in f.id;
    assert forall i | 0 <= i < |f.sha| :: f.sha[i] in f.sha;
  }

  /** A gate that is free for a deployment whose artifact retains the active work. */
  predicate Clear(support: Support, site: Site, f: Fence) {
    && ValidFence(f) && site.fence.None? && site.generation != Some(f)
    && Retains(support, f.sha, site) && |ActivePins(site)| <= INSPECTION_LIMIT
  }

  lemma NextStatement(support: Support, site: Site, f: Fence, mode: Mode, k: nat)
    requires (mode == Fresh || mode == Inspect) && k + 1 < |Program(mode)| && Clear(support, site, f)
    ensures ProcStep(support, SiteAfter(site, f, mode, k), ProcAfter(site, f, mode, k), Acknowledged)
            == (SiteAfter(site, f, mode, k + 1), ProcAfter(site, f, mode, k + 1))
  {
    assert ActivePins(SiteAfter(site, f, mode, k)) == ActivePins(site);
    if k == 7 && mode == Fresh { assert f in SiteAfter(site, f, mode, k).uploaded; }
  }

  lemma {:induction false} FirstStatements(support: Support, site: Site, f: Fence, mode: Mode, k: nat)
    requires (mode == Fresh || mode == Inspect) && k < |Program(mode)| && Clear(support, site, f)
    ensures Steps(support, site, Start(f, mode), Acknowledged, k)
            == (SiteAfter(site, f, mode, k), ProcAfter(site, f, mode, k))
  {
    if k == 0 {
    } else {
      FirstStatements(support, site, f, mode, k - 1);
      NextStatement(support, site, f, mode, k - 1);
    }
  }

  /** A deployment id that no process has used was never the generation. */
  lemma UnusedIsNew(support: Support, w: World, events: seq<Event>, f: Fence)
    requires Initial(w) && f.id !in Run(support, w, events).procs
    ensures Run(support, w, events).site.generation != Some(f)
  {
    RunKeeps(support, w, events);
  }

  /** The site and the process after the launch and `k` acknowledged statements. */
  lemma AfterStatements(support: Support, w: World, events: seq<Event>, f: Fence, mode: Mode, k: nat)
    requires Initial(w) && (mode == Fresh || mode == Inspect) && MayLaunch(Run(support, w, events), f, mode)
    requires var site := Run(support, w, events).site;
             && ValidFence(f) && site.fence.None?
             && Retains(support, f.sha, site) && |ActivePins(site)| <= INSPECTION_LIMIT
    requires k < |Program(mode)|
    ensures var v := Run(support, w, events + [Launch(f, mode)] + Repeat(f.id, Acknowledged, k));
            var site := Run(support, w, events).site;
            Clear(support, site, f) && f.id in v.procs
            && v.site == SiteAfter(site, f, mode, k) && v.procs[f.id] == ProcAfter(site, f, mode, k)
  {
    var launched := events + [Launch(f, mode)];
    UnusedIsNew(support, w, events, f);
    RunExtends(support, w, events, Launch(f, mode));
    Launched(support, Run(support, w, events), f, mode);
    RunRepeated(support, w, launched, f.id, Acknowledged, k);
    RepeatedSteps(support, Run(support, w, launched), f.id, Acknowledged, k);
    FirstStatements(support, Run(support, w, events).site, f, mode, k);
  }

  /** A fresh run on an unused id, with the gate free, its artifact retaining the active work, and every
      statement acknowledged, uploads, activates and returns; it changes nothing else. */
  lemma FreshCompletes(support: Support, w: World, events: seq<Event>, f: Fence)
    requires Initial(w) && f.id !in Run(support, w, events).procs
    requires var site := Run(support, w, events).site;
             ValidFence(f) && site.fence.None? && Retains(support, f.sha, site) && |ActivePins(site)| <= 1000
    ensures var u := Run(support, w, events);
            var v := Run(support, w, events + [Launch(f, Fresh)] + Repeat(f.id, Acknowledged, 11));
            && f.id in v.procs && v.procs[f.id].pc == Succeeded
            && v.site == Site(None, Some(f), u.site.executions, u.site.uploaded + {f})
  {
    AfterStatements(support, w, events, f, Fresh, 11);
  }

  /** An inspection then returns and leaves the site as it was. */
  lemma InspectionCompletes(support: Support, w: World, events: seq<Event>, f: Fence)
    requires Initial(w) && f.id !in Run(support, w, events).procs
    requires var site := Run(support, w, events).site;
             ValidFence(f) && site.fence.None? && Retains(support, f.sha, site) && |ActivePins(site)| <= 1000
    ensures var v := Run(support, w, events + [Launch(f, Inspect)] + Repeat(f.id, Acknowledged, 10));
            && f.id in v.procs && v.procs[f.id].pc == Succeeded && v.site == Run(support, w, events).site
  {
    AfterStatements(support, w, events, f, Inspect, 10);
  }

  lemma FailingStatement(support: Support, site: Site, f: Fence, mode: Mode, k: nat, lost: Outcome)
    requires (mode == Fresh || mode == Inspect) && k + 1 < |Program(mode)| && Clear(support, site, f)
    requires lost != Acknowledged && (mode == Inspect ==> k != 6 && k != 7)
    ensures var (s, q) := ProcStep(support, SiteAfter(site, f, mode, k), ProcAfter(site, f, mode, k), lost);
            && q.pc == (if 2 <= k <= 5 then CatchRequire else Failed)
            && s == (if Commits(lost) && (k == 0 || k == 6 || k + 2 == |Program(mode)|)
                     then SiteAfter(site, f, mode, k + 1) else SiteAfter(site, f, mode, k))
  {}

  lemma AfterFailure(support: Support, w: World, events: seq<Event>, f: Fence, mode: Mode, k: nat, lost: Outcome)
    requires Initial(w) && (mode == Fresh || mode == Inspect) && MayLaunch(Run(support, w, events), f, mode)
    requires var site := Run(support, w, events).site;
             && ValidFence(f) && site.fence.None?
             && Retains(support, f.sha, site) && |ActivePins(site)| <= INSPECTION_LIMIT
    requires k + 1 < |Program(mode)| && lost != Acknowledged && (mode == Inspect ==> k != 6 && k != 7)
    ensures var v := Run(support, w,
                         events + [Launch(f, mode)] + Repeat(f.id, Acknowledged, k) + [Advance(f.id, lost)]);
            var site := Run(support, w, events).site;
            && f.id in v.procs && v.procs[f.id].pc == (if 2 <= k <= 5 then CatchRequire else Failed)
            && v.site == (if Commits(lost) && (k == 0 || k == 6 || k + 2 == |Program(mode)|)
                          then SiteAfter(site, f, mode, k + 1) else SiteAfter(site, f, mode, k))
  {
    var before := events + [Launch(f, mode)] + Repeat(f.id, Acknowledged, k);
    AfterStatements(support, w, events, f, mode, k);
    RunExtends(support, w, before, Advance(f.id, lost));
    StepOf(support, Run(support, w, before), f.id, lost);
    FailingStatement(support, Run(support, w, events).site, f, mode, k, lost);
  }

  /** A fresh run whose statement after the first `k` fails, or loses its acknowledgement: where it goes on,
      whether its fence is up, whether it has uploaded, and whether it is the generation. */
  lemma FreshFails(support: Support, w: World, events: seq<Event>, f: Fence, k: nat, lost: Outcome)
    requires Initial(w) && f.id !in Run(support, w, events).procs && k < 11 && lost != Acknowledged
    requires var site := Run(support, w, events).site;
             ValidFence(f) && site.fence.None? && Retains(support, f.sha, site) && |ActivePins(site)| <= 1000
    ensures var u := Run(support, w, events);
            var v := Run(support, w,
                         events + [Launch(f, Fresh)] + Repeat(f.id, Acknowledged, k) + [Advance(f.id, lost)]);
            var committed := if Commits(lost) then k + 1 else k;
            && f.id in v.procs && v.procs[f.id].pc == (if 2 <= k <= 5 then CatchRequire else Failed)
            && v.site.executions == u.site.executions
            && v.site.fence == (if 1 <= committed <= 10 then Some(f) else None)
            && v.site.uploaded == (if committed >= 7 then u.site.uploaded + {f} else u.site.uploaded)
            && v.site.generation == (if committed == 11 then Some(f) else u.site.generation)
  {
    AfterFailure(support, w, events, f, Fresh, k, lost);
  }

  /** An inspection that fails likewise: it only ever puts up its fence and takes it down. */
  lemma InspectionFails(support: Support, w: World, events: seq<Event>, f: Fence, k: nat, lost: Outcome)
    requires Initial(w) && f.id !in Run(support, w, events).procs && lost != Acknowledged
    requires k < 10 && k != 6 && k != 7  // an inspection neither uploads nor probes
    requires var site := Run(support, w, events).site;
             ValidFence(f) && site.fence.None? && Retains(support, f.sha, site) && |ActivePins(site)| <= 1000
    ensures var u := Run(support, w, events);
            var v := Run(support, w,
                         events + [Launch(f, Inspect)] + Repeat(f.id, Acknowledged, k) + [Advance(f.id, lost)]);
            var committed := if Commits(lost) then k + 1 else k;
            && f.id in v.procs && v.procs[f.id].pc == (if 2 <= k <= 5 then CatchRequire else Failed)
            && v.site == u.site.(fence := if 1 <= committed <= 9 then Some(f) else None)
  {
    AfterFailure(support, w, events, f, Inspect, k, lost);
  }

  /** The four statements of a `--release` run. */
  lemma ReleaseRunSteps(support: Support, site: Site, f: Fence)
    requires site.fence == Some(f) && site.generation != Some(f) && ValidFence(f) && UploadedAs(site, f.id)
    ensures var (s, p) := Steps(support, site, Start(f, Release), Acknowledged, 4);
            s == site.(fence := None, generation := Some(f)) && p.pc == Succeeded
  {
    var p := Start(f, Release);
    StepsFurther(support, site, p, 0, site, p, site, p.(pc := ReadGeneration));
    StepsFurther(support, site, p, 1, site, p.(pc := ReadGeneration), site, p.(pc := ActivateRequire));
    StepsFurther(support, site, p, 2, site, p.(pc := ActivateRequire), site, p.(pc := ActivateUpdate));
    StepsFurther(support, site, p, 3, site, p.(pc := ActivateUpdate),
                 site.(fence := None, generation := Some(f)), p.(pc := Succeeded));
  }

  /** `--release` of a fence that is up and whose deployment was uploaded activates it without any check. */
  lemma ReleaseCompletes(support: Support, w: World, events: seq<Event>, f: Fence)
    requires Initial(w) && Run(support, w, events).site.fence == Some(f)
    requires MayLaunch(Run(support, w, events), f, Release) && UploadedAs(Run(support, w, events).site, f.id)
    ensures var u := Run(support, w, events);
            var v := Run(support, w, events + [Launch(f, Release)] + Repeat(f.id, Acknowledged, 4));
            && f.id in v.procs && v.procs[f.id].pc == Succeeded
            && v.site == u.site.(fence := None, generation := Some(f))
  {
    var launched := events + [Launch(f, Release)];
    RunExtends(support, w, events, Launch(f, Release));
    Launched(support, Run(support, w, events), f, Release);
    RunKeeps(support, w, events);
    RunRowsOk(support, w, events);
    GenerationIsNotFence(support, Run(support, w, events));
    RunRepeated(support, w, launched, f.id, Acknowledged, 4);
    RepeatedSteps(support, Run(support, w, launched), f.id, Acknowledged, 4);
    ReleaseRunSteps(support, Run(support, w, events).site, f);
  }

  // ----- Executions -----

  /** A new execution is admitted exactly when no fence is up and the triggers and its Worker allow it. */
  lemma AdmittedIff(support: Support, v: World, run: string, pin: HandlerPin, worker: Option<Fence>)
    requires run !in v.site.executions
    ensures var after := Apply(support, v, Admit(run, pin, worker)).site;
            && (run in after.executions <==>
                && v.site.fence.None?
                && (worker.None? ==> v.site.generation.None?)
                && (worker.Some? ==> worker.value in v.site.uploaded && support(worker.value.sha, pin)
                                     && (v.site.generation.None? || v.site.generation.value.id == worker.value.id)))
            && (run in after.executions ==> after.executions[run] == Execution(pin, Pending))
  {}

  /** Whatever happens, an execution keeps its pin and never goes back; it goes on, ends and disappears when
      the Worker says so. */
  lemma ExecutionsOnlyAdvance(support: Support, v: World, e: Event, run: string)
    requires run in v.site.executions
    ensures var before, after := v.site.executions[run], Apply(support, v, e).site.executions;
            && (run in after ==> after[run].pin == before.pin)
            && (run in after && before.status == Closed ==> after[run].status == Closed)
            && (run in after && before.status == Started ==> after[run].status != Pending)
            && (run !in after <==> e == Purge(run))
            && (e == Transition(run, Closed) ==> after[run].status == Closed)
            && (e == Transition(run, Started) && before.status == Pending ==> after[run].status == Started)
            && (!(e.Transition? && e.run == run) && run in after ==> after[run] == before)
  {
    if e.Advance? && e.id in v.procs { StepOf(support, v, e.id, e.outcome); }
  }
}
