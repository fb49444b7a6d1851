/** Whether a whole set of agent packs fits together, and what the tool runner may rely on then. */
module PackSet {

  // ----- Identifier ownership -----

  /** A claim of an identifier by an owner, in the order the validator makes them. */
  datatype Claim = Claim(id: string, owner: string)

  /** The `seen` map after a sequence of claims: the owner of the last claim of each id. */
  function Ledger(claims: seq<Claim>): (m: map<string, string>)
    ensures forall id :: id in m <==> exists i | 0 <= i < |claims| :: claims[i].id == id
  {
    if claims == [] then map[]
    else
      var last := claims[|claims| - 1];
      var m := Ledger(claims[..|claims| - 1]);
      assert forall i | 0 <= i < |claims| - 1 :: claims[..|claims| - 1][i] == claims[i];
      m[last.id := last.owner]
  }

  /** No claim repeats an id, unless every earlier owner of it is the empty string, which the
      validator takes for absent. */
  ghost predicate ClashFree(claims: seq<Claim>) {
    forall i, j | 0 <= i < j < |claims| && claims[i].id == claims[j].id :: claims[i].owner == ""
  }

  lemma {:induction false} LedgerOwner(claims: seq<Claim>, id: string)
    requires ClashFree(claims) && id in Ledger(claims)
    ensures Ledger(claims)[id] == "" <==> forall i | 0 <= i < |claims| && claims[i].id == id :: claims[i].owner == ""
  {
    var init, last := claims[..|claims| - 1], claims[|claims| - 1];
    assert forall i | 0 <= i < |init| :: init[i] == claims[i];
    if last.id != id {
      LedgerOwner(init, id);
    }
  }

  lemma ClashFreeSnoc(claims: seq<Claim>, c: Claim)
    requires ClashFree(claims)
    ensures ClashFree(claims + [c]) <==> forall i | 0 <= i < |claims| && claims[i].id == c.id :: claims[i].owner == ""
  {
    var longer := claims + [c];
    assert forall i | 0 <= i < |claims| :: longer[i] == claims[i];
    assert longer[|claims|] == c;
  }

  /** One more claim clashes exactly when `seen` holds a non-empty owner. */
  lemma ClaimClashes(claims: seq<Claim>, c: Claim)
    requires ClashFree(claims)
    ensures ClashFree(claims + [c]) <==> (c.id in Ledger(claims) ==> Ledger(claims)[c.id] == "")
    ensures Ledger(claims + [c]) == Ledger(claims)[c.id := c.owner]
  {
    assert (claims + [c])[..|claims|] == claims;
    ClashFreeSnoc(claims, c);
    if c.id in Ledger(claims) { LedgerOwner(claims, c.id); }
  }

  lemma ClashFreePrefix(claims: seq<Claim>, more: seq<Claim>)
    requires ClashFree(claims + more)
    ensures ClashFree(claims)
  {
    assert forall i | 0 <= i < |claims| :: (claims + more)[i] == claims[i];
  }

  /** `requireUnique`. */
  method RequireUnique(seen: map<string, string>, id: string, owner: string, ghost claims: seq<Claim>)
      returns (ok: bool, next: map<string, string>)
    requires ClashFree(claims) && seen == Ledger(claims)
    ensures ok <==> ClashFree(claims + [Claim(id, owner)])
    ensures ok ==> next == Ledger(claims + [Claim(id, owner)])
  {
    ClaimClashes(claims, Claim(id, owner));
    if id in seen && seen[id] != "" { return false, seen; }
    return true, seen[id := owner];
  }

  // ----- Modules -----

  datatype Tool = Tool(id: string, fly: bool, contract: string, sound: bool)
  datatype RunnerTool = RunnerTool(id: string, contract: string, executable: bool)
  datatype Workflow = Workflow(kind: string, sound: bool, toolIds: seq<string>)
  datatype Renderer = Renderer(artifactKind: string, sound: bool)

  /** A loaded module; the booleans are its checks that read nothing but the module itself. */
  datatype Module = Module(
    package: string, packId: string, header: bool, runtime: bool,
    tools: seq<Tool>, runnerTools: seq<RunnerTool>, declaredTools: seq<string>,
    workflows: seq<Workflow>, renderers: seq<Renderer>, tail: bool)

  function ToolIds(m: Module): seq<string> { seq(|m.tools|, i requires 0 <= i < |m.tools| => m.tools[i].id) }
  function WorkflowKinds(m: Module): seq<string> {
    seq(|m.workflows|, i requires 0 <= i < |m.workflows| => m.workflows[i].kind)
  }
  function ArtifactKinds(m: Module): seq<string> {
    seq(|m.renderers|, i requires 0 <= i < |m.renderers| => m.renderers[i].artifactKind)
  }

  ghost predicate OneRunnerPerId(m: Module) {
    forall i, j | 0 <= i < j < |m.runnerTools| :: m.runnerTools[i].id != m.runnerTools[j].id
  }

  ghost predicate OneToolPerId(m: Module) {
    forall i, j | 0 <= i < j < |m.tools| :: m.tools[i].id != m.tools[j].id
  }

  /** A `fly` tool has a runner binding with its contract, an inline tool has none. */
  predicate BoundAsDeclared(m: Module, t: Tool) {
    if t.fly then exists r | r in m.runnerTools :: r.id == t.id && r.contract == t.contract
    else forall r | r in m.runnerTools :: r.id != t.id
  }

  ghost predicate ToolsFit(m: Module) {
    && OneToolPerId(m) && OneRunnerPerId(m)
    && (forall t | t in m.tools :: t.sound && BoundAsDeclared(m, t))
    && (forall r | r in m.runnerTools :: r.executable && r.id in ToolIds(m))
  }

  predicate DeclaredToolsPresent(m: Module) {
    forall id | id in m.declaredTools :: id in ToolIds(m)
  }

  predicate WorkflowsFit(m: Module) {
    forall w | w in m.workflows :: w.sound && forall id | id in w.toolIds :: id in ToolIds(m)
  }

  predicate RenderersFit(m: Module) {
    forall r | r in m.renderers :: r.sound
  }

  /** Everything `validateLoadedModules` asks of a module apart from who else claims its ids. */
  ghost predicate Sound(m: Module) {
    && m.header && m.runtime && ToolsFit(m) && DeclaredToolsPresent(m)
    && WorkflowsFit(m) && RenderersFit(m) && m.tail
  }

  // ----- The four families of identifiers -----

  datatype Family = Packs | Tools | Workflows | Artifacts

  function Ids(m: Module, family: Family): seq<string> {
    match family
    case Packs => [m.packId]
    case Tools => ToolIds(m)
    case Workflows => WorkflowKinds(m)
    case Artifacts => ArtifactKinds(m)
  }

  function Owner(m: Module, family: Family): string {
    if family == Packs then m.package else m.packId
  }

  function Tagged(ids: seq<string>, owner: string): seq<Claim> {
    seq(|ids|, i requires 0 <= i < |ids| => Claim(ids[i], owner))
  }

  function Claims(modules: seq<Module>, family: Family): seq<Claim> {
    if modules == [] then []
    else
      var last := modules[|modules| - 1];
      Claims(modules[..|modules| - 1], family) + Tagged(Ids(last, family), Owner(last, family))
  }

  ghost predicate Acceptable(modules: seq<Module>) {
    (forall m | m in modules :: Sound(m)) && forall family :: ClashFree(Claims(modules, family))
  }

  lemma ClaimsExtend(modules: seq<Module>, m: Module, family: Family)
    ensures Claims(modules + [m], family) == Claims(modules, family) + Tagged(Ids(m, family), Owner(m, family))
  {
    assert (modules + [m])[..|modules|] == modules;
  }

  lemma {:induction false} AcceptablePrefix(modules: seq<Module>, k: nat)
    requires k <= |modules| && Acceptable(modules)
    ensures Acceptable(modules[..k])
    decreases |modules|
  {
    if k == |modules| {
      assert modules[..k] == modules;
    } else {
      var init := modules[..|modules| - 1];
      forall family ensures ClashFree(Claims(init, family)) {
        var last := modules[|modules| - 1];
        assert ClashFree(Claims(modules, family));
        ClashFreePrefix(Claims(init, family), Tagged(Ids(last, family), Owner(last, family)));
      }
      AcceptablePrefix(init, k);
      assert init[..k] == modules[..k];
    }
  }

  ghost predicate Fits(before: seq<Module>, m: Module, family: Family) {
    ClashFree(Claims(before, family) + Tagged(Ids(m, family), Owner(m, family)))
  }

  lemma AcceptableStep(before: seq<Module>, m: Module)
    requires Acceptable(before)
    ensures Acceptable(before + [m]) <==> Sound(m) && forall family :: Fits(before, m, family)
  {
    var longer := before + [m];
    forall family ensures ClashFree(Claims(longer, family)) <==> Fits(before, m, family) {
      ClaimsExtend(before, m, family);
    }
    assert forall x | x in longer :: x in before || x == m;
    assert m in longer && forall x | x in before :: x in longer;
    if forall family :: Fits(before, m, family) {
      forall family ensures ClashFree(Claims(longer, family)) { assert Fits(before, m, family); }
    }
    if Acceptable(longer) {
      forall family ensures Fits(before, m, family) { assert ClashFree(Claims(longer, family)); }
    }
  }

  // ----- The validator -----

  /** A clash among the first claims is a clash. */
  lemma ClashStays(claims: seq<Claim>, ids: seq<string>, owner: string, k: nat)
    requires k <= |ids| && ClashFree(claims + Tagged(ids, owner))
    ensures ClashFree(claims + Tagged(ids[..k], owner))
  {
    assert claims + Tagged(ids, owner) == claims + Tagged(ids[..k], owner) + Tagged(ids[k..], owner);
    ClashFreePrefix(claims + Tagged(ids[..k], owner), Tagged(ids[k..], owner));
  }

  lemma TaggedSnoc(claims: seq<Claim>, ids: seq<string>, owner: string, k: nat)
    requires k < |ids|
    ensures claims + Tagged(ids[..k + 1], owner) == claims + Tagged(ids[..k], owner) + [Claim(ids[k], owner)]
  {}

  method ClaimAll(seen: map<string, string>, ids: seq<string>, owner: string, ghost claims: seq<Claim>)
      returns (ok: bool, next: map<string, string>)
    requires ClashFree(claims) && seen == Ledger(claims)
    ensures ok <==> ClashFree(claims + Tagged(ids, owner))
    ensures ok ==> next == Ledger(claims + Tagged(ids, owner))
  {
    next := seen;
    assert claims + Tagged(ids[..0], owner) == claims;
    for k := 0 to |ids|
      invariant ClashFree(claims + Tagged(ids[..k], owner))
      invariant next == Ledger(claims + Tagged(ids[..k], owner))
    {
      ghost var sofar := claims + Tagged(ids[..k], owner);
      TaggedSnoc(claims, ids, owner, k);
      ok, next := RequireUnique(next, ids[k], owner, sofar);
      if !ok {
        if ClashFree(claims + Tagged(ids, owner)) { ClashStays(claims, ids, owner, k + 1); }
        return;
      }
    }
    assert ids[..|ids|] == ids;
    ok := true;
  }

  method CheckTools(m: Module) returns (ok: bool)
    ensures ok <==> ToolsFit(m)
  {
    if exists i, j | 0 <= i < j < |m.tools| :: m.tools[i].id == m.tools[j].id { return false; }
    if exists i, j | 0 <= i < j < |m.runnerTools| :: m.runnerTools[i].id == m.runnerTools[j].id { return false; }
    for i := 0 to |m.tools|
      invariant forall j | 0 <= j < i :: m.tools[j].sound && BoundAsDeclared(m, m.tools[j])
    {
      var t := m.tools[i];
      if !t.sound || !BoundAsDeclared(m, t) { return false; }
    }
    for i := 0 to |m.runnerTools|
      invariant forall j | 0 <= j < i :: m.runnerTools[j].executable && m.runnerTools[j].id in ToolIds(m)
    {
      if m.runnerTools[i].id !in ToolIds(m) || !m.runnerTools[i].executable { return false; }
    }
    return true;
  }

  /** The four `seen` maps. */
  datatype Ledgers = Ledgers(packs: map<string, string>, tools: map<string, string>,
                             workflows: map<string, string>, artifacts: map<string, string>)

  function LedgersOf(modules: seq<Module>): Ledgers {
    Ledgers(Ledger(Claims(modules, Packs)), Ledger(Claims(modules, Tools)),
            Ledger(Claims(modules, Workflows)), Ledger(Claims(modules, Artifacts)))
  }

  function After(before: seq<Module>, m: Module, family: Family): map<string, string> {
    Ledger(Claims(before, family) + Tagged(Ids(m, family), Owner(m, family)))
  }

  lemma LedgersStep(before: seq<Module>, m: Module)
    ensures LedgersOf(before + [m])
         == Ledgers(After(before, m, Packs), After(before, m, Tools), After(before, m, Workflows),
                    After(before, m, Artifacts))
  {
    ClaimsExtend(before, m, Packs);
    ClaimsExtend(before, m, Tools);
    ClaimsExtend(before, m, Workflows);
    ClaimsExtend(before, m, Artifacts);
  }

  /** One module's claims of one family, after all earlier ones. */
  method ClaimFamily(m: Module, seen: map<string, string>, family: Family, ghost before: seq<Module>)
      returns (ok: bool, next: map<string, string>)
    requires ClashFree(Claims(before, family)) && seen == Ledger(Claims(before, family))
    ensures ok <==> Fits(before, m, family)
    ensures ok ==> next == After(before, m, family)
  {
    ok, next := ClaimAll(seen, Ids(m, family), Owner(m, family), Claims(before, family));
  }

  /** The loop body, in the order of the checks. */
  method RunChecks(m: Module, seen: Ledgers, ghost before: seq<Module>) returns (ok: bool, next: Ledgers)
    requires Acceptable(before) && seen == LedgersOf(before)
    ensures ok <==>
            Sound(m) && Fits(before, m, Packs) && Fits(before, m, Tools) && Fits(before, m, Workflows)
            && Fits(before, m, Artifacts)
    ensures ok ==> next == LedgersOf(before + [m])
  {
    next := seen;
    if !m.header { return false, next; }
    var packs, tools, workflows, artifacts;
    ok, packs := ClaimFamily(m, seen.packs, Packs, before);
    if !ok || !m.runtime { return false, next; }
    ok := CheckTools(m);
    if !ok { return; }
    ok, tools := ClaimFamily(m, seen.tools, Tools, before);
    if !ok || !DeclaredToolsPresent(m) { return false, next; }
    ok, workflows := ClaimFamily(m, seen.workflows, Workflows, before);
    if !ok || !WorkflowsFit(m) { return false, next; }
    ok, artifacts := ClaimFamily(m, seen.artifacts, Artifacts, before);
    if !ok || !RenderersFit(m) { return false, next; }
    if !m.tail { return false, next; }
    next := Ledgers(packs, tools, workflows, artifacts);
    LedgersStep(before, m);
  }

  lemma FitsAll(before: seq<Module>, m: Module)
    ensures (forall family :: Fits(before, m, family)) <==>
            Fits(before, m, Packs) && Fits(before, m, Tools) && Fits(before, m, Workflows) && Fits(before, m, Artifacts)
  {
    if Fits(before, m, Packs) && Fits(before, m, Tools) && Fits(before, m, Workflows) && Fits(before, m, Artifacts) {
      forall family ensures Fits(before, m, family) {
        match family case Packs => case Tools => case Workflows => case Artifacts =>
      }
    }
  }

  method ValidateModule(m: Module, seen: Ledgers, ghost before: seq<Module>) returns (ok: bool, next: Ledgers)
    requires Acceptable(before) && seen == LedgersOf(before)
    ensures ok <==> Acceptable(before + [m])
    ensures ok ==> next == LedgersOf(before + [m])
  {
    ok, next := RunChecks(m, seen, before);
    AcceptableStep(before, m);
    FitsAll(before, m);
  }

  lemma RejectedForGood(modules: seq<Module>, k: nat)
    requires k < |modules|
    ensures modules[..k + 1] == modules[..k] + [modules[k]]
    ensures Acceptable(modules) ==> Acceptable(modules[..k + 1])
  {
    if Acceptable(modules) { AcceptablePrefix(modules, k + 1); }
  }

  /** `validateLoadedModules`: accepts exactly the acceptable sets. */
  method ValidateLoadedModules(modules: seq<Module>) returns (ok: bool)
    ensures ok <==> Acceptable(modules)
  {
    var seen := Ledgers(map[], map[], map[], map[]);
    for k := 0 to |modules|
      invariant Acceptable(modules[..k]) && seen == LedgersOf(modules[..k])
    {
      RejectedForGood(modules, k);
      ok, seen := ValidateModule(modules[k], seen, modules[..k]);
      if !ok { return; }
    }
    assert modules[..|modules|] == modules;
    return true;
  }

  // ----- Acceptance as a property of the set -----

  ghost predicate Named(modules: seq<Module>) {
    forall m | m in modules :: m.packId != "" && m.package != ""
  }

  /** No identifier of the family belongs to both. */
  ghost predicate ApartIn(a: Module, b: Module, family: Family) {
    forall id | id in Ids(a, family) :: id !in Ids(b, family)
  }

  /** No pack, tool, workflow or artifact identifier belongs to both. */
  ghost predicate Apart(a: Module, b: Module) {
    forall family :: ApartIn(a, b, family)
  }

  /** What both claim, the first claims under an empty name, so a later claim passes. */
  ghost predicate GivesWay(a: Module, b: Module, family: Family) {
    forall id | id in Ids(a, family) && id in Ids(b, family) :: Owner(a, family) == ""
  }

  ghost predicate AloneFree(m: Module, family: Family) {
    ClashFree(Tagged(Ids(m, family), Owner(m, family)))
  }

  ghost predicate AllAlone(modules: seq<Module>, family: Family) {
    forall m | m in modules :: AloneFree(m, family)
  }

  /** Every earlier module gives way to every later one. */
  ghost predicate InOrder(modules: seq<Module>, family: Family) {
    forall i, j | 0 <= i < j < |modules| :: GivesWay(modules[i], modules[j], family)
  }

  lemma ClashFreeAppend(a: seq<Claim>, b: seq<Claim>)
    ensures ClashFree(a + b) <==>
            ClashFree(a) && ClashFree(b) && forall x, y | x in a && y in b && x.id == y.id :: x.owner == ""
  {
    var c := a + b;
    assert forall i | 0 <= i < |a| :: c[i] == a[i];
    assert forall j | 0 <= j < |b| :: b[j] == c[j + |a|];
    assert forall x | x in a :: exists i :: 0 <= i < |a| && x == c[i];
    assert forall y | y in b :: exists j :: |a| <= j < |c| && y == c[j];
  }

  ghost predicate ClaimedBy(m: Module, family: Family, c: Claim) {
    c.id in Ids(m, family) && c.owner == Owner(m, family)
  }

  ghost predicate Claimed(modules: seq<Module>, family: Family, c: Claim) {
    exists k | 0 <= k < |modules| :: ClaimedBy(modules[k], family, c)
  }

  lemma TaggedIds(ids: seq<string>, owner: string, c: Claim)
    ensures c in Tagged(ids, owner) <==> c.id in ids && c.owner == owner
  {
    if c.id in ids && c.owner == owner {
      var k :| 0 <= k < |ids| && ids[k] == c.id;
      assert Tagged(ids, owner)[k] == c;
    }
  }

  lemma {:induction false} ClaimsAreClaimed(modules: seq<Module>, family: Family, c: Claim)
    ensures c in Claims(modules, family) <==> Claimed(modules, family, c)
  {
    if modules == [] {
    } else {
      var init, last := modules[..|modules| - 1], modules[|modules| - 1];
      ClaimsAreClaimed(init, family, c);
      TaggedIds(Ids(last, family), Owner(last, family), c);
      ClaimedMore(modules, family, c);
    }
  }

  lemma ClaimedMore(modules: seq<Module>, family: Family, c: Claim)
    requires modules != []
    ensures Claimed(modules, family, c) <==>
            Claimed(modules[..|modules| - 1], family, c) || ClaimedBy(modules[|modules| - 1], family, c)
  {
    var init := modules[..|modules| - 1];
    assert forall k | 0 <= k < |init| :: init[k] == modules[k];
    if Claimed(init, family, c) {
      var k :| 0 <= k < |init| && ClaimedBy(init[k], family, c);
      assert ClaimedBy(modules[k], family, c);
    }
  }

  ghost predicate AllGiveWay(modules: seq<Module>, m: Module, family: Family) {
    forall i | 0 <= i < |modules| :: GivesWay(modules[i], m, family)
  }

  lemma CrossIffGivesWay(modules: seq<Module>, m: Module, family: Family)
    ensures (forall x, y | x in Claims(modules, family) && y in Tagged(Ids(m, family), Owner(m, family))
             && x.id == y.id :: x.owner == "")
        <==> AllGiveWay(modules, m, family)
  {
    var claims, tagged := Claims(modules, family), Tagged(Ids(m, family), Owner(m, family));
    if forall x, y | x in claims && y in tagged && x.id == y.id :: x.owner == "" {
      forall i, id | 0 <= i < |modules| && id in Ids(modules[i], family) && id in Ids(m, family)
        ensures Owner(modules[i], family) == ""
      {
        ClaimsAreClaimed(modules, family, Claim(id, Owner(modules[i], family)));
        TaggedIds(Ids(m, family), Owner(m, family), Claim(id, Owner(m, family)));
      }
    }
    if AllGiveWay(modules, m, family) {
      forall x, y | x in claims && y in tagged && x.id == y.id ensures x.owner == "" {
        ClaimsAreClaimed(modules, family, x);
        TaggedIds(Ids(m, family), Owner(m, family), y);
      }
    }
  }

  lemma AllAloneStep(init: seq<Module>, last: Module, family: Family)
    ensures AllAlone(init + [last], family) <==> AllAlone(init, family) && AloneFree(last, family)
  {
    assert last in init + [last] && forall m | m in init :: m in init + [last];
  }

  lemma InOrderStep(init: seq<Module>, last: Module, family: Family)
    ensures InOrder(init + [last], family) <==> InOrder(init, family) && AllGiveWay(init, last, family)
  {
    var modules := init + [last];
    assert forall i | 0 <= i < |init| :: init[i] == modules[i];
    assert modules[|init|] == last;
  }

  lemma ClashFreeStep(init: seq<Module>, last: Module, family: Family)
    requires ClashFree(Claims(init, family)) <==> AllAlone(init, family) && InOrder(init, family)
    ensures ClashFree(Claims(init + [last], family))
            <==> AllAlone(init + [last], family) && InOrder(init + [last], family)
  {
    ClaimsExtend(init, last, family);
    ClashFreeAppend(Claims(init, family), Tagged(Ids(last, family), Owner(last, family)));
    CrossIffGivesWay(init, last, family);
    AllAloneStep(init, last, family);
    InOrderStep(init, last, family);
  }

  lemma {:induction false} ClashFreeByModule(modules: seq<Module>, family: Family)
    ensures ClashFree(Claims(modules, family)) <==> AllAlone(modules, family) && InOrder(modules, family)
  {
    if modules == [] {
    } else {
      var init, last := modules[..|modules| - 1], modules[|modules| - 1];
      assert modules == init + [last];
      ClashFreeByModule(init, family);
      ClashFreeStep(init, last, family);
    }
  }

  lemma SingleClaims(m: Module, family: Family)
    ensures Claims([m], family) == Tagged(Ids(m, family), Owner(m, family))
  {
    assert [m] == [] + [m];
    ClaimsExtend([], m, family);
  }

  lemma AloneAcceptable(m: Module)
    ensures Acceptable([m]) <==> Sound(m) && forall family :: AloneFree(m, family)
  {
    assert m in [m] && forall x | x in [m] :: x == m;
    if Acceptable([m]) {
      forall family ensures AloneFree(m, family) {
        assert ClashFree(Claims([m], family));
        SingleClaims(m, family);
      }
    } else if Sound(m) {
      var family :| !ClashFree(Claims([m], family));
      SingleClaims(m, family);
      assert !AloneFree(m, family);
    }
  }

  /** For any names: a set is accepted exactly when each module is accepted on its own and every
      earlier module gives way to every later one. */
  lemma AcceptedIffEachInOrder(modules: seq<Module>)
    ensures Acceptable(modules) <==>
            (forall m | m in modules :: Acceptable([m])) && forall family :: InOrder(modules, family)
  {
    forall family
      ensures ClashFree(Claims(modules, family)) <==> AllAlone(modules, family) && InOrder(modules, family)
    {
      ClashFreeByModule(modules, family);
    }
    forall m | m in modules ensures Acceptable([m]) <==> Sound(m) && forall family :: AloneFree(m, family) {
      AloneAcceptable(m);
    }
    if Acceptable(modules) {
      forall family
        ensures AllAlone(modules, family) && InOrder(modules, family)
      {
        assert ClashFree(Claims(modules, family));
      }
      forall m, family | m in modules ensures AloneFree(m, family) { assert AllAlone(modules, family); }
    }
    if (forall m | m in modules :: Acceptable([m])) && forall family :: InOrder(modules, family) {
      forall family
        ensures ClashFree(Claims(modules, family))
      {
        assert AllAlone(modules, family) && InOrder(modules, family);
      }
    }
  }

  lemma NamedGivesWay(a: Module, b: Module, family: Family)
    requires a.packId != "" && a.package != ""
    ensures GivesWay(a, b, family) <==> ApartIn(a, b, family)
  {}

  /** With named packs, a set is accepted exactly when each module is accepted on its own and no
      two of them share an identifier. */
  lemma AcceptedIffEachAndApart(modules: seq<Module>)
    requires Named(modules)
    ensures Acceptable(modules)
        <==> (forall m | m in modules :: Acceptable([m]))
             && forall i, j | 0 <= i < j < |modules| :: Apart(modules[i], modules[j])
  {
    AcceptedIffEachInOrder(modules);
    forall i, j, family | 0 <= i < j < |modules|
      ensures GivesWay(modules[i], modules[j], family) <==> ApartIn(modules[i], modules[j], family)
    {
      assert modules[i] in modules;
      NamedGivesWay(modules[i], modules[j], family);
    }
    if forall family :: InOrder(modules, family) {
      forall i, j, family | 0 <= i < j < |modules| ensures ApartIn(modules[i], modules[j], family) {
        assert InOrder(modules, family);
      }
    }
  }

  // ----- Order -----

  ghost predicate Arrangement(order: seq<nat>, n: nat) {
    (forall i | 0 <= i < |order| :: order[i] < n) && forall i, j | 0 <= i < j < |order| :: order[i] != order[j]
  }

  /** All of the modules, each once. */
  ghost predicate Permutation(order: seq<nat>, n: nat) {
    Arrangement(order, n) && |order| == n
  }

  function Arranged(modules: seq<Module>, order: seq<nat>): seq<Module>
    requires forall i | 0 <= i < |order| :: order[i] < |modules|
  {
    seq(|order|, i requires 0 <= i < |order| => modules[order[i]])
  }

  /** Whatever two modules share, both claim in vain. */
  ghost predicate SharedInVain(modules: seq<Module>) {
    forall i, j, family | 0 <= i < |modules| && 0 <= j < |modules| && i != j :: GivesWay(modules[i], modules[j], family)
  }

  lemma ArrangedInOrder(modules: seq<Module>, order: seq<nat>)
    requires Arrangement(order, |modules|) && SharedInVain(modules) && forall m | m in modules :: Acceptable([m])
    ensures Acceptable(Arranged(modules, order))
  {
    var other := Arranged(modules, order);
    AcceptedIffEachInOrder(other);
    forall family, i, j | 0 <= i < j < |other| ensures GivesWay(other[i], other[j], family) {
      assert other[i] == modules[order[i]] && other[j] == modules[order[j]];
    }
    assert forall m | m in other :: m in modules;
  }

  /** An order that has module `i` before module `j`. */
  lemma Placed(n: nat, i: nat, j: nat) returns (order: seq<nat>, a: nat, b: nat)
    requires i < n && j < n && i != j
    ensures Permutation(order, n) && a < b < n && order[a] == i && order[b] == j
  {
    order := seq(n, k requires 0 <= k < n => k);
    a, b := i, j;
    if j < i {
      order := order[i := j][j := i];
      a, b := j, i;
    }
  }

  lemma PlacedGivesWay(modules: seq<Module>, i: nat, j: nat, family: Family)
    requires forall order | Permutation(order, |modules|) :: Acceptable(Arranged(modules, order))
    requires i < |modules| && j < |modules| && i != j
    ensures GivesWay(modules[i], modules[j], family)
  {
    var order, a, b := Placed(|modules|, i, j);
    var other := Arranged(modules, order);
    assert Acceptable(other);
    AcceptedIffEachInOrder(other);
    assert InOrder(other, family);
    assert other[a] == modules[i] && other[b] == modules[j];
  }

  /** A set is accepted in every order exactly when each module is accepted on its own and whatever two
      modules share belongs, for both, to the empty name. */
  lemma AcceptedInEveryOrderIff(modules: seq<Module>)
    ensures (forall order | Permutation(order, |modules|) :: Acceptable(Arranged(modules, order)))
        <==> (forall m | m in modules :: Acceptable([m])) && SharedInVain(modules)
  {
    if forall order | Permutation(order, |modules|) :: Acceptable(Arranged(modules, order)) {
      var order := seq(|modules|, k requires 0 <= k < |modules| => k);
      assert Permutation(order, |modules|);
      assert Arranged(modules, order) == modules;
      AcceptedIffEachInOrder(modules);
      forall i, j, family | 0 <= i < |modules| && 0 <= j < |modules| && i != j
        ensures GivesWay(modules[i], modules[j], family)
      {
        PlacedGivesWay(modules, i, j, family);
      }
    }
    if (forall m | m in modules :: Acceptable([m])) && SharedInVain(modules) {
      forall order | Permutation(order, |modules|) ensures Acceptable(Arranged(modules, order)) {
        ArrangedInOrder(modules, order);
      }
    }
  }

  /** For an accepted set: order does not matter, nor leaving modules out, exactly when no identifier
      that two modules share has an owner with a name. */
  lemma OrderIsFreeIff(modules: seq<Module>)
    requires Acceptable(modules)
    ensures (forall order | Arrangement(order, |modules|) :: Acceptable(Arranged(modules, order)))
        <==> forall i, j, family, id | 0 <= i < |modules| && 0 <= j < |modules| && i != j
                                       && id in Ids(modules[i], family) && id in Ids(modules[j], family) ::
               Owner(modules[i], family) == ""
  {
    AcceptedIffEachInOrder(modules);
    AcceptedInEveryOrderIff(modules);
    if SharedInVain(modules) {
      forall order | Arrangement(order, |modules|) ensures Acceptable(Arranged(modules, order)) {
        ArrangedInOrder(modules, order);
      }
    } else {
      var order :| Permutation(order, |modules|) && !Acceptable(Arranged(modules, order));
      assert Arrangement(order, |modules|);
    }
    SharedInVainIds(modules);
  }

  lemma SharedInVainIds(modules: seq<Module>)
    ensures SharedInVain(modules)
        <==> forall i, j, family, id | 0 <= i < |modules| && 0 <= j < |modules| && i != j
                                       && id in Ids(modules[i], family) && id in Ids(modules[j], family) ::
               Owner(modules[i], family) == ""
  {
    if SharedInVain(modules) {
      forall i, j, family, id | 0 <= i < |modules| && 0 <= j < |modules| && i != j
                                && id in Ids(modules[i], family) && id in Ids(modules[j], family)
        ensures Owner(modules[i], family) == ""
      {
        assert GivesWay(modules[i], modules[j], family);
      }
    }
  }

  /** With named packs, order never matters. */
  lemma AcceptedInAnyOrder(modules: seq<Module>, order: seq<nat>)
    requires Named(modules) && Acceptable(modules) && Arrangement(order, |modules|)
    ensures Acceptable(Arranged(modules, order))
  {
    AcceptedIffEachAndApart(modules);
    AcceptedIffEachInOrder(modules);
    forall i, j, family | 0 <= i < |modules| && 0 <= j < |modules| && i != j
      ensures GivesWay(modules[i], modules[j], family)
    {
      var first, second := if i < j then i else j, if i < j then j else i;
      assert Apart(modules[first], modules[second]) && ApartIn(modules[first], modules[second], family);
    }
    ArrangedInOrder(modules, order);
  }

  /** Two packs with one inline tool `t` each, the first without an id. */
  const NAMELESS := Module("a", "", true, true, [Tool("t", false, "", true)], [], [], [], [], true)
  const NAMESAKE := Module("b", "b", true, true, [Tool("t", false, "", true)], [], [], [], [], true)

  lemma OneToolAlone(m: Module)
    requires m.header && m.runtime && m.tail && m.tools == [Tool("t", false, "", true)] && m.runnerTools == []
    requires m.declaredTools == [] && m.workflows == [] && m.renderers == []
    ensures Acceptable([m]) && Ids(m, Tools) == ["t"] && Ids(m, Workflows) == [] && Ids(m, Artifacts) == []
  {
    AloneAcceptable(m);
    assert ToolIds(m) == ["t"];
  }

  /** The empty name is forgotten: accepted in one order, refused in the other. */
  lemma EmptyOwnerDependsOnOrder()
    ensures Acceptable([NAMELESS, NAMESAKE]) && !Acceptable([NAMESAKE, NAMELESS])
  {
    OneToolAlone(NAMELESS);
    OneToolAlone(NAMESAKE);
    AcceptedIffEachInOrder([NAMELESS, NAMESAKE]);
    AcceptedIffEachInOrder([NAMESAKE, NAMELESS]);
    forall family ensures GivesWay(NAMELESS, NAMESAKE, family) {
      assert family == Packs || family == Tools || family == Workflows || family == Artifacts;
    }
    assert "t" in Ids(NAMESAKE, Tools) && "t" in Ids(NAMELESS, Tools);
    assert !GivesWay([NAMESAKE, NAMELESS][0], [NAMESAKE, NAMELESS][1], Tools);
    assert !InOrder([NAMESAKE, NAMELESS], Tools);
  }

  // ----- Acceptance, field by field -----

  lemma InToolIds(m: Module, id: string)
    ensures id in ToolIds(m) <==> exists t :: t in m.tools && t.id == id
  {
    if id in ToolIds(m) {
      var i :| 0 <= i < |m.tools| && ToolIds(m)[i] == id;
      assert m.tools[i] in m.tools;
    }
    if t :| t in m.tools && t.id == id {
      var i :| 0 <= i < |m.tools| && m.tools[i] == t;
      assert ToolIds(m)[i] == id;
    }
  }

  lemma InWorkflowKinds(m: Module, kind: string)
    ensures kind in WorkflowKinds(m) <==> exists w :: w in m.workflows && w.kind == kind
  {
    if kind in WorkflowKinds(m) {
      var i :| 0 <= i < |m.workflows| && WorkflowKinds(m)[i] == kind;
      assert m.workflows[i] in m.workflows;
    }
    if w :| w in m.workflows && w.kind == kind {
      var i :| 0 <= i < |m.workflows| && m.workflows[i] == w;
      assert WorkflowKinds(m)[i] == kind;
    }
  }

  lemma InArtifactKinds(m: Module, kind: string)
    ensures kind in ArtifactKinds(m) <==> exists r :: r in m.renderers && r.artifactKind == kind
  {
    if kind in ArtifactKinds(m) {
      var i :| 0 <= i < |m.renderers| && ArtifactKinds(m)[i] == kind;
      assert m.renderers[i] in m.renderers;
    }
    if r :| r in m.renderers && r.artifactKind == kind {
      var i :| 0 <= i < |m.renderers| && m.renderers[i] == r;
      assert ArtifactKinds(m)[i] == kind;
    }
  }

  /** What an earlier module leaves free for a later one, on their own fields. */
  ghost predicate LeavesFree(a: Module, b: Module) {
    && (a.packId == b.packId ==> a.package == "")
    && (forall t, u | t in a.tools && u in b.tools && t.id == u.id :: a.packId == "")
    && (forall w, x | w in a.workflows && x in b.workflows && w.kind == x.kind :: a.packId == "")
    && (forall r, s | r in a.renderers && s in b.renderers && r.artifactKind == s.artifactKind :: a.packId == "")
  }

  lemma PackGivesWay(a: Module, b: Module)
    ensures GivesWay(a, b, Packs) <==> (a.packId == b.packId ==> a.package == "")
  {
    assert a.packId in Ids(a, Packs) && b.packId in Ids(b, Packs);
  }

  lemma ToolsGiveWay(a: Module, b: Module)
    ensures GivesWay(a, b, Tools) <==> forall t, u | t in a.tools && u in b.tools && t.id == u.id :: a.packId == ""
  {
    forall id ensures id in ToolIds(a) <==> exists t :: t in a.tools && t.id == id { InToolIds(a, id); }
    forall id ensures id in ToolIds(b) <==> exists t :: t in b.tools && t.id == id { InToolIds(b, id); }
    if GivesWay(a, b, Tools) {
      forall t, u | t in a.tools && u in b.tools && t.id == u.id ensures a.packId == "" {
        assert t.id in Ids(a, Tools) && t.id in Ids(b, Tools);
      }
    }
  }

  lemma WorkflowsGiveWay(a: Module, b: Module)
    ensures GivesWay(a, b, Workflows)
        <==> forall w, x | w in a.workflows && x in b.workflows && w.kind == x.kind :: a.packId == ""
  {
    forall k ensures k in WorkflowKinds(a) <==> exists w :: w in a.workflows && w.kind == k { InWorkflowKinds(a, k); }
    forall k ensures k in WorkflowKinds(b) <==> exists w :: w in b.workflows && w.kind == k { InWorkflowKinds(b, k); }
    if GivesWay(a, b, Workflows) {
      forall w, x | w in a.workflows && x in b.workflows && w.kind == x.kind ensures a.packId == "" {
        assert w.kind in Ids(a, Workflows) && w.kind in Ids(b, Workflows);
      }
    }
  }

  lemma ArtifactsGiveWay(a: Module, b: Module)
    ensures GivesWay(a, b, Artifacts)
        <==> forall r, s | r in a.renderers && s in b.renderers && r.artifactKind == s.artifactKind :: a.packId == ""
  {
    forall k ensures k in ArtifactKinds(a) <==> exists r :: r in a.renderers && r.artifactKind == k {
      InArtifactKinds(a, k);
    }
    forall k ensures k in ArtifactKinds(b) <==> exists r :: r in b.renderers && r.artifactKind == k {
      InArtifactKinds(b, k);
    }
    if GivesWay(a, b, Artifacts) {
      forall r, s | r in a.renderers && s in b.renderers && r.artifactKind == s.artifactKind ensures a.packId == "" {
        assert r.artifactKind in Ids(a, Artifacts) && r.artifactKind in Ids(b, Artifacts);
      }
    }
  }

  lemma GivesWayIff(a: Module, b: Module)
    ensures (forall family :: GivesWay(a, b, family)) <==> LeavesFree(a, b)
  {
    PackGivesWay(a, b);
    ToolsGiveWay(a, b);
    WorkflowsGiveWay(a, b);
    ArtifactsGiveWay(a, b);
    assert (forall family :: GivesWay(a, b, family)) ==>
           GivesWay(a, b, Packs) && GivesWay(a, b, Tools) && GivesWay(a, b, Workflows) && GivesWay(a, b, Artifacts);
  }

  /** A set is accepted exactly when each module is accepted alone and every earlier one leaves the identifiers
      of every later one free: pack ids, tool ids, workflow kinds and the artifact kinds of renderers. */
  lemma AcceptedIffFieldsFree(modules: seq<Module>)
    ensures Acceptable(modules) <==>
            && (forall m | m in modules :: Acceptable([m]))
            && forall i, j | 0 <= i < j < |modules| :: LeavesFree(modules[i], modules[j])
  {
    AcceptedIffEachInOrder(modules);
    forall i, j | 0 <= i < j < |modules|
      ensures (forall family :: GivesWay(modules[i], modules[j], family)) <==> LeavesFree(modules[i], modules[j])
    {
      GivesWayIff(modules[i], modules[j]);
    }
    if forall family :: InOrder(modules, family) {
      forall i, j, family | 0 <= i < j < |modules| ensures GivesWay(modules[i], modules[j], family) {
        assert InOrder(modules, family);
      }
    }
  }

  lemma TaggedFree(ids: seq<string>, owner: string)
    ensures ClashFree(Tagged(ids, owner)) <==> owner == "" || forall i, j | 0 <= i < j < |ids| :: ids[i] != ids[j]
  {
    var claims := Tagged(ids, owner);
    assert forall i | 0 <= i < |ids| :: claims[i] == Claim(ids[i], owner);
  }

  lemma AloneFreeIff(m: Module)
    ensures AloneFree(m, Packs)
    ensures AloneFree(m, Tools) <==> m.packId == "" || OneToolPerId(m)
    ensures AloneFree(m, Workflows)
        <==> m.packId == "" || forall i, j | 0 <= i < j < |m.workflows| :: m.workflows[i].kind != m.workflows[j].kind
    ensures AloneFree(m, Artifacts)
        <==> m.packId == ""
             || forall i, j | 0 <= i < j < |m.renderers| :: m.renderers[i].artifactKind != m.renderers[j].artifactKind
  {
    TaggedFree([m.packId], m.package);
    TaggedFree(ToolIds(m), m.packId);
    TaggedFree(WorkflowKinds(m), m.packId);
    TaggedFree(ArtifactKinds(m), m.packId);
    assert forall i | 0 <= i < |m.tools| :: ToolIds(m)[i] == m.tools[i].id;
    assert forall i | 0 <= i < |m.workflows| :: WorkflowKinds(m)[i] == m.workflows[i].kind;
    assert forall i | 0 <= i < |m.renderers| :: ArtifactKinds(m)[i] == m.renderers[i].artifactKind;
  }

  ghost predicate Binds(r: RunnerTool, t: Tool) {
    t.fly && r.id == t.id && r.contract == t.contract && r.executable
  }

  /** The tools of a module and what the runner offers for it: no id twice, every tool sound, every runner tool
      executable, and the two bound as a tool's transport says. */
  ghost predicate ToolsBound(m: Module) {
    && (forall i, j | 0 <= i < j < |m.tools| :: m.tools[i].id != m.tools[j].id)
    && (forall i, j | 0 <= i < j < |m.runnerTools| :: m.runnerTools[i].id != m.runnerTools[j].id)
    && (forall t | t in m.tools :: t.sound)
    && (forall t | t in m.tools && t.fly :: exists r :: r in m.runnerTools && Binds(r, t))
    && (forall r | r in m.runnerTools :: exists t :: t in m.tools && Binds(r, t))
  }

  lemma ToolsFitIff(m: Module)
    ensures ToolsFit(m) <==> ToolsBound(m)
  {
    if ToolsFit(m) { BindingsBijective(m); }
    if ToolsBound(m) {
      forall r | r in m.runnerTools ensures r.executable && r.id in ToolIds(m) {
        var t :| t in m.tools && Binds(r, t);
        InToolIds(m, r.id);
      }
      forall t | t in m.tools ensures BoundAsDeclared(m, t) {
        if !t.fly {
          forall r | r in m.runnerTools ensures r.id != t.id {
            var u :| u in m.tools && Binds(r, u);
          }
        }
      }
    }
  }

  /** One module is accepted exactly when it is sound field by field: its own checks pass, its tools are bound,
      the tools that it declares and that its workflows name are its own, its workflows and renderers are
      sound, and unless its pack id is empty no workflow kind and no artifact kind comes twice. */
  lemma AcceptedAloneIff(m: Module)
    ensures Acceptable([m]) <==>
            && m.header && m.runtime && m.tail && ToolsBound(m)
            && (forall id | id in m.declaredTools :: exists t :: t in m.tools && t.id == id)
            && (forall w, id | w in m.workflows && id in w.toolIds :: exists t :: t in m.tools && t.id == id)
            && (forall w | w in m.workflows :: w.sound) && (forall r | r in m.renderers :: r.sound)
            && (m.packId != "" ==> forall i, j | 0 <= i < j < |m.workflows| ::
                                     m.workflows[i].kind != m.workflows[j].kind)
            && (m.packId != "" ==> forall i, j | 0 <= i < j < |m.renderers| ::
                                     m.renderers[i].artifactKind != m.renderers[j].artifactKind)
  {
    AloneAcceptable(m);
    AloneFreeIff(m);
    ToolsFitIff(m);
    forall id ensures id in ToolIds(m) <==> exists t :: t in m.tools && t.id == id { InToolIds(m, id); }
    assert (forall family :: AloneFree(m, family)) ==>
           AloneFree(m, Packs) && AloneFree(m, Tools) && AloneFree(m, Workflows) && AloneFree(m, Artifacts);
  }

  /** Two packs apart from each other but for one artifact kind, and two but for one workflow kind. */
  const REPORTER := Module("a", "a", true, true, [], [], [], [], [Renderer("report", true)], true)
  const PRINTER := Module("b", "b", true, true, [], [], [], [], [Renderer("report", true)], true)
  const PLANNER := Module("a", "a", true, true, [], [], [], [Workflow("plan", true, [])], [], true)
  const SCHEDULER := Module("b", "b", true, true, [], [], [], [Workflow("plan", true, [])], [], true)

  lemma PairIsRefused(a: Module, b: Module)
    requires !LeavesFree(a, b)
    ensures !Acceptable([a, b])
  {
    AcceptedIffFieldsFree([a, b]);
    assert [a, b][0] == a && [a, b][1] == b;
  }

  lemma BareAlone(m: Module)
    requires m.header && m.runtime && m.tail && m.tools == [] && m.runnerTools == [] && m.declaredTools == []
    requires |m.workflows| <= 1 && |m.renderers| <= 1
    requires (forall w | w in m.workflows :: w.sound && w.toolIds == []) && (forall r | r in m.renderers :: r.sound)
    ensures Acceptable([m])
  {
    AcceptedAloneIff(m);
  }

  lemma KindsTaken()
    ensures !LeavesFree(REPORTER, PRINTER) && !LeavesFree(PLANNER, SCHEDULER)
  {
    assert REPORTER.renderers[0] in REPORTER.renderers && PRINTER.renderers[0] in PRINTER.renderers;
    assert PLANNER.workflows[0] in PLANNER.workflows && SCHEDULER.workflows[0] in SCHEDULER.workflows;
  }

  /** Each is accepted alone, and neither pair is. */
  lemma SharedKindsAreRefused()
    ensures Acceptable([REPORTER]) && Acceptable([PRINTER]) && !Acceptable([REPORTER, PRINTER])
    ensures Acceptable([PLANNER]) && Acceptable([SCHEDULER]) && !Acceptable([PLANNER, SCHEDULER])
  {
    BareAlone(REPORTER);
    BareAlone(PRINTER);
    BareAlone(PLANNER);
    BareAlone(SCHEDULER);
    KindsTaken();
    PairIsRefused(REPORTER, PRINTER);
    PairIsRefused(PLANNER, SCHEDULER);
  }

  // ----- What the runner relies on -----

  /** Every runner tool, by module and position, is the one binding of one `fly` tool, with its
      contract; another runner tool answers to its name only behind a module with an empty pack id. */
  lemma RunnerToolsAreTheFlyTools(modules: seq<Module>)
    requires Acceptable(modules)
    ensures forall i, a, j, b |
              && 0 <= i <= j < |modules| && 0 <= a < |modules[i].runnerTools| && 0 <= b < |modules[j].runnerTools|
              && modules[i].runnerTools[a].id == modules[j].runnerTools[b].id ::
              (i == j && a == b) || (i < j && modules[i].packId == "")
    ensures forall i | 0 <= i < |modules| :: BijectiveBindings(modules[i])
  {
    AcceptedIffEachInOrder(modules);
    forall i, j, r, s | 0 <= i < j < |modules| && r in modules[i].runnerTools && s in modules[j].runnerTools
                        && r.id == s.id
      ensures modules[i].packId == ""
    {
      assert Sound(modules[i]) && Sound(modules[j]);
      assert InOrder(modules, Tools) && GivesWay(modules[i], modules[j], Tools);
      assert r.id in Ids(modules[i], Tools) && s.id in Ids(modules[j], Tools);
    }
    forall i | 0 <= i < |modules| ensures OneRunnerPerId(modules[i]) && BijectiveBindings(modules[i]) {
      assert Sound(modules[i]);
      BindingsBijective(modules[i]);
    }
  }

  ghost predicate BijectiveBindings(m: Module) {
    && (forall t | t in m.tools && t.fly :: exists r :: r in m.runnerTools && Binds(r, t))
    && (forall r | r in m.runnerTools :: exists t :: t in m.tools && Binds(r, t))
    && (forall r, s, t | r in m.runnerTools && s in m.runnerTools && Binds(r, t) && Binds(s, t) :: r == s)
    && (forall r, t, u | t in m.tools && u in m.tools && Binds(r, t) && Binds(r, u) :: t == u)
  }

  lemma RunnerOf(m: Module, t: Tool) returns (r: RunnerTool)
    requires ToolsFit(m) && t in m.tools && t.fly
    ensures r in m.runnerTools && Binds(r, t)
  {
    assert BoundAsDeclared(m, t);
    r :| r in m.runnerTools && r.id == t.id && r.contract == t.contract;
  }

  lemma ToolOf(m: Module, r: RunnerTool) returns (t: Tool)
    requires ToolsFit(m) && r in m.runnerTools
    ensures t in m.tools && Binds(r, t)
  {
    var i :| 0 <= i < |ToolIds(m)| && ToolIds(m)[i] == r.id;
    t := m.tools[i];
    assert BoundAsDeclared(m, t);
    var s := RunnerOf(m, t);
    assert s == r;
  }

  lemma UniqueById(m: Module, r: RunnerTool, s: RunnerTool, t: Tool, u: Tool)
    requires ToolsFit(m)
    ensures r in m.runnerTools && s in m.runnerTools && r.id == s.id ==> r == s
    ensures t in m.tools && u in m.tools && t.id == u.id ==> t == u
  {}

  lemma BindingsBijective(m: Module)
    requires ToolsFit(m)
    ensures BijectiveBindings(m)
  {
    forall t | t in m.tools && t.fly ensures exists r :: r in m.runnerTools && Binds(r, t) {
      var r := RunnerOf(m, t);
    }
    forall r | r in m.runnerTools ensures exists t :: t in m.tools && Binds(r, t) {
      var t := ToolOf(m, r);
    }
    forall r, s, t | r in m.runnerTools && s in m.runnerTools && Binds(r, t) && Binds(s, t) ensures r == s {
      UniqueById(m, r, s, t, t);
    }
    forall r, t, u | t in m.tools && u in m.tools && Binds(r, t) && Binds(r, u) ensures t == u {
      UniqueById(m, r, r, t, u);
    }
  }

  datatype Found = Missing | At(index: nat, tool: RunnerTool)

  /** The runner's lookup: the first module that has the tool, then its first tool of that name. It is the
      only one unless its module's pack id is empty. */
  method FindRunnerTool(modules: seq<Module>, name: string) returns (found: Found)
    requires Acceptable(modules)
    ensures found.Missing? <==> forall i, r | 0 <= i < |modules| && r in modules[i].runnerTools :: r.id != name
    ensures found.At? ==>
            found.index < |modules| && found.tool in modules[found.index].runnerTools && found.tool.id == name
    ensures found.At? ==> forall i, r | 0 <= i < |modules| && r in modules[i].runnerTools && r.id == name ::
                                        (i == found.index && r == found.tool)
                                        || (i > found.index && modules[found.index].packId == "")
    ensures found.At? ==> exists t :: t in modules[found.index].tools && Binds(found.tool, t)
  {
    RunnerToolsAreTheFlyTools(modules);
    for i := 0 to |modules|
      invariant forall j, r | 0 <= j < i && r in modules[j].runnerTools :: r.id != name
    {
      for a := 0 to |modules[i].runnerTools|
        invariant forall b | 0 <= b < a :: modules[i].runnerTools[b].id != name
      {
        if modules[i].runnerTools[a].id == name {
          assert BijectiveBindings(modules[i]);
          return At(i, modules[i].runnerTools[a]);
        }
      }
    }
    return Missing;
  }
}
