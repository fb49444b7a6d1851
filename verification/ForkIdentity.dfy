/** Fork identity: configuring the three JSON files of a fork, and checking them for drift. */
module ForkIdentity {
  import opened Text
  import opened JsonTree
  import opened MobileConfig

  // ----- The identity -----

  /** Command-line values, each possibly absent. */
  datatype Inputs = Inputs(id: Option<string>, displayName: Option<string>, description: Option<string>,
                           webOrigin: Option<string>,
                           mobileBundle: Option<string>, defaultAgentPack: Option<string>, maxAgents: Option<string>)

  const NO_INPUTS := Inputs(None, None, None, None, None, None, None)

  function NonBlank(value: Option<string>): Option<string> {
    if value.Some? && Trim(value.value) != "" then Some(Trim(value.value)) else None
  }

  function WithoutSlash(s: string): string {
    if s != "" && s[|s| - 1] == '/' then s[..|s| - 1] else s
  }

  /** A given text, or else what is there already. */
  function Pick(value: Option<string>, otherwise: Outcome<Json>): Outcome<Json> {
    if value.Some? then Ok(Str(value.value)) else otherwise
  }

  function Origin(value: Option<string>): Option<string> {
    if value.Some? && WithoutSlash(Trim(value.value)) != "" then Some(WithoutSlash(Trim(value.value))) else None
  }

  predicate Small(c: char) {
    'a' <= c <= 'z' || '0' <= c <= '9'
  }

  function DefaultScheme(id: string): string {
    if id == "" then "" else (if Small(id[0]) then [id[0]] else "") + DefaultScheme(id[1..])
  }

  predicate Slug(id: string) {
    && 1 <= |id| <= 63 && Small(id[0]) && Small(id[|id| - 1])
    && forall i | 0 <= i < |id| :: Small(id[i]) || id[i] == '-'
  }

  predicate Scheme(s: string) {
    s != "" && 'a' <= s[0] <= 'z' && forall i | 0 <= i < |s| :: Small(s[i]) || s[i] == '+' || s[i] == '.' || s[i] == '-'
  }

  predicate Letter(c: char) {
    'A' <= c <= 'Z' || 'a' <= c <= 'z'
  }

  predicate Bundle(s: string) {
    BundleParts(Split(s, '.'))
  }

  predicate BundleParts(parts: seq<string>) {
    && |parts| >= 3
    && parts[0] != "" && Letter(parts[0][0])
    && (forall i | 0 <= i < |parts[0]| :: Letter(parts[0][i]) || '0' <= parts[0][i] <= '9')
    && forall k | 0 < k < |parts| ::
         parts[k] != "" && forall i | 0 <= i < |parts[k]| ::
           Letter(parts[k][i]) || '0' <= parts[k][i] <= '9' || parts[k][i] == '-'
  }

  predicate PackId(s: string) {
    1 <= |s| <= 64 && 'a' <= s[0] <= 'z' && forall i | 0 <= i < |s| :: Small(s[i]) || s[i] == '-'
  }

  predicate Filled(json: Json) {
    json.Str? && Trim(json.s) != ""
  }

  /** The fields that configuration computes; the rest of the file is kept. */
  datatype Identity = Identity(id: Json, displayName: Json, webTitle: Json, description: Json, webOrigin: Json,
                               mobileName: Json, bundle: Json, pack: Json, maxAgents: Json)

  /** `validateForkIdentity`, with the scheme that `configureForkIdentity` derives. */
  predicate Valid(r: Rules, schemaVersion: Json, x: Identity) {
    && schemaVersion == Num(1.0)
    && x.id.Str? && Slug(x.id.s) && Scheme(DefaultScheme(x.id.s))
    && Filled(x.displayName) && Filled(x.mobileName)
    && x.webOrigin.Str? && r.host(x.webOrigin.s).Some?
    && x.bundle.Str? && Bundle(x.bundle.s)
    && x.pack.Str? && PackId(x.pack.s)
    && x.maxAgents.Num? && x.maxAgents.n == x.maxAgents.n.Floor as real && 1.0 <= x.maxAgents.n <= 100.0
  }

  function Agents(r: Rules, value: Option<string>, otherwise: Outcome<Json>): Outcome<Json> {
    if value.Some? && value.value != "" then
      var n := r.number(value.value);
      if n.Some? then Ok(Num(n.value)) else Threw
    else otherwise
  }

  /** The identity computed from the product file and the inputs; anything invalid throws. */
  function IdentityOf(r: Rules, f: map<string, Json>, v: Inputs): Outcome<Identity> {
    var name := NonBlank(v.displayName);
    var mobileName := Pick(name, Get(Lookup(f, "mobile"), "displayName"));
    var bundle := Pick(NonBlank(v.mobileBundle), Get(Lookup(f, "mobile"), "bundleIdentifier"));
    var pack := Pick(NonBlank(v.defaultAgentPack), Get(Lookup(f, "workspace"), "defaultAgentPack"));
    var agents := Agents(r, v.maxAgents, Get(Lookup(f, "workspace"), "maxAgents"));
    if mobileName.Threw? || bundle.Threw? || pack.Threw? || agents.Threw? then Threw
    else
      var x := Identity(
        if v.id.Some? && v.id.value != "" then Str(r.lower(Trim(v.id.value))) else Lookup(f, "id"),
        Pick(name, Ok(Lookup(f, "displayName"))).value,
        Pick(name, Ok(Lookup(f, "webTitle"))).value,
        Pick(NonBlank(v.description), Ok(Lookup(f, "description"))).value,
        Pick(Origin(v.webOrigin), Ok(Lookup(f, "webOrigin"))).value,
        mobileName.value, bundle.value, pack.value, agents.value);
      if Valid(r, Lookup(f, "schemaVersion"), x) then Ok(x) else Threw
  }

  /** The product file as it should be. */
  function ProductOf(r: Rules, f: map<string, Json>, x: Identity): map<string, Json>
    requires x.id.Str?
  {
    var mobile := Spread(r, Lookup(f, "mobile"))["displayName" := x.mobileName]["slug" := x.id]
      ["scheme" := Str(DefaultScheme(x.id.s))]["bundleIdentifier" := x.bundle];
    f["id" := x.id]["displayName" := x.displayName]["webTitle" := x.webTitle]["description" := x.description]
     ["webOrigin" := x.webOrigin]["mobile" := Obj(mobile)]
     ["workspace" := Obj(map["defaultAgentPack" := x.pack, "maxAgents" := x.maxAgents])]
  }

  function PackageOf(r: Rules, package: Json, x: Identity): map<string, Json> {
    Spread(r, package)["name" := x.id]["description" := x.description]
  }

  // ----- The mobile file -----

  function MobileOf(r: Rules, x: Identity): MobileIdentity
    requires Valid(r, Num(1.0), x)
  {
    MobileIdentity(x.mobileName, x.id, Str(DefaultScheme(x.id.s)), x.bundle, r.host(x.webOrigin.s).value)
  }

  // ----- The command -----

  datatype Files = Files(product: Json, mobile: Option<Json>, package: Json)

  /** What each file should hold before being written; the mobile file is computed even when it is missing. */
  function Expected(r: Rules, files: Files, v: Inputs): Outcome<Files> {
    if !files.product.Obj? then Threw
    else
      var x := IdentityOf(r, files.product.fields, v);
      if x.Threw? then Threw
      else
        var mobile := ExpectedMobile(r, MobileOf(r, x.value),
                                     if files.mobile.Some? then files.mobile.value else Obj(map[]));
        if mobile.Threw? then Threw
        else Ok(Files(Obj(ProductOf(r, files.product.fields, x.value)),
                      if files.mobile.Some? then Some(mobile.value) else None,
                      Obj(PackageOf(r, files.package, x.value))))
  }

  datatype FileName = Product | Mobile | Package

  datatype Drift = Drift(file: FileName, path: Path)

  function Named(file: FileName, paths: set<Path>): set<Drift> {
    set p | p in paths :: Drift(file, p)
  }

  function MobileDifferences(r: Rules, actual: Option<Json>, expected: Option<Json>): set<Path> {
    if actual.Some? && expected.Some? then Differences(r, actual.value, expected.value, []) else {}
  }

  function DriftOf(r: Rules, actual: Files, expected: Files): set<Drift> {
    Named(Product, Differences(r, actual.product, expected.product, []))
    + Named(Mobile, MobileDifferences(r, actual.mobile, expected.mobile))
    + Named(Package, Differences(r, actual.package, expected.package, []))
  }

  function Check(r: Rules, files: Files): Outcome<set<Drift>> {
    var expected := Expected(r, files, NO_INPUTS);
    if expected.Threw? then Threw else Ok(DriftOf(r, files, expected.value))
  }

  function StoredFiles(files: Files): Files {
    Files(Stored(files.product), if files.mobile.Some? then Some(Stored(files.mobile.value)) else None,
          Stored(files.package))
  }

  function Init(r: Rules, files: Files, v: Inputs): Outcome<Files> {
    var expected := Expected(r, files, v);
    if expected.Threw? then Threw else Ok(StoredFiles(expected.value))
  }

  function FilesOf(files: Files): nat {
    if files.mobile.Some? then 3 else 2
  }

  /** The files when only the first so many writes went through: product, mobile if there is one, package. */
  function Partially(before: Files, after: Files, writes: nat): Files {
    Files(if writes >= 1 then after.product else before.product,
          if before.mobile.Some? && writes >= 2 then after.mobile else before.mobile,
          if writes >= FilesOf(before) then after.package else before.package)
  }

  lemma NamedEmpty(file: FileName, paths: set<Path>)
    ensures Named(file, paths) == {} <==> paths == {}
  {
    if paths != {} {
      var p :| p in paths;
      assert Drift(file, p) in Named(file, paths);
    } else {
      NamedNone(file);
    }
  }

  lemma DriftIffCovers(r: Rules, files: Files, expected: Files)
    requires files.mobile.Some? == expected.mobile.Some?
    ensures DriftOf(r, files, expected) == {} <==>
            && Covers(r, files.product, expected.product) && Covers(r, files.package, expected.package)
            && (files.mobile.Some? ==> Covers(r, files.mobile.value, expected.mobile.value))
  {
    NoDifferenceIffCovers(r, files.product, expected.product, []);
    NoDifferenceIffCovers(r, files.package, expected.package, []);
    if files.mobile.Some? { NoDifferenceIffCovers(r, files.mobile.value, expected.mobile.value, []); }
    NamedEmpty(Product, Differences(r, files.product, expected.product, []));
    NamedEmpty(Mobile, MobileDifferences(r, files.mobile, expected.mobile));
    NamedEmpty(Package, Differences(r, files.package, expected.package, []));
  }

  /** Every file has what it should hold, and the files do say what that is. */
  ghost predicate FilesCover(r: Rules, files: Files) {
    && Expected(r, files, NO_INPUTS).Ok?
    && var expected := Expected(r, files, NO_INPUTS).value;
       && Covers(r, files.product, expected.product) && Covers(r, files.package, expected.package)
       && (files.mobile.Some? ==> Covers(r, files.mobile.value, expected.mobile.value))
  }

  /** Check passes exactly when every file covers what it should hold. */
  lemma CheckIffCovers(r: Rules, files: Files)
    ensures Check(r, files) == Ok({}) <==> FilesCover(r, files)
  {
    if Expected(r, files, NO_INPUTS).Ok? { DriftIffCovers(r, files, Expected(r, files, NO_INPUTS).value); }
  }

  class Checkout {
    const rules: Rules
    var product: Json
    var mobile: Option<Json>
    var package: Json

    constructor (rules: Rules, files: Files)
      ensures this.rules == rules && Contents() == files
    {
      this.rules := rules;
      product, mobile, package := files.product, files.mobile, files.package;
    }

    function Contents(): Files reads this {
      Files(product, mobile, package)
    }

    /** The files written in turn, until a write fails. */
    method WriteFiles(expected: Files, writes: nat) returns (ok: bool)
      requires expected.mobile.Some? == mobile.Some?
      modifies this`product, this`mobile, this`package
      ensures ok == (writes >= FilesOf(old(Contents())))
      ensures Contents() == Partially(old(Contents()), StoredFiles(expected), writes)
    {
      if writes == 0 { return false; }
      product := Stored(expected.product);
      if mobile.Some? {
        if writes == 1 { return false; }
        mobile := Some(Stored(expected.mobile.value));
        if writes == 2 { return false; }
      } else if writes == 1 {
        return false;
      }
      package := Stored(expected.package);
      ok := true;
    }

    /** `init` throws before it writes anything, or writes the files in turn until a write fails. */
    method InitFork(v: Inputs, writes: nat) returns (ok: bool)
      modifies this`product, this`mobile, this`package
      ensures var init := Init(rules, old(Contents()), v);
        && ok == (init.Ok? && writes >= FilesOf(old(Contents())))
        && Contents() == if init.Ok? then Partially(old(Contents()), init.value, writes) else old(Contents())
    {
      var expected := Expected(rules, Contents(), v);
      if expected.Threw? { return false; }
      ok := WriteFiles(expected.value, writes);
    }

    method CheckFork() returns (clean: bool)
      ensures clean <==> FilesCover(rules, Contents())
    {
      CheckIffCovers(rules, Contents());
      var drift := Check(rules, Contents());
      clean := drift.Ok? && drift.value == {};
    }
  }

  // ----- What init writes is what check expects -----

  lemma ProductLookups(r: Rules, f: map<string, Json>, x: Identity)
    requires x.id.Str?
    ensures var p := ProductOf(r, f, x);
      && Lookup(p, "id") == x.id && Lookup(p, "displayName") == x.displayName && Lookup(p, "webTitle") == x.webTitle
      && Lookup(p, "description") == x.description && Lookup(p, "webOrigin") == x.webOrigin
      && Lookup(p, "schemaVersion") == Lookup(f, "schemaVersion")
  {}

  /** The product file as it is read back after being written. */
  function Rewritten(r: Rules, f: map<string, Json>, x: Identity): map<string, Json>
    requires x.id.Str?
  {
    Stored(Obj(ProductOf(r, f, x))).fields
  }

  function MobileFields(r: Rules, f: map<string, Json>, x: Identity): map<string, Json>
    requires x.id.Str?
  {
    Spread(r, Lookup(f, "mobile"))["displayName" := x.mobileName]["slug" := x.id]
      ["scheme" := Str(DefaultScheme(x.id.s))]["bundleIdentifier" := x.bundle]
  }

  lemma NestedLookups(r: Rules, f: map<string, Json>, x: Identity)
    requires x.id.Str?
    ensures Lookup(ProductOf(r, f, x), "mobile") == Obj(MobileFields(r, f, x))
    ensures Lookup(ProductOf(r, f, x), "workspace")
            == Obj(map["defaultAgentPack" := x.pack, "maxAgents" := x.maxAgents])
  {}

  lemma MobileLookups(r: Rules, f: map<string, Json>, x: Identity)
    requires x.id.Str?
    ensures var m := MobileFields(r, f, x);
      && Lookup(m, "displayName") == x.mobileName && Lookup(m, "slug") == x.id
      && Lookup(m, "scheme") == Str(DefaultScheme(x.id.s)) && Lookup(m, "bundleIdentifier") == x.bundle
  {}

  /** The texts and the number of a valid identity are written as they are. */
  lemma RewrittenTop(r: Rules, f: map<string, Json>, x: Identity)
    requires Valid(r, Lookup(f, "schemaVersion"), x)
    ensures var g := Rewritten(r, f, x);
      && Lookup(g, "id") == x.id && Lookup(g, "displayName") == x.displayName && Lookup(g, "webOrigin") == x.webOrigin
      && Lookup(g, "webTitle") == Stored(x.webTitle) && Lookup(g, "description") == Stored(x.description)
      && Lookup(g, "schemaVersion") == Num(1.0)
  {
    ProductLookups(r, f, x);
    var p := ProductOf(r, f, x);
    StoredLookup(p, "id"); StoredLookup(p, "displayName"); StoredLookup(p, "webOrigin");
    StoredLookup(p, "webTitle"); StoredLookup(p, "description"); StoredLookup(p, "schemaVersion");
  }

  lemma StoredWorkspace(pack: string, maxAgents: real)
    ensures var w := map["defaultAgentPack" := Str(pack), "maxAgents" := Num(maxAgents)]; Stored(Obj(w)) == Obj(w)
  {
    var w := map["defaultAgentPack" := Str(pack), "maxAgents" := Num(maxAgents)];
    assert Stored(Obj(w)).fields == w;
  }

  lemma RewrittenNested(r: Rules, f: map<string, Json>, x: Identity)
    requires Valid(r, Lookup(f, "schemaVersion"), x)
    ensures var g := Rewritten(r, f, x);
      && Lookup(g, "mobile") == Stored(Obj(MobileFields(r, f, x)))
      && Lookup(g, "workspace") == Obj(map["defaultAgentPack" := x.pack, "maxAgents" := x.maxAgents])
  {
    NestedLookups(r, f, x);
    StoredLookup(ProductOf(r, f, x), "mobile");
    StoredLookup(ProductOf(r, f, x), "workspace");
    StoredWorkspace(x.pack.s, x.maxAgents.n);
  }

  lemma RewrittenMobile(r: Rules, f: map<string, Json>, x: Identity)
    requires Valid(r, Lookup(f, "schemaVersion"), x)
    ensures var m := Stored(Obj(MobileFields(r, f, x))).fields;
      && Lookup(m, "displayName") == x.mobileName && Lookup(m, "slug") == x.id
      && Lookup(m, "scheme") == Str(DefaultScheme(x.id.s)) && Lookup(m, "bundleIdentifier") == x.bundle
  {
    MobileLookups(r, f, x);
    var m := MobileFields(r, f, x);
    StoredLookup(m, "displayName"); StoredLookup(m, "slug"); StoredLookup(m, "scheme");
    StoredLookup(m, "bundleIdentifier");
  }

  /** The identity as computed again from the written file. */
  function Again(x: Identity): Identity {
    x.(webTitle := Stored(x.webTitle), description := Stored(x.description))
  }

  lemma OkIsValid(r: Rules, f: map<string, Json>, v: Inputs, x: Identity)
    requires IdentityOf(r, f, v) == Ok(x)
    ensures Valid(r, Lookup(f, "schemaVersion"), x)
  {}

  /** An identity that has what the inputs say. */
  predicate Shows(r: Rules, v: Inputs, y: Identity) {
    var name := NonBlank(v.displayName);
    && (v.id.Some? && v.id.value != "" ==> y.id == Str(r.lower(Trim(v.id.value))))
    && (name.Some? ==> y.displayName == y.webTitle == y.mobileName == Str(name.value))
    && (NonBlank(v.description).Some? ==> y.description == Str(NonBlank(v.description).value))
    && (Origin(v.webOrigin).Some? ==> y.webOrigin == Str(Origin(v.webOrigin).value))
    && (NonBlank(v.mobileBundle).Some? ==> y.bundle == Str(NonBlank(v.mobileBundle).value))
    && (NonBlank(v.defaultAgentPack).Some? ==> y.pack == Str(NonBlank(v.defaultAgentPack).value))
    && (v.maxAgents.Some? && v.maxAgents.value != ""
        ==> r.number(v.maxAgents.value).Some? && y.maxAgents == Num(r.number(v.maxAgents.value).value))
  }

  /** With the inputs it shows already, the identity is what the file says. */
  lemma ReadShownIdentity(r: Rules, g: map<string, Json>, m: map<string, Json>, w: map<string, Json>, v: Inputs,
                          y: Identity)
    requires Lookup(g, "id") == y.id && Lookup(g, "displayName") == y.displayName
             && Lookup(g, "webOrigin") == y.webOrigin
    requires Lookup(g, "webTitle") == y.webTitle && Lookup(g, "description") == y.description
    requires Lookup(g, "mobile") == Obj(m) && Lookup(m, "displayName") == y.mobileName
             && Lookup(m, "bundleIdentifier") == y.bundle
    requires Lookup(g, "workspace") == Obj(w) && Lookup(w, "defaultAgentPack") == y.pack
             && Lookup(w, "maxAgents") == y.maxAgents
    requires Valid(r, Lookup(g, "schemaVersion"), y) && Shows(r, v, y)
    ensures IdentityOf(r, g, v) == Ok(y)
  {}

  lemma WorkspaceLookups(x: Identity)
    ensures var w := map["defaultAgentPack" := x.pack, "maxAgents" := x.maxAgents];
            Lookup(w, "defaultAgentPack") == x.pack && Lookup(w, "maxAgents") == x.maxAgents
  {}

  lemma ComputedAgain(r: Rules, f: map<string, Json>, x: Identity)
    requires Valid(r, Lookup(f, "schemaVersion"), x)
    ensures IdentityOf(r, Rewritten(r, f, x), NO_INPUTS) == Ok(Again(x))
  {
    RewrittenTop(r, f, x);
    RewrittenNested(r, f, x);
    RewrittenMobile(r, f, x);
    WorkspaceLookups(x);
    ReadShownIdentity(r, Rewritten(r, f, x), Stored(Obj(MobileFields(r, f, x))).fields,
                      map["defaultAgentPack" := x.pack, "maxAgents" := x.maxAgents], NO_INPUTS, Again(x));
  }

  lemma MobileAgain(r: Rules, f: map<string, Json>, x: Identity)
    requires Valid(r, Lookup(f, "schemaVersion"), x)
    ensures var g := Rewritten(r, f, x); MobileFields(r, g, Again(x)) == Stored(Obj(MobileFields(r, f, x))).fields
  {
    RewrittenNested(r, f, x);
    RewrittenMobile(r, f, x);
    var m := Stored(Obj(MobileFields(r, f, x))).fields;
    PutSame(m, "displayName", x.mobileName);
    PutSame(m, "slug", x.id);
    PutSame(m, "scheme", Str(DefaultScheme(x.id.s)));
    PutSame(m, "bundleIdentifier", x.bundle);
  }

  /** What the product file should hold, computed again, is what it holds. */
  lemma ProductAgain(r: Rules, f: map<string, Json>, x: Identity, k: string)
    requires Valid(r, Lookup(f, "schemaVersion"), x)
    ensures var g := Rewritten(r, f, x); Lookup(ProductOf(r, g, Again(x)), k) == Lookup(g, k)
  {
    var g := Rewritten(r, f, x);
    RewrittenTop(r, f, x);
    RewrittenNested(r, f, x);
    MobileAgain(r, f, x);
    ProductLookups(r, g, Again(x));
    NestedLookups(r, g, Again(x));
    OtherKeys(r, g, Again(x), k);
  }

  lemma OtherKeys(r: Rules, f: map<string, Json>, x: Identity, k: string)
    requires x.id.Str?
    ensures k == "id" || k == "displayName" || k == "webTitle" || k == "description" || k == "webOrigin"
            || k == "mobile" || k == "workspace" || Lookup(ProductOf(r, f, x), k) == Lookup(f, k)
  {}

  lemma PackageAgain(r: Rules, package: Json, x: Identity, k: string)
    requires x.id.Str?
    ensures var g := Stored(Obj(PackageOf(r, package, x)));
            Lookup(PackageOf(r, g, Again(x)), k) == Lookup(g.fields, k)
  {
    var p := PackageOf(r, package, x);
    assert Lookup(p, "name") == x.id && Lookup(p, "description") == x.description;
    StoredLookup(p, "name");
    StoredLookup(p, "description");
  }

  // ----- Main results -----

  lemma ProductClean(r: Rules, f: map<string, Json>, x: Identity)
    requires Valid(r, Lookup(f, "schemaVersion"), x)
    ensures var g := Rewritten(r, f, x); Differences(r, Obj(g), Obj(ProductOf(r, g, Again(x))), []) == {}
  {
    var g := Rewritten(r, f, x);
    forall k | k in ProductOf(r, g, Again(x))
      ensures Lookup(ProductOf(r, g, Again(x)), k) == Lookup(g, k)
    {
      ProductAgain(r, f, x, k);
    }
    LookupsCover(r, g, ProductOf(r, g, Again(x)));
  }

  lemma PackageClean(r: Rules, package: Json, x: Identity)
    requires x.id.Str?
    ensures var g := Stored(Obj(PackageOf(r, package, x))); Differences(r, g, Obj(PackageOf(r, g, Again(x))), []) == {}
  {
    var g := Stored(Obj(PackageOf(r, package, x)));
    forall k | k in PackageOf(r, g, Again(x)) ensures Lookup(PackageOf(r, g, Again(x)), k) == Lookup(g.fields, k) {
      PackageAgain(r, package, x, k);
    }
    LookupsCover(r, g.fields, PackageOf(r, g, Again(x)));
  }

  /** The mobile file the identity is applied to; a missing one counts as empty. */
  function Present(mobile: Option<Json>): Json {
    if mobile.Some? then mobile.value else Obj(map[])
  }

  lemma ExpectedIs(r: Rules, g: map<string, Json>, mobile: Option<Json>, package: Json, v: Inputs, y: Identity, e: Json)
    requires IdentityOf(r, g, v) == Ok(y) && Valid(r, Num(1.0), y)
             && ExpectedMobile(r, MobileOf(r, y), Present(mobile)) == Ok(e)
    ensures Expected(r, Files(Obj(g), mobile, package), v) ==
            Ok(Files(Obj(ProductOf(r, g, y)), if mobile.Some? then Some(e) else None, Obj(PackageOf(r, package, y))))
  {}

  lemma NamedNone(file: FileName)
    ensures Named(file, {}) == {}
  {}

  /** Check on files whose expected forms show no difference. */
  lemma CheckClean(r: Rules, g: map<string, Json>, mobile: Option<Json>, package: Json, y: Identity, e: Json)
    requires IdentityOf(r, g, NO_INPUTS) == Ok(y) && Valid(r, Num(1.0), y)
             && ExpectedMobile(r, MobileOf(r, y), Present(mobile)) == Ok(e)
    requires Differences(r, Obj(g), Obj(ProductOf(r, g, y)), []) == {}
             && Differences(r, package, Obj(PackageOf(r, package, y)), []) == {}
    requires mobile.Some? ==> Differences(r, mobile.value, e, []) == {}
    ensures Check(r, Files(Obj(g), mobile, package)) == Ok({})
  {
    ExpectedIs(r, g, mobile, package, NO_INPUTS, y, e);
    NamedNone(Product); NamedNone(Mobile); NamedNone(Package);
  }

  /** The same with the parts of a successful init. */
  lemma WrittenIsClean(r: Rules, f: map<string, Json>, mobile: Option<Json>, package: Json, x: Identity, e: Json)
    requires Valid(r, Lookup(f, "schemaVersion"), x) && ExpectedMobile(r, MobileOf(r, x), Present(mobile)) == Ok(e)
    ensures Check(r, Files(Obj(Rewritten(r, f, x)), if mobile.Some? then Some(Stored(e)) else None,
                           Stored(Obj(PackageOf(r, package, x))))) == Ok({})
  {
    var g := Rewritten(r, f, x);
    ComputedAgain(r, f, x);
    ProductClean(r, f, x);
    PackageClean(r, package, x);
    MobileClean(r, MobileOf(r, x), Present(mobile));
    var again := if mobile.Some? then Some(Stored(e)) else None;
    assert MobileOf(r, Again(x)) == MobileOf(r, x);
    CheckClean(r, g, again, Stored(Obj(PackageOf(r, package, x))), Again(x), if mobile.Some? then Stored(e) else e);
  }

  /** What a successful init has found, and what it writes. */
  lemma InitParts(r: Rules, files: Files, v: Inputs) returns (x: Identity, e: Json)
    requires Init(r, files, v).Ok?
    ensures files.product.Obj? && IdentityOf(r, files.product.fields, v) == Ok(x)
    ensures Valid(r, Lookup(files.product.fields, "schemaVersion"), x)
    ensures ExpectedMobile(r, MobileOf(r, x), Present(files.mobile)) == Ok(e)
    ensures Init(r, files, v).value ==
            Files(Obj(Rewritten(r, files.product.fields, x)), if files.mobile.Some? then Some(Stored(e)) else None,
                  Stored(Obj(PackageOf(r, files.package, x))))
  {
    x := IdentityOf(r, files.product.fields, v).value;
    OkIsValid(r, files.product.fields, v, x);
    e := ExpectedMobile(r, MobileOf(r, x), Present(files.mobile)).value;
    ExpectedIs(r, files.product.fields, files.mobile, files.package, v, x, e);
  }

  /** After a successful init, check finds no drift. */
  lemma InitThenCheck(r: Rules, files: Files, v: Inputs)
    requires Init(r, files, v).Ok?
    ensures Check(r, Init(r, files, v).value) == Ok({})
  {
    var x, e := InitParts(r, files, v);
    WrittenIsClean(r, files.product.fields, files.mobile, files.package, x, e);
  }

  lemma ProductTwice(r: Rules, f: map<string, Json>, x: Identity)
    requires Valid(r, Lookup(f, "schemaVersion"), x)
    ensures Rewritten(r, Rewritten(r, f, x), Again(x)) == Rewritten(r, f, x)
  {
    var g := Rewritten(r, f, x);
    StoredTwice(Obj(ProductOf(r, f, x)));
    forall k ensures Lookup(ProductOf(r, g, Again(x)), k) == Lookup(g, k) { ProductAgain(r, f, x, k); }
    StoredSame(ProductOf(r, g, Again(x)), g);
  }

  lemma PackageTwice(r: Rules, package: Json, x: Identity)
    requires x.id.Str?
    ensures var g := Stored(Obj(PackageOf(r, package, x))); Stored(Obj(PackageOf(r, g, Again(x)))) == g
  {
    var g := Stored(Obj(PackageOf(r, package, x)));
    StoredTwice(Obj(PackageOf(r, package, x)));
    forall k ensures Lookup(PackageOf(r, g, Again(x)), k) == Lookup(g.fields, k) { PackageAgain(r, package, x, k); }
    StoredSame(PackageOf(r, g, Again(x)), g.fields);
  }

  /** A second init without inputs writes the same three files. */
  lemma InitTwice(r: Rules, files: Files, v: Inputs)
    requires Init(r, files, v).Ok?
    ensures Init(r, Init(r, files, v).value, NO_INPUTS) == Init(r, files, v)
  {
    var x, e := InitParts(r, files, v);
    var f := files.product.fields;
    ComputedAgain(r, f, x);
    MobileClean(r, MobileOf(r, x), Present(files.mobile));
    StoredTwice(e);
    ProductTwice(r, f, x);
    PackageTwice(r, files.package, x);
    assert MobileOf(r, Again(x)) == MobileOf(r, x);
    InitIs(r, Rewritten(r, f, x), Init(r, files, v).value.mobile, Init(r, files, v).value.package, NO_INPUTS, Again(x),
           if files.mobile.Some? then Stored(e) else e);
  }

  lemma InitIs(r: Rules, g: map<string, Json>, mobile: Option<Json>, package: Json, v: Inputs, y: Identity, e: Json)
    requires IdentityOf(r, g, v) == Ok(y) && Valid(r, Num(1.0), y)
             && ExpectedMobile(r, MobileOf(r, y), Present(mobile)) == Ok(e)
    ensures Init(r, Files(Obj(g), mobile, package), v) ==
            Ok(Files(Obj(Rewritten(r, g, y)), if mobile.Some? then Some(Stored(e)) else None,
                     Stored(Obj(PackageOf(r, package, y)))))
  {
    ExpectedIs(r, g, mobile, package, v, y, e);
  }

  /** Without a mobile file, init fails on the product file only: when that is no object, or gives no
      valid identity with the inputs. */
  lemma InitWithoutMobile(r: Rules, files: Files, v: Inputs)
    requires files.mobile.None?
    ensures Init(r, files, v).Ok? <==> files.product.Obj? && IdentityOf(r, files.product.fields, v).Ok?
  {
    if files.product.Obj? && IdentityOf(r, files.product.fields, v).Ok? {
      var x := IdentityOf(r, files.product.fields, v).value;
      OkIsValid(r, files.product.fields, v, x);
      MissingMobile(r, MobileOf(r, x));
    }
  }

  // ----- An interrupted init -----

  lemma ShowsAgain(r: Rules, f: map<string, Json>, v: Inputs, x: Identity)
    requires IdentityOf(r, f, v) == Ok(x)
    ensures Shows(r, v, Again(x))
  {}

  lemma ComputedAgainWith(r: Rules, f: map<string, Json>, v: Inputs, x: Identity)
    requires IdentityOf(r, f, v) == Ok(x)
    ensures Valid(r, Lookup(f, "schemaVersion"), x) && IdentityOf(r, Rewritten(r, f, x), v) == Ok(Again(x))
  {
    OkIsValid(r, f, v, x);
    ShowsAgain(r, f, v, x);
    RewrittenTop(r, f, x);
    RewrittenNested(r, f, x);
    RewrittenMobile(r, f, x);
    WorkspaceLookups(x);
    ReadShownIdentity(r, Rewritten(r, f, x), Stored(Obj(MobileFields(r, f, x))).fields,
                      map["defaultAgentPack" := x.pack, "maxAgents" := x.maxAgents], v, Again(x));
  }

  lemma SameStored(p: map<string, Json>, q: map<string, Json>)
    requires forall k :: Stored(Lookup(p, k)) == Stored(Lookup(q, k))
    ensures Stored(Obj(p)) == Stored(Obj(q))
  {
    var s, t := Stored(Obj(p)).fields, Stored(Obj(q)).fields;
    forall k
      ensures k in s <==> k in t
      ensures k in s ==> s[k] == t[k]
    {
      StoredLookup(p, k);
      StoredLookup(q, k);
      StoredTwice(Lookup(p, k));
      StoredTwice(Lookup(q, k));
      assert Stored(Lookup(p, k)) == Stored(Lookup(q, k));
    }
    assert s == t;
  }

  /** The package file does not tell the first identity from the one read back. */
  lemma PackageOfAgain(r: Rules, package: Json, x: Identity)
    ensures Stored(Obj(PackageOf(r, package, Again(x)))) == Stored(Obj(PackageOf(r, package, x)))
  {
    StoredTwice(x.description);
    var p, q := PackageOf(r, package, Again(x)), PackageOf(r, package, x);
    forall k ensures Stored(Lookup(p, k)) == Stored(Lookup(q, k)) {
      if k == "description" {
        assert Lookup(p, k) == Stored(x.description) && Lookup(q, k) == x.description;
      } else {
        assert Lookup(p, k) == Lookup(q, k);
      }
    }
    SameStored(p, q);
  }

  /** The parts of an interrupted init, written again. */
  lemma PartsAgain(r: Rules, f: map<string, Json>, mobile: Option<Json>, package: Json, v: Inputs, x: Identity, e: Json,
                   mobileWritten: bool, packageWritten: bool)
    requires IdentityOf(r, f, v) == Ok(x) && Valid(r, Num(1.0), x)
             && ExpectedMobile(r, MobileOf(r, x), Present(mobile)) == Ok(e)
    ensures var written := Files(Obj(Rewritten(r, f, x)), if mobile.Some? then Some(Stored(e)) else None,
                                 Stored(Obj(PackageOf(r, package, x))));
            Init(r, Files(written.product, if mobileWritten then written.mobile else mobile,
                          if packageWritten then written.package else package), v) == Ok(written)
  {
    var g := Rewritten(r, f, x);
    ComputedAgainWith(r, f, v, x);
    ProductTwice(r, f, x);
    PackageTwice(r, package, x);
    PackageOfAgain(r, package, x);
    MobileClean(r, MobileOf(r, x), Present(mobile));
    StoredTwice(e);
    assert MobileOf(r, Again(x)) == MobileOf(r, x);
    InitIs(r, g, if mobileWritten then (if mobile.Some? then Some(Stored(e)) else None) else mobile,
           if packageWritten then Stored(Obj(PackageOf(r, package, x))) else package, v, Again(x),
           if mobileWritten && mobile.Some? then Stored(e) else e);
  }

  /** An init that stopped between its writes is completed by running it again with the same inputs. */
  lemma InterruptedInit(r: Rules, files: Files, v: Inputs, writes: nat)
    requires Init(r, files, v).Ok?
    ensures Init(r, Partially(files, Init(r, files, v).value, writes), v) == Init(r, files, v)
  {
    if writes > 0 {
      var x, e := InitParts(r, files, v);
      PartsAgain(r, files.product.fields, files.mobile, files.package, v, x, e, writes >= 2, writes >= FilesOf(files));
    }
  }

  // ----- One identity in all files -----

  /** The product file and the package file name the same fork. */
  lemma PackageNamesProduct(r: Rules, f: map<string, Json>, package: Json, x: Identity)
    requires Valid(r, Lookup(f, "schemaVersion"), x)
    ensures var p, k := Rewritten(r, f, x), Stored(Obj(PackageOf(r, package, x))).fields;
            Lookup(k, "name") == Lookup(p, "id") && Lookup(k, "description") == Lookup(p, "description")
  {
    RewrittenTop(r, f, x);
    var k := PackageOf(r, package, x);
    assert Lookup(k, "name") == x.id && Lookup(k, "description") == x.description;
    StoredLookup(k, "name");
    StoredLookup(k, "description");
  }

  predicate Nameable(r: Rules, p: map<string, Json>) {
    Lookup(p, "mobile").Obj? && Lookup(p, "id").Str? && Lookup(p, "webOrigin").Str?
      && r.host(Lookup(p, "webOrigin").s).Some?
  }

  /** What the written product file says about the mobile application. */
  function WrittenMobile(r: Rules, p: map<string, Json>): MobileIdentity
    requires Nameable(r, p)
  {
    var m := Lookup(p, "mobile").fields;
    MobileIdentity(Lookup(m, "displayName"), Lookup(p, "id"), Str(DefaultScheme(Lookup(p, "id").s)),
                   Lookup(m, "bundleIdentifier"), r.host(Lookup(p, "webOrigin").s).value)
  }

  lemma MobileShowsProduct(r: Rules, f: map<string, Json>, x: Identity, current: Json)
    requires Valid(r, Lookup(f, "schemaVersion"), x) && ExpectedMobile(r, MobileOf(r, x), current).Ok?
    ensures var p := Rewritten(r, f, x);
            && Nameable(r, p) && Lookup(Lookup(p, "mobile").fields, "slug") == Lookup(p, "id")
            && Hosted(Stored(ExpectedMobile(r, MobileOf(r, x), current).value), WrittenMobile(r, p))
  {
    RewrittenTop(r, f, x);
    RewrittenNested(r, f, x);
    RewrittenMobile(r, f, x);
    ExpectedIsHosted(r, MobileOf(r, x), current);
    StoredHosted(ExpectedMobile(r, MobileOf(r, x), current).value, MobileOf(r, x));
    assert WrittenMobile(r, Rewritten(r, f, x)) == MobileOf(r, x);
  }

  /** The three files agree: the package on id and description, the mobile file on name, slug, scheme,
      bundle and host everywhere it has a place for them. */
  predicate Agree(r: Rules, w: Files) {
    && w.product.Obj? && w.package.Obj?
    && var p := w.product.fields;
    && Nameable(r, p)
    && Lookup(w.package.fields, "name") == Lookup(p, "id") == Lookup(Lookup(p, "mobile").fields, "slug")
    && Lookup(w.package.fields, "description") == Lookup(p, "description")
    && (w.mobile.Some? ==> Hosted(w.mobile.value, WrittenMobile(r, p)))
  }

  lemma PartsAgree(r: Rules, f: map<string, Json>, mobile: Option<Json>, package: Json, x: Identity, e: Json)
    requires Valid(r, Lookup(f, "schemaVersion"), x) && ExpectedMobile(r, MobileOf(r, x), Present(mobile)) == Ok(e)
    ensures Agree(r, Files(Obj(Rewritten(r, f, x)), if mobile.Some? then Some(Stored(e)) else None,
                           Stored(Obj(PackageOf(r, package, x)))))
  {
    PackageNamesProduct(r, f, package, x);
    MobileShowsProduct(r, f, x, Present(mobile));
  }

  /** A successful init leaves one identity in all files. */
  lemma OneIdentity(r: Rules, files: Files, v: Inputs)
    requires Init(r, files, v).Ok?
    ensures Agree(r, Init(r, files, v).value) && (files.mobile.Some? <==> Init(r, files, v).value.mobile.Some?)
  {
    var x, e := InitParts(r, files, v);
    PartsAgree(r, files.product.fields, files.mobile, files.package, x, e);
  }

  /** A text that was given, or else what the file said. */
  function Given(value: Option<string>, otherwise: Json): Json {
    if value.Some? then Str(value.value) else otherwise
  }

  lemma IdentityShowsInputs(r: Rules, f: map<string, Json>, v: Inputs, x: Identity)
    requires IdentityOf(r, f, v) == Ok(x)
    ensures var name := NonBlank(v.displayName);
      && x.displayName == Given(name, Lookup(f, "displayName")) && x.webTitle == Given(name, Lookup(f, "webTitle"))
      && x.description == Given(NonBlank(v.description), Lookup(f, "description"))
      && x.webOrigin == Given(Origin(v.webOrigin), Lookup(f, "webOrigin"))
      && x.id == (if v.id.Some? && v.id.value != "" then Str(r.lower(Trim(v.id.value))) else Lookup(f, "id"))
      && (name.Some? ==> x.mobileName == Str(name.value))
  {}

  /** The written product file has every input where it was given, and every other value as it was. */
  lemma InputsShow(r: Rules, files: Files, v: Inputs, key: string)
    requires Init(r, files, v).Ok?
    ensures files.product.Obj? && Init(r, files, v).value.product.Obj?
    ensures var f, p, name := files.product.fields, Init(r, files, v).value.product.fields, NonBlank(v.displayName);
      && Lookup(p, "displayName") == Stored(Given(name, Lookup(f, "displayName")))
      && Lookup(p, "webTitle") == Stored(Given(name, Lookup(f, "webTitle")))
      && Lookup(p, "description") == Stored(Given(NonBlank(v.description), Lookup(f, "description")))
      && Lookup(p, "webOrigin") == Stored(Given(Origin(v.webOrigin), Lookup(f, "webOrigin")))
      && Lookup(p, "id") == (if v.id.Some? && v.id.value != "" then Str(r.lower(Trim(v.id.value))) else Lookup(f, "id"))
      && (key == "id" || key == "displayName" || key == "webTitle" || key == "description" || key == "webOrigin"
          || key == "mobile" || key == "workspace" || Lookup(p, key) == Stored(Lookup(f, key)))
  {
    var x, e := InitParts(r, files, v);
    var f := files.product.fields;
    IdentityShowsInputs(r, f, v, x);
    RewrittenTop(r, f, x);
    OtherKeys(r, f, x, key);
    StoredLookup(ProductOf(r, f, x), key);
  }

  lemma NestedRead(r: Rules, f: map<string, Json>, x: Identity)
    requires Valid(r, Lookup(f, "schemaVersion"), x)
    ensures var p := Rewritten(r, f, x);
            && Lookup(p, "mobile").Obj? && Lookup(p, "workspace").Obj?
            && var m, w := Lookup(p, "mobile").fields, Lookup(p, "workspace").fields;
               && m == Stored(Obj(MobileFields(r, f, x))).fields
               && Lookup(m, "displayName") == x.mobileName && Lookup(m, "slug") == x.id == Lookup(p, "id")
               && Lookup(m, "scheme") == Str(DefaultScheme(x.id.s)) && Lookup(m, "bundleIdentifier") == x.bundle
               && w == map["defaultAgentPack" := x.pack, "maxAgents" := x.maxAgents]
  {
    RewrittenTop(r, f, x);
    RewrittenNested(r, f, x);
    RewrittenMobile(r, f, x);
  }

  /** What the written product file says of the mobile application: the name and the bundle that were given, or
      else those it had, the id as slug, the scheme of the id, and all else as it was. */
  lemma MobileInputsShow(r: Rules, files: Files, v: Inputs, key: string)
    requires Init(r, files, v).Ok?
    ensures files.product.Obj? && Init(r, files, v).value.product.Obj?
    ensures var f, p := files.product.fields, Init(r, files, v).value.product.fields;
            && Lookup(p, "mobile").Obj? && Lookup(p, "id").Str?
            && var m := Lookup(p, "mobile").fields;
               && Lookup(m, "slug") == Lookup(p, "id")
               && Lookup(m, "scheme") == Str(DefaultScheme(Lookup(p, "id").s))
               && ValueShows(NonBlank(v.displayName), Lookup(f, "mobile"), "displayName", m)
               && ValueShows(NonBlank(v.mobileBundle), Lookup(f, "mobile"), "bundleIdentifier", m)
               && (key == "displayName" || key == "slug" || key == "scheme" || key == "bundleIdentifier"
                   || Lookup(m, key) == Stored(Lookup(Spread(r, Lookup(f, "mobile")), key)))
  {
    var x, e := InitParts(r, files, v);
    NestedRead(r, files.product.fields, x);
    NestedValues(r, files.product.fields, v, x);
    MobileKeeps(r, files.product.fields, x, key);
  }

  /** A key of a written object: the text given for it, or else what the object had. */
  predicate ValueShows(given: Option<string>, before: Json, key: string, after: map<string, Json>) {
    if given.Some? then Lookup(after, key) == Str(given.value) else Get(before, key) == Ok(Lookup(after, key))
  }

  /** What it says of the workspace, which holds nothing else. */
  lemma WorkspaceInputsShow(r: Rules, files: Files, v: Inputs)
    requires Init(r, files, v).Ok?
    ensures files.product.Obj? && Init(r, files, v).value.product.Obj?
    ensures var f, p := files.product.fields, Init(r, files, v).value.product.fields;
            && Lookup(p, "workspace").Obj?
            && var w := Lookup(p, "workspace").fields;
               && w.Keys == {"defaultAgentPack", "maxAgents"}
               && ValueShows(NonBlank(v.defaultAgentPack), Lookup(f, "workspace"), "defaultAgentPack", w)
               && AgentsShow(r, v.maxAgents, Lookup(f, "workspace"), w["maxAgents"])
  {
    var x, e := InitParts(r, files, v);
    NestedRead(r, files.product.fields, x);
    WorkspaceValues(r, files.product.fields, v, x);
  }

  /** The limit of agents: the number given, or else the one before. */
  predicate AgentsShow(r: Rules, given: Option<string>, before: Json, after: Json) {
    if given.Some? && given.value != "" then
      r.number(given.value).Some? && after == Num(r.number(given.value).value)
    else Get(before, "maxAgents") == Ok(after)
  }

  lemma WorkspaceValues(r: Rules, f: map<string, Json>, v: Inputs, x: Identity)
    requires IdentityOf(r, f, v) == Ok(x)
    ensures var w := map["defaultAgentPack" := x.pack, "maxAgents" := x.maxAgents];
            && w.Keys == {"defaultAgentPack", "maxAgents"} && w["maxAgents"] == x.maxAgents
            && ValueShows(NonBlank(v.defaultAgentPack), Lookup(f, "workspace"), "defaultAgentPack", w)
            && AgentsShow(r, v.maxAgents, Lookup(f, "workspace"), x.maxAgents)
  {
    NestedValues(r, f, v, x);
  }

  lemma NestedValues(r: Rules, f: map<string, Json>, v: Inputs, x: Identity)
    requires IdentityOf(r, f, v) == Ok(x)
    ensures var name, bundle, pack := NonBlank(v.displayName), NonBlank(v.mobileBundle), NonBlank(v.defaultAgentPack);
            && (name.Some? ==> x.mobileName == Str(name.value))
            && (name.None? ==> Get(Lookup(f, "mobile"), "displayName") == Ok(x.mobileName))
            && (bundle.Some? ==> x.bundle == Str(bundle.value))
            && (bundle.None? ==> Get(Lookup(f, "mobile"), "bundleIdentifier") == Ok(x.bundle))
            && (pack.Some? ==> x.pack == Str(pack.value))
            && (pack.None? ==> Get(Lookup(f, "workspace"), "defaultAgentPack") == Ok(x.pack))
            && (v.maxAgents.Some? && v.maxAgents.value != "" ==>
                r.number(v.maxAgents.value).Some? && x.maxAgents == Num(r.number(v.maxAgents.value).value))
            && (v.maxAgents.None? || v.maxAgents.value == "" ==>
                Get(Lookup(f, "workspace"), "maxAgents") == Ok(x.maxAgents))
  {}

  lemma MobileKeeps(r: Rules, f: map<string, Json>, x: Identity, key: string)
    requires x.id.Str?
    ensures key == "displayName" || key == "slug" || key == "scheme" || key == "bundleIdentifier"
            || Lookup(Stored(Obj(MobileFields(r, f, x))).fields, key)
               == Stored(Lookup(Spread(r, Lookup(f, "mobile")), key))
  {
    StoredLookup(MobileFields(r, f, x), key);
  }

  /** The written package file keeps every value but its name and description. */
  lemma PackageKeeps(r: Rules, files: Files, v: Inputs, key: string)
    requires Init(r, files, v).Ok?
    ensures Init(r, files, v).value.package.Obj?
    ensures key == "name" || key == "description"
            || Lookup(Init(r, files, v).value.package.fields, key) == Stored(Lookup(Spread(r, files.package), key))
  {
    var x, e := InitParts(r, files, v);
    StoredLookup(PackageOf(r, files.package, x), key);
  }

  /** What counts as given: a text that is not blank, trimmed; an origin without one slash at its end. */
  lemma InputTexts(value: string)
    requires Trimmed(value) && value != ""
    ensures NonBlank(None) == NonBlank(Some("")) == None && NonBlank(Some(value)) == Some(value)
    ensures Origin(None) == Origin(Some("")) == None && Origin(Some(value + "/")) == Some(value)
    ensures value[|value| - 1] != '/' ==> Origin(Some(value)) == Some(value)
  {
    TrimOfTrimmed(value);
    TrimOfTrimmed("");
    assert (value + "/")[|value|] == '/' && (value + "/")[..|value|] == value && (value + "/")[0] == value[0];
    TrimOfTrimmed(value + "/");
  }

  // ----- Which identities are valid -----

  /** One character, or a first and a last one with up to 61 characters or hyphens between. */
  lemma SlugIff(id: string)
    ensures Slug(id) <==>
            || (|id| == 1 && Small(id[0]))
            || (2 <= |id| <= 63 && Small(id[0]) && Small(id[|id| - 1])
                && forall i | 0 < i < |id| - 1 :: Small(id[i]) || id[i] == '-')
  {}

  lemma {:induction false} SchemeAppend(a: string, b: string)
    ensures DefaultScheme(a + b) == DefaultScheme(a) + DefaultScheme(b)
  {
    if a == "" {
      assert a + b == b;
    } else {
      SchemeAppend(a[1..], b);
      assert (a + b)[0] == a[0] && (a + b)[1..] == a[1..] + b;
      SameStart(if Small(a[0]) then [a[0]] else "", DefaultScheme(a[1..]), DefaultScheme(b));
    }
  }

  lemma SameStart(first: string, rest: string, more: string)
    ensures first + (rest + more) == first + rest + more
  {}

  /** What a scheme is made of: the small letters and digits, in order. */
  lemma SchemeOfOne(c: char)
    ensures DefaultScheme([c]) == if 'a' <= c <= 'z' || '0' <= c <= '9' then [c] else ""
  {
    assert [c][1..] == "";
  }

  lemma {:induction false} SchemeIsSmall(id: string)
    ensures forall i | 0 <= i < |DefaultScheme(id)| :: Small(DefaultScheme(id)[i])
  {
    if id == "" {
    } else {
      SchemeIsSmall(id[1..]);
    }
  }

  /** The scheme derived from a slug is valid exactly when the slug begins with a letter. */
  lemma SchemeOfSlug(id: string)
    requires Slug(id)
    ensures Scheme(DefaultScheme(id)) <==> 'a' <= id[0] <= 'z'
  {
    SchemeAppend(id[..1], id[1..]);
    SchemeOfOne(id[0]);
    SchemeIsSmall(id);
    assert id[..1] + id[1..] == id && id[..1] == [id[0]];
  }

  predicate Digit(c: char) {
    '0' <= c <= '9'
  }

  /** A bundle identifier is three or more parts with dots between: the first a letter and then letters and digits,
      the others letters, digits and hyphens. */
  lemma BundleIff(parts: seq<string>)
    requires parts != [] && forall p | p in parts :: '.' !in p
    ensures forall c :: Letter(c) <==> 'A' <= c <= 'Z' || 'a' <= c <= 'z'
    ensures Bundle(Join(parts, '.')) <==> BundleParts(parts)
    ensures BundleParts(parts) <==>
            && |parts| >= 3 && parts[0] != "" && Letter(parts[0][0])
            && (forall i | 0 <= i < |parts[0]| :: Letter(parts[0][i]) || Digit(parts[0][i]))
            && forall k | 0 < k < |parts| ::
                 parts[k] != "" && forall i | 0 <= i < |parts[k]| ::
                   Letter(parts[k][i]) || Digit(parts[k][i]) || parts[k][i] == '-'
  {
    SplitOfJoin(parts, '.');
  }

  /** A product file is accepted as it is exactly when its fields are these. */
  lemma AcceptedAsItIs(r: Rules, f: map<string, Json>, m: map<string, Json>, w: map<string, Json>)
    requires Lookup(f, "mobile") == Obj(m) && Lookup(f, "workspace") == Obj(w)
    ensures IdentityOf(r, f, NO_INPUTS).Ok? <==>
            && Lookup(f, "schemaVersion") == Num(1.0)
            && Lookup(f, "id").Str? && Slug(Lookup(f, "id").s) && 'a' <= Lookup(f, "id").s[0] <= 'z'
            && Lookup(f, "displayName").Str? && Trim(Lookup(f, "displayName").s) != ""
            && Lookup(m, "displayName").Str? && Trim(Lookup(m, "displayName").s) != ""
            && Lookup(f, "webOrigin").Str? && r.host(Lookup(f, "webOrigin").s).Some?
            && Lookup(m, "bundleIdentifier").Str? && Bundle(Lookup(m, "bundleIdentifier").s)
            && Lookup(w, "defaultAgentPack").Str? && PackId(Lookup(w, "defaultAgentPack").s)
            && Lookup(w, "maxAgents").Num?
            && var n := Lookup(w, "maxAgents").n; n == n.Floor as real && 1 <= n.Floor <= 100
  {
    var id := Lookup(f, "id");
    if id.Str? && Slug(id.s) { SchemeOfSlug(id.s); }
  }

  /** A pack id is a small letter and then up to 63 small letters, digits and hyphens. */
  lemma PackIdIff(first: char, rest: string)
    ensures !PackId("")
    ensures PackId([first] + rest) <==>
            && 'a' <= first <= 'z' && |rest| <= 63
            && forall i | 0 <= i < |rest| :: 'a' <= rest[i] <= 'z' || '0' <= rest[i] <= '9' || rest[i] == '-'
  {
    var s := [first] + rest;
    assert forall i | 0 <= i < |rest| :: s[i + 1] == rest[i];
    assert s[0] == first;
  }

  // ----- Interrupted writes, one by one -----

  /** The files are written one at a time: product, then mobile if there is one, then package. */
  lemma WritesInTurn(product: Json, mobile: Json, package: Json, p: Json, m: Json, k: Json)
    ensures var three := n => Partially(Files(product, Some(mobile), package), Files(p, Some(m), k), n);
            && three(0) == Files(product, Some(mobile), package) && three(1) == Files(p, Some(mobile), package)
            && three(2) == Files(p, Some(m), package) && three(3) == Files(p, Some(m), k)
    ensures var two := n => Partially(Files(product, None, package), Files(p, None, k), n);
            && two(0) == Files(product, None, package) && two(1) == Files(p, None, package)
            && two(2) == Files(p, None, k)
  {}
}
