/** The mobile file of a fork: what its identity makes of it, and why doing so twice changes nothing. */
module MobileConfig {
  import opened Text
  import opened JsonTree

  // ----- Configuring -----

  datatype MobileIdentity = MobileIdentity(name: Json, slug: Json, scheme: Json, bundle: Json, host: string)

  function WithHost(r: Rules, data: Json, host: string): Json {
    Obj(Spread(r, data)["host" := Str(host)])
  }

  function HostedData(r: Rules, items: seq<Json>, host: string): seq<Json> {
    seq(|items|, i requires 0 <= i < |items| => WithHost(r, items[i], host))
  }

  /** `value ?? []`, which must then have a `map`. */
  function ListOf(json: Json): Outcome<seq<Json>> {
    if Nullish(json) then Ok([]) else if json.Arr? then Ok(json.items) else Threw
  }

  function FilterOf(r: Rules, intent: Json, host: string): Outcome<Json> {
    var data := Get(intent, "data");
    if data.Threw? then Threw
    else
      var items := ListOf(data.value);
      if items.Threw? then Threw else Ok(Obj(Spread(r, intent)["data" := Arr(HostedData(r, items.value, host))]))
  }

  function FiltersOf(r: Rules, intents: seq<Json>, host: string): Outcome<seq<Json>> {
    if intents == [] then Ok([])
    else
      var front := FiltersOf(r, intents[..|intents| - 1], host);
      var last := FilterOf(r, intents[|intents| - 1], host);
      if front.Threw? || last.Threw? then Threw else Ok(front.value + [last.value])
  }

  function IosOf(r: Rules, ios: Json, m: MobileIdentity): Json {
    Obj(Spread(r, ios)["bundleIdentifier" := m.bundle]["associatedDomains" := Arr([Str("applinks:" + m.host)])])
  }

  function AndroidOf(r: Rules, android: Json, m: MobileIdentity): Outcome<Json> {
    var intents := if Nullish(android) then Ok([]) else ListOf(Get(android, "intentFilters").value);
    if intents.Threw? then Threw
    else
      var filters := FiltersOf(r, intents.value, m.host);
      if filters.Threw? then Threw
      else Ok(Obj(Spread(r, android)["package" := m.bundle]["intentFilters" := Arr(filters.value)]))
  }

  /** `expectedMobileConfig` */
  function ExpectedMobile(r: Rules, m: MobileIdentity, current: Json): Outcome<Json> {
    var found := Get(current, "expo");
    if found.Threw? then Threw
    else
      var expo := if Nullish(found.value) then Obj(map[]) else found.value;
      var android := AndroidOf(r, Get(expo, "android").value, m);
      if android.Threw? then Threw
      else
        var fields := Spread(r, expo)["name" := m.name]["slug" := m.slug]["scheme" := m.scheme]
          ["ios" := IosOf(r, Get(expo, "ios").value, m)]["android" := android.value];
        Ok(Obj(Spread(r, current)["expo" := Obj(fields)]))
  }

  // ----- A fixpoint -----

  predicate HostedItem(data: Json, host: string) {
    data.Obj? && Lookup(data.fields, "host") == Str(host)
  }

  predicate HostedFilter(intent: Json, host: string) {
    && intent.Obj? && Lookup(intent.fields, "data").Arr?
    && var items := Lookup(intent.fields, "data").items;
       forall i | 0 <= i < |items| :: HostedItem(items[i], host)
  }

  predicate HostedIos(ios: Json, m: MobileIdentity) {
    && ios.Obj? && Lookup(ios.fields, "bundleIdentifier") == m.bundle
    && Lookup(ios.fields, "associatedDomains") == Arr([Str("applinks:" + m.host)])
  }

  predicate HostedAndroid(android: Json, m: MobileIdentity) {
    && android.Obj? && Lookup(android.fields, "package") == m.bundle && Lookup(android.fields, "intentFilters").Arr?
    && var filters := Lookup(android.fields, "intentFilters").items;
       forall i | 0 <= i < |filters| :: HostedFilter(filters[i], m.host)
  }

  predicate HostedExpo(expo: Json, m: MobileIdentity) {
    && expo.Obj? && Lookup(expo.fields, "name") == m.name && Lookup(expo.fields, "slug") == m.slug
    && Lookup(expo.fields, "scheme") == m.scheme
    && HostedIos(Lookup(expo.fields, "ios"), m) && HostedAndroid(Lookup(expo.fields, "android"), m)
  }

  /** The identity shows everywhere it should in a mobile file. */
  predicate Hosted(json: Json, m: MobileIdentity) {
    json.Obj? && HostedExpo(Lookup(json.fields, "expo"), m)
  }

  predicate Texts(m: MobileIdentity) {
    m.name.Str? && m.slug.Str? && m.scheme.Str? && m.bundle.Str?
  }

  lemma {:induction false} FiltersHosted(r: Rules, intents: seq<Json>, host: string)
    requires FiltersOf(r, intents, host).Ok?
    ensures var filters := FiltersOf(r, intents, host).value;
            forall i | 0 <= i < |filters| :: HostedFilter(filters[i], host)
  {
    if intents == [] {
    } else {
      FiltersHosted(r, intents[..|intents| - 1], host);
    }
  }

  lemma AndroidHosted(r: Rules, android: Json, m: MobileIdentity)
    requires AndroidOf(r, android, m).Ok?
    ensures HostedAndroid(AndroidOf(r, android, m).value, m)
  {
    var intents := if Nullish(android) then Ok([]) else ListOf(Get(android, "intentFilters").value);
    FiltersHosted(r, intents.value, m.host);
  }

  lemma ExpectedIsHosted(r: Rules, m: MobileIdentity, current: Json)
    requires ExpectedMobile(r, m, current).Ok?
    ensures Hosted(ExpectedMobile(r, m, current).value, m)
  {
    var found := Get(current, "expo");
    var expo := if Nullish(found.value) then Obj(map[]) else found.value;
    AndroidHosted(r, Get(expo, "android").value, m);
  }

  lemma StoredItem(data: Json, host: string)
    requires HostedItem(data, host)
    ensures HostedItem(Stored(data), host)
  {
    StoredLookup(data.fields, "host");
  }

  lemma StoredFilter(intent: Json, host: string)
    requires HostedFilter(intent, host)
    ensures HostedFilter(Stored(intent), host)
  {
    StoredLookup(intent.fields, "data");
    var items := Lookup(intent.fields, "data").items;
    forall i | 0 <= i < |items| ensures HostedItem(Stored(items[i]), host) { StoredItem(items[i], host); }
  }

  lemma StoredAndroid(android: Json, m: MobileIdentity)
    requires HostedAndroid(android, m) && Texts(m)
    ensures HostedAndroid(Stored(android), m)
  {
    StoredLookup(android.fields, "package");
    StoredLookup(android.fields, "intentFilters");
    var filters := Lookup(android.fields, "intentFilters").items;
    forall i | 0 <= i < |filters| ensures HostedFilter(Stored(filters[i]), m.host) { StoredFilter(filters[i], m.host); }
  }

  lemma StoredIos(ios: Json, m: MobileIdentity)
    requires HostedIos(ios, m) && Texts(m)
    ensures HostedIos(Stored(ios), m)
  {
    StoredLookup(ios.fields, "bundleIdentifier");
    StoredLookup(ios.fields, "associatedDomains");
    assert Stored(Arr([Str("applinks:" + m.host)])) == Arr([Str("applinks:" + m.host)]);
  }

  lemma StoredHosted(json: Json, m: MobileIdentity)
    requires Hosted(json, m) && Texts(m)
    ensures Hosted(Stored(json), m)
  {
    StoredLookup(json.fields, "expo");
    var expo := Lookup(json.fields, "expo").fields;
    StoredLookup(expo, "name"); StoredLookup(expo, "slug"); StoredLookup(expo, "scheme");
    StoredLookup(expo, "ios"); StoredLookup(expo, "android");
    StoredIos(Lookup(expo, "ios"), m);
    StoredAndroid(Lookup(expo, "android"), m);
  }

  lemma FilterFixed(r: Rules, intent: Json, host: string)
    requires HostedFilter(intent, host)
    ensures FilterOf(r, intent, host) == Ok(intent)
  {
    var items := Lookup(intent.fields, "data").items;
    forall i | 0 <= i < |items|
      ensures WithHost(r, items[i], host) == items[i]
    {
      PutSame(items[i].fields, "host", Str(host));
    }
    assert HostedData(r, items, host) == items;
    PutSame(intent.fields, "data", Arr(items));
  }

  lemma {:induction false} FiltersFixed(r: Rules, intents: seq<Json>, host: string)
    requires forall i | 0 <= i < |intents| :: HostedFilter(intents[i], host)
    ensures FiltersOf(r, intents, host) == Ok(intents)
  {
    if intents == [] {
    } else {
      FiltersFixed(r, intents[..|intents| - 1], host);
      FilterFixed(r, intents[|intents| - 1], host);
      assert intents[..|intents| - 1] + [intents[|intents| - 1]] == intents;
    }
  }

  lemma AndroidFixed(r: Rules, android: Json, m: MobileIdentity)
    requires HostedAndroid(android, m) && Texts(m)
    ensures AndroidOf(r, android, m) == Ok(android)
  {
    var filters := Lookup(android.fields, "intentFilters").items;
    FiltersFixed(r, filters, m.host);
    PutSame(android.fields, "package", m.bundle);
    PutSame(android.fields, "intentFilters", Arr(filters));
  }

  lemma IosFixed(r: Rules, ios: Json, m: MobileIdentity)
    requires HostedIos(ios, m) && Texts(m)
    ensures IosOf(r, ios, m) == ios
  {
    PutSame(ios.fields, "bundleIdentifier", m.bundle);
    PutSame(ios.fields, "associatedDomains", Arr([Str("applinks:" + m.host)]));
  }

  lemma ExpoFixed(r: Rules, expo: Json, m: MobileIdentity)
    requires HostedExpo(expo, m) && Texts(m)
    ensures expo.fields["name" := m.name]["slug" := m.slug]["scheme" := m.scheme]
              ["ios" := IosOf(r, Lookup(expo.fields, "ios"), m)]
              ["android" := Lookup(expo.fields, "android")] == expo.fields
  {
    IosFixed(r, Lookup(expo.fields, "ios"), m);
    PutSame(expo.fields, "name", m.name);
    PutSame(expo.fields, "slug", m.slug);
    PutSame(expo.fields, "scheme", m.scheme);
    PutSame(expo.fields, "ios", Lookup(expo.fields, "ios"));
    PutSame(expo.fields, "android", Lookup(expo.fields, "android"));
  }

  /** Configuring changes nothing exactly when the identity already shows everywhere. */
  lemma MobileFixedIff(r: Rules, m: MobileIdentity, json: Json)
    requires Texts(m)
    ensures ExpectedMobile(r, m, json) == Ok(json) <==> Hosted(json, m)
  {
    if ExpectedMobile(r, m, json) == Ok(json) { ExpectedIsHosted(r, m, json); }
    if Hosted(json, m) {
      var expo := Lookup(json.fields, "expo");
      AndroidFixed(r, Lookup(expo.fields, "android"), m);
      ExpoFixed(r, expo, m);
      PutSame(json.fields, "expo", expo);
    }
  }

  /** `expectedMobileConfig` is idempotent, also across a write and a read. */
  lemma MobileIdempotent(r: Rules, m: MobileIdentity, current: Json)
    requires Texts(m) && ExpectedMobile(r, m, current).Ok?
    ensures var once := ExpectedMobile(r, m, current).value;
            ExpectedMobile(r, m, once) == Ok(once) && ExpectedMobile(r, m, Stored(once)) == Ok(Stored(once))
  {
    var once := ExpectedMobile(r, m, current).value;
    ExpectedIsHosted(r, m, current);
    MobileFixedIff(r, m, once);
    StoredHosted(once, m);
    MobileFixedIff(r, m, Stored(once));
  }

  lemma MobileClean(r: Rules, m: MobileIdentity, current: Json)
    requires Texts(m) && ExpectedMobile(r, m, current).Ok?
    ensures var g := Stored(ExpectedMobile(r, m, current).value);
            ExpectedMobile(r, m, g) == Ok(g) && Differences(r, g, g, []) == {}
  {
    MobileIdempotent(r, m, current);
    var g := Stored(ExpectedMobile(r, m, current).value);
    CoversItself(r, g);
    NoDifferenceIffCovers(r, g, g, []);
  }

  lemma MissingMobile(r: Rules, m: MobileIdentity)
    ensures ExpectedMobile(r, m, Obj(map[])).Ok?
  {}

  // ----- What is kept -----

  /** The `expo` value of a file, empty if there is none, and a part of it. */
  function ExpoOf(current: Json): Json {
    var found := Get(current, "expo");
    if found.Threw? || Nullish(found.value) then Obj(map[]) else found.value
  }

  function PartOf(expo: Json, key: string): Json {
    if Get(expo, key).Ok? then Get(expo, key).value else Undefined
  }

  /** Configuring keeps every key that it does not set: of the file and of `expo`. */
  lemma MobileKeepsTop(r: Rules, m: MobileIdentity, current: Json, key: string)
    requires ExpectedMobile(r, m, current).Ok?
    ensures var e := ExpectedMobile(r, m, current).value;
            && e.Obj? && Lookup(e.fields, "expo").Obj?
            && (key != "expo" ==> Lookup(e.fields, key) == Lookup(Spread(r, current), key))
            && (key != "name" && key != "slug" && key != "scheme" && key != "ios" && key != "android" ==>
                Lookup(Lookup(e.fields, "expo").fields, key) == Lookup(Spread(r, ExpoOf(current)), key))
  {}

  /** And of `ios` and `android` in it, whose intent filters are configured one by one. */
  lemma MobileKeepsRest(r: Rules, m: MobileIdentity, current: Json, key: string)
    requires ExpectedMobile(r, m, current).Ok?
    ensures var e, was := ExpectedMobile(r, m, current).value, ExpoOf(current);
            && e.Obj? && Lookup(e.fields, "expo").Obj?
            && var expo := Lookup(e.fields, "expo").fields;
               && Lookup(expo, "ios") == IosOf(r, PartOf(was, "ios"), m)
               && AndroidOf(r, PartOf(was, "android"), m) == Ok(Lookup(expo, "android"))
    ensures key != "bundleIdentifier" && key != "associatedDomains" ==>
            Lookup(IosOf(r, PartOf(ExpoOf(current), "ios"), m).fields, key)
            == Lookup(Spread(r, PartOf(ExpoOf(current), "ios")), key)
    ensures AndroidKeeps(r, PartOf(ExpoOf(current), "android"), m, key)
  {
    AndroidKept(r, PartOf(ExpoOf(current), "android"), m, key);
  }

  predicate AndroidKeeps(r: Rules, was: Json, m: MobileIdentity, key: string) {
    AndroidOf(r, was, m).Ok? ==>
      && AndroidOf(r, was, m).value.Obj?
      && var android := AndroidOf(r, was, m).value.fields;
         && (key != "package" && key != "intentFilters" ==> Lookup(android, key) == Lookup(Spread(r, was), key))
         && Lookup(android, "intentFilters").Arr?
         && ListOf(PartOf(was, "intentFilters")).Ok?
         && FiltersOf(r, ListOf(PartOf(was, "intentFilters")).value, m.host)
            == Ok(Lookup(android, "intentFilters").items)
  }

  lemma AndroidKept(r: Rules, was: Json, m: MobileIdentity, key: string)
    ensures AndroidKeeps(r, was, m, key)
  {}

  /** Each intent filter is kept, and each of its data items, but for the host and the list itself. */
  lemma FilterKeeps(r: Rules, intent: Json, host: string, i: nat, key: string)
    requires FilterOf(r, intent, host).Ok? && Get(intent, "data").Ok? && ListOf(Get(intent, "data").value).Ok?
    ensures var f, items := FilterOf(r, intent, host).value, ListOf(Get(intent, "data").value).value;
            && f.Obj? && Lookup(f.fields, "data").Arr? && |Lookup(f.fields, "data").items| == |items|
            && (key != "data" ==> Lookup(f.fields, key) == Lookup(Spread(r, intent), key))
            && (i < |items| && key != "host" ==>
                Lookup(f.fields, "data").items[i].Obj?
                && Lookup(Lookup(f.fields, "data").items[i].fields, key) == Lookup(Spread(r, items[i]), key))
  {}

  /** And the filters stay as many, in order. */
  lemma {:induction false} FiltersKeep(r: Rules, intents: seq<Json>, host: string)
    requires FiltersOf(r, intents, host).Ok?
    ensures |FiltersOf(r, intents, host).value| == |intents|
    ensures forall i | 0 <= i < |intents| :: FilterOf(r, intents[i], host) == Ok(FiltersOf(r, intents, host).value[i])
  {
    if intents == [] {
    } else {
      FiltersKeep(r, intents[..|intents| - 1], host);
      assert forall i | 0 <= i < |intents| - 1 :: intents[..|intents| - 1][i] == intents[i];
    }
  }
}
