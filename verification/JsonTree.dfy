/** JSON values as the program handles them: writing and reading back, and the differences of two trees. */
module JsonTree {
  import opened Text

  /** A value of the program; `Undefined` and negative zero do not survive being written as JSON. */
  datatype Json =
    | Undefined
    | Null
    | Bool(b: bool)
    | Num(n: real)
    | NegativeZero
    | Str(s: string)
    | Arr(items: seq<Json>)
    | Obj(fields: map<string, Json>)

  datatype Outcome<+T> = Ok(value: T) | Threw

  /** What `JSON.parse` gives back of what `JSON.stringify` wrote. */
  function Stored(json: Json): Json {
    match json
    case NegativeZero => Num(0.0)
    case Arr(items) =>
      Arr(seq(|items|, i requires 0 <= i < |items| => if items[i].Undefined? then Null else Stored(items[i])))
    case Obj(fields) => Obj(map k | k in fields && !fields[k].Undefined? :: Stored(fields[k]))
    case _ => json
  }

  /** What the code takes from outside: lower case, numerals, URLs, and the names of array positions.
      `host` gives the host of an origin that passes every check on it. */
  datatype Rules = Rules(lower: string -> string, number: string -> Option<real>, host: string -> Option<string>,
                         index: nat -> string)

  predicate Nullish(json: Json) {
    json.Undefined? || json.Null?
  }

  function Lookup(fields: map<string, Json>, key: string): Json {
    if key in fields then fields[key] else Undefined
  }

  /** `json.key` for the names the code uses. */
  function Get(json: Json, key: string): Outcome<Json> {
    if Nullish(json) then Threw
    else if json.Obj? then Ok(Lookup(json.fields, key))
    else Ok(Undefined)
  }

  function Positions(r: Rules, items: seq<Json>): map<string, Json> {
    if items == [] then map[] else Positions(r, items[..|items| - 1])[r.index(|items| - 1) := items[|items| - 1]]
  }

  /** `{...json}` */
  function Spread(r: Rules, json: Json): map<string, Json> {
    match json
    case Obj(fields) => fields
    case Arr(items) => Positions(r, items)
    case Str(s) => Positions(r, seq(|s|, i requires 0 <= i < |s| => Str([s[i]])))
    case _ => map[]
  }

  // ----- Drift -----

  datatype Step = Key(name: string) | At(position: nat)

  type Path = seq<Step>

  /** The properties of an object or an array. */
  function Properties(r: Rules, json: Json): map<string, Json> {
    if json.Arr? then Positions(r, json.items)["length" := Num(|json.items| as real)] else Spread(r, json)
  }

  function Item(items: seq<Json>, i: nat): Json {
    if i < |items| then items[i] else Undefined
  }

  function Differences(r: Rules, actual: Json, expected: Json, prefix: Path): set<Path>
    decreases expected
  {
    match expected
    case Arr(items) =>
      if !actual.Arr? then {prefix}
      else set i, p | 0 <= i < |items| && p in Differences(r, Item(actual.items, i), items[i], prefix + [At(i)]) :: p
    case Obj(fields) =>
      if !actual.Arr? && !actual.Obj? then {prefix}
      else
        set k, p | k in fields && p in Differences(r, Lookup(Properties(r, actual), k), fields[k], prefix + [Key(k)])
          :: p
    case _ => if actual == expected then {} else {prefix}
  }

  /** The actual tree has everything the expected one has; it may have more. */
  ghost predicate Covers(r: Rules, actual: Json, expected: Json)
    decreases expected
  {
    match expected
    case Arr(items) => actual.Arr? && forall i | 0 <= i < |items| :: Covers(r, Item(actual.items, i), items[i])
    case Obj(fields) => (actual.Arr? || actual.Obj?) && forall k | k in fields ::
      Covers(r, Lookup(Properties(r, actual), k), fields[k])
    case _ => actual == expected
  }

  // ----- No difference means covered -----

  /** `differences` is empty exactly when the actual tree covers the expected one. */
  lemma {:induction false} NoDifferenceIffCovers(r: Rules, actual: Json, expected: Json, prefix: Path)
    ensures Differences(r, actual, expected, prefix) == {} <==> Covers(r, actual, expected)
    decreases expected
  {
    match expected
    case Arr(items) =>
      if actual.Arr? {
        var all := Differences(r, actual, expected, prefix);
        forall i | 0 <= i < |items|
          ensures Differences(r, Item(actual.items, i), items[i], prefix + [At(i)]) <= all
          ensures Differences(r, Item(actual.items, i), items[i], prefix + [At(i)]) == {}
                  <==> Covers(r, Item(actual.items, i), items[i])
        {
          NoDifferenceIffCovers(r, Item(actual.items, i), items[i], prefix + [At(i)]);
        }
      }
    case Obj(fields) =>
      if actual.Arr? || actual.Obj? {
        var all := Differences(r, actual, expected, prefix);
        forall k | k in fields
          ensures Differences(r, Lookup(Properties(r, actual), k), fields[k], prefix + [Key(k)]) <= all
          ensures Differences(r, Lookup(Properties(r, actual), k), fields[k], prefix + [Key(k)]) == {} <==>
                  Covers(r, Lookup(Properties(r, actual), k), fields[k])
        {
          NoDifferenceIffCovers(r, Lookup(Properties(r, actual), k), fields[k], prefix + [Key(k)]);
        }
      }
    case _ =>
  }

  lemma {:induction false} CoversItself(r: Rules, json: Json)
    ensures Covers(r, json, json)
    decreases json
  {
    match json
    case Arr(items) =>
      forall i | 0 <= i < |items| ensures Covers(r, Item(items, i), items[i]) { CoversItself(r, items[i]); }
    case Obj(fields) =>
      forall k | k in fields ensures Covers(r, Lookup(fields, k), fields[k]) { CoversItself(r, fields[k]); }
    case _ =>
  }

  /** An array with items beyond the expected ones is no drift. */
  lemma LongerArraysPass(r: Rules, items: seq<Json>, more: seq<Json>)
    ensures Differences(r, Arr(items + more), Arr(items), []) == {}
  {
    forall i | 0 <= i < |items|
      ensures Covers(r, Item(items + more, i), items[i])
    {
      CoversItself(r, items[i]);
    }
    assert Covers(r, Arr(items + more), Arr(items));
    NoDifferenceIffCovers(r, Arr(items + more), Arr(items), []);
  }

  lemma FieldsCover(r: Rules, actual: map<string, Json>, expected: map<string, Json>)
    requires forall k | k in expected :: Lookup(actual, k) == expected[k]
    ensures Covers(r, Obj(actual), Obj(expected))
  {
    forall k | k in expected ensures Covers(r, Lookup(actual, k), expected[k]) { CoversItself(r, expected[k]); }
  }

  lemma LookupsCover(r: Rules, actual: map<string, Json>, expected: map<string, Json>)
    requires forall k | k in expected :: Lookup(expected, k) == Lookup(actual, k)
    ensures Differences(r, Obj(actual), Obj(expected), []) == {}
  {
    FieldsCover(r, actual, expected);
    NoDifferenceIffCovers(r, Obj(actual), Obj(expected), []);
  }

  // ----- Writing and reading back -----

  lemma StoredLookup(fields: map<string, Json>, key: string)
    ensures Lookup(Stored(Obj(fields)).fields, key) == Stored(Lookup(fields, key))
  {}

  lemma {:induction false} StoredTwice(json: Json)
    ensures Stored(Stored(json)) == Stored(json)
    ensures !json.Undefined? ==> !Stored(json).Undefined?
    decreases json
  {
    match json
    case Arr(items) =>
      forall i | 0 <= i < |items|
        ensures Stored(Stored(items[i])) == Stored(items[i]) && (!items[i].Undefined? ==> !Stored(items[i]).Undefined?)
      {
        StoredTwice(items[i]);
      }
    case Obj(fields) =>
      forall k | k in fields
        ensures Stored(Stored(fields[k])) == Stored(fields[k])
                && (!fields[k].Undefined? ==> !Stored(fields[k]).Undefined?)
      {
        StoredTwice(fields[k]);
      }
    case _ =>
  }

  lemma StoredSame(p: map<string, Json>, g: map<string, Json>)
    requires Stored(Obj(g)) == Obj(g) && forall k :: Lookup(p, k) == Lookup(g, k)
    ensures Stored(Obj(p)) == Obj(g)
  {
    var s := Stored(Obj(p)).fields;
    forall k
      ensures k in s <==> k in g
      ensures k in s ==> s[k] == g[k]
    {
      StoredLookup(p, k);
      StoredLookup(g, k);
      assert k in g ==> k in Stored(Obj(g)).fields;
      assert Lookup(p, k) == Lookup(g, k);
    }
    assert s == g;
  }

  lemma PutSame(m: map<string, Json>, key: string, value: Json)
    requires Lookup(m, key) == value && !value.Undefined?
    ensures m[key := value] == m
  {}

  // ----- What spreading and reading find -----

  lemma {:induction false} PositionsMean(r: Rules, items: seq<Json>, i: nat)
    requires i < |items| && forall j, k | 0 <= j < k < |items| :: r.index(j) != r.index(k)
    ensures Lookup(Positions(r, items), r.index(i)) == items[i]
    ensures forall key | key in Positions(r, items) :: exists j | 0 <= j < |items| :: r.index(j) == key
    decreases |items|
  {
    var n := |items| - 1;
    if n > 0 { PositionsMean(r, items[..n], if i < n then i else 0); }
  }

  ghost predicate Distinct(r: Rules, n: nat) {
    forall j, k | 0 <= j < k < n :: r.index(j) != r.index(k)
  }

  /** An array spreads into its items by position, and also has its length. */
  lemma SpreadOfArray(r: Rules, items: seq<Json>, i: nat)
    requires Distinct(r, |items|) && i < |items|
    ensures Lookup(Spread(r, Arr(items)), r.index(i)) == items[i]
    ensures Lookup(Properties(r, Arr(items)), "length") == Num(|items| as real)
  {
    PositionsMean(r, items, i);
  }

  /** A text spreads into its characters. */
  lemma SpreadOfText(r: Rules, s: string, i: nat)
    requires Distinct(r, |s|) && i < |s|
    ensures Lookup(Spread(r, Str(s)), r.index(i)) == Str([s[i]])
  {
    PositionsMean(r, seq(|s|, k requires 0 <= k < |s| => Str([s[k]])), i);
  }

  /** An object spreads into its fields, and nothing into nothing. */
  lemma SpreadOfRest(r: Rules, fields: map<string, Json>)
    ensures Spread(r, Obj(fields)) == fields == Properties(r, Obj(fields))
    ensures Spread(r, Null) == Spread(r, Undefined) == map[]
  {}
}
