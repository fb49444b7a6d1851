/** The byte budget that all recipes of one tool call share. */
module RecipeBudget {
  import opened Text

  datatype Recipe = Process | Browser | Repository | Document | ArtifactUpload

  datatype Usage = Usage(recipe: Recipe, durationMs: nat, bytes: nat)

  /** A staged artifact; its data is represented by its JSON text. */
  datatype Artifact = Artifact(kind: string, title: string, mimeType: string, json: seq<bv8>)

  /** A call, with the outcome of the work done before it is charged. */
  datatype Call =
    | Finished(recipe: Recipe, durationMs: nat, bytes: nat)
    | Threw(recipe: Recipe)
    | Upload(kind: string, title: string, mimeType: string, json: Option<seq<bv8>>)

  datatype Reply = Charged(usage: Usage) | Staged(kind: string, title: string, size: nat) | BudgetExceeded | Failed

  predicate Returned(reply: Reply) {
    reply.Charged? || reply.Staged?
  }

  const DEFAULT_BUDGET := 8 * 1024 * 1024

  function Consumed(usage: seq<Usage>): nat {
    if usage == [] then 0 else Consumed(usage[..|usage| - 1]) + usage[|usage| - 1].bytes
  }

  // ----- The object -----

  class Recipes {
    const maxTotalBytes: int
    var usage: seq<Usage>
    var artifacts: seq<Artifact>

    constructor (budget: Option<int>, given: seq<Artifact>)
      ensures usage == [] && artifacts == given
      ensures maxTotalBytes == match budget case Some(max) => max case None => 8388608
    {
      maxTotalBytes := match budget case Some(max) => max case None => DEFAULT_BUDGET;
      usage, artifacts := [], given;
    }

    function Snapshot(): State reads this {
      State(usage, artifacts)
    }

    method Total() returns (total: nat)
      ensures total == Consumed(usage)
    {
      total := 0;
      for i := 0 to |usage|
        invariant total == Consumed(usage[..i])
      {
        assert usage[..i + 1][..i] == usage[..i];
        total := total + usage[i].bytes;
      }
      assert usage[..|usage|] == usage;
    }

    /** The entry is recorded first and the sum taken after, so a refused charge stays on the books. */
    method Charge(recipe: Recipe, durationMs: nat, bytes: nat) returns (entry: Option<Usage>)
      modifies this`usage
      ensures usage == old(usage) + [Usage(recipe, durationMs, bytes)]
      ensures entry ==
              if Consumed(old(usage)) + bytes > maxTotalBytes then None else Some(Usage(recipe, durationMs, bytes))
    {
      usage := usage + [Usage(recipe, durationMs, bytes)];
      assert usage[..|usage| - 1] == old(usage);
      var total := Total();
      if total > maxTotalBytes { return None; }
      return Some(Usage(recipe, durationMs, bytes));
    }

    /** `process`, `browser`, `repository` and `document`: work first, then the charge. */
    method Run(recipe: Recipe, outcome: Option<(nat, nat)>) returns (reply: Reply)
      modifies this`usage
      ensures var call := if outcome.None? then Threw(recipe) else Finished(recipe, outcome.value.0, outcome.value.1);
              (Snapshot(), reply) == Step(maxTotalBytes, old(Snapshot()), call)
    {
      if outcome.None? { return Failed; }
      var entry := Charge(recipe, outcome.value.0, outcome.value.1);
      reply := if entry.None? then BudgetExceeded else Charged(entry.value);
    }

    /** `artifact.upload`; data without a JSON text fails before the charge. */
    method Stage(kind: string, title: string, mimeType: string, json: Option<seq<bv8>>) returns (reply: Reply)
      modifies this`usage, this`artifacts
      ensures (Snapshot(), reply) == Step(maxTotalBytes, old(Snapshot()), Upload(kind, title, mimeType, json))
    {
      if json.None? { return Failed; }
      var entry := Charge(ArtifactUpload, 0, |json.value|);
      if entry.None? { return BudgetExceeded; }
      artifacts := artifacts + [Artifact(kind, title, mimeType, json.value)];
      reply := Staged(kind, title, |json.value|);
    }
  }

  // ----- One call as a function of the state -----

  datatype State = State(usage: seq<Usage>, artifacts: seq<Artifact>)

  predicate Charges(call: Call) {
    call.Finished? || (call.Upload? && call.json.Some?)
  }

  function Entry(call: Call): Usage
    requires Charges(call)
  {
    if call.Finished? then Usage(call.recipe, call.durationMs, call.bytes)
      else Usage(ArtifactUpload, 0, |call.json.value|)
  }

  function Step(max: int, s: State, call: Call): (State, Reply) {
    if !Charges(call) then (s, Failed)
    else
      var entry := Entry(call);
      var charged := s.(usage := s.usage + [entry]);
      if Consumed(s.usage) + entry.bytes > max then (charged, BudgetExceeded)
      else if call.Finished? then (charged, Charged(entry))
      else (charged.(artifacts := s.artifacts + [Artifact(call.kind, call.title, call.mimeType, call.json.value)]),
            Staged(call.kind, call.title, entry.bytes))
  }

  // ----- Whole runs -----

  function After(max: int, s: State, calls: seq<Call>): State {
    if calls == [] then s
    else Step(max, After(max, s, calls[..|calls| - 1]), calls[|calls| - 1]).0
  }

  function ReplyAt(max: int, given: seq<Artifact>, calls: seq<Call>, i: nat): Reply
    requires i < |calls|
  {
    Step(max, After(max, State([], given), calls[..i]), calls[i]).1
  }

  /** The bytes of a list of calls, counted without looking at any state. */
  function Bytes(call: Call): nat {
    if Charges(call) then Entry(call).bytes else 0
  }

  function TotalBytes(calls: seq<Call>): nat {
    if calls == [] then 0 else TotalBytes(calls[..|calls| - 1]) + Bytes(calls[|calls| - 1])
  }

  /** The artifacts a run ought to stage: the uploads whose running total is within the budget. */
  function Affordable(max: int, calls: seq<Call>): seq<Artifact> {
    if calls == [] then []
    else
      var before, call := Affordable(max, calls[..|calls| - 1]), calls[|calls| - 1];
      if call.Upload? && call.json.Some? && TotalBytes(calls) <= max
      then before + [Artifact(call.kind, call.title, call.mimeType, call.json.value)] else before
  }

  function Ledger(calls: seq<Call>): seq<Usage> {
    if calls == [] then []
    else if Charges(calls[|calls| - 1]) then Ledger(calls[..|calls| - 1]) + [Entry(calls[|calls| - 1])]
    else Ledger(calls[..|calls| - 1])
  }

  function Size(artifacts: seq<Artifact>): nat {
    if artifacts == [] then 0 else Size(artifacts[..|artifacts| - 1]) + |artifacts[|artifacts| - 1].json|
  }

  lemma ConsumedSnoc(usage: seq<Usage>, entry: Usage)
    ensures Consumed(usage + [entry]) == Consumed(usage) + entry.bytes
  {
    assert (usage + [entry])[..|usage|] == usage;
  }

  lemma SizeSnoc(artifacts: seq<Artifact>, last: Artifact)
    ensures Size(artifacts + [last]) == Size(artifacts) + |last.json|
  {
    assert (artifacts + [last])[..|artifacts|] == artifacts;
  }

  /** Every charge stays on the books, refused or not, in call order; what is staged is what was affordable. */
  lemma {:induction false} BooksAreTheCalls(max: int, given: seq<Artifact>, calls: seq<Call>)
    ensures var s := After(max, State([], given), calls);
            s.usage == Ledger(calls) && Consumed(s.usage) == TotalBytes(calls)
              && s.artifacts == given + Affordable(max, calls)
  {
    if calls == [] {
    } else {
      var before, call := calls[..|calls| - 1], calls[|calls| - 1];
      BooksAreTheCalls(max, given, before);
      if Charges(call) { ConsumedSnoc(Ledger(before), Entry(call)); }
    }
  }

  /** A charge returns normally exactly when the running total that includes it is within the budget. */
  lemma ReturnsIffWithinBudget(max: int, given: seq<Artifact>, calls: seq<Call>, i: nat)
    requires i < |calls| && Charges(calls[i])
    ensures var reply := ReplyAt(max, given, calls, i);
            (Returned(reply) <==> TotalBytes(calls[..i + 1]) <= max)
              && (reply == BudgetExceeded <==> TotalBytes(calls[..i + 1]) > max)
  {
    BooksAreTheCalls(max, given, calls[..i]);
    assert calls[..i + 1][..i] == calls[..i];
  }

  lemma {:induction false} TotalGrows(calls: seq<Call>, i: nat)
    requires i <= |calls|
    ensures TotalBytes(calls[..i]) <= TotalBytes(calls)
  {
    if i == |calls| { assert calls[..i] == calls; }
    else {
      TotalGrows(calls[..|calls| - 1], i);
      assert calls[..|calls| - 1][..i] == calls[..i];
    }
  }

  /** Once a charge has been refused, every later one is. */
  lemma OverStaysOver(max: int, given: seq<Artifact>, calls: seq<Call>, i: nat, j: nat)
    requires i < j < |calls| && Charges(calls[i]) && Charges(calls[j])
    requires ReplyAt(max, given, calls, i) == BudgetExceeded
    ensures ReplyAt(max, given, calls, j) == BudgetExceeded
  {
    ReturnsIffWithinBudget(max, given, calls, i);
    ReturnsIffWithinBudget(max, given, calls, j);
    TotalGrows(calls[..j + 1], i + 1);
    assert calls[..j + 1][..i + 1] == calls[..i + 1];
  }

  lemma {:induction false} AffordableFits(max: int, calls: seq<Call>)
    ensures Size(Affordable(max, calls)) <= TotalBytes(calls)
    ensures Affordable(max, calls) != [] ==> Size(Affordable(max, calls)) <= max
  {
    if calls == [] {
    } else {
      var before, call := calls[..|calls| - 1], calls[|calls| - 1];
      AffordableFits(max, before);
      if call.Upload? && call.json.Some? {
        SizeSnoc(Affordable(max, before), Artifact(call.kind, call.title, call.mimeType, call.json.value));
      }
    }
  }

  /** The artifacts a run adds never weigh more than the budget; with a negative budget there are none. */
  lemma StagedWithinBudget(max: int, given: seq<Artifact>, calls: seq<Call>)
    ensures var all := After(max, State([], given), calls).artifacts;
            given <= all && (all != given ==> Size(all[|given|..]) <= max)
  {
    BooksAreTheCalls(max, given, calls);
    AffordableFits(max, calls);
    assert (given + Affordable(max, calls))[|given|..] == Affordable(max, calls);
  }

  /** One call of each kind, on the books and in its reply: a finished recipe is charged its bytes, an upload the
      size of its text, and a call that fails before its charge nothing. */
  lemma CallsAreCharged(max: int, s: State, recipe: Recipe, durationMs: nat, bytes: nat,
                        kind: string, title: string, mimeType: string, json: seq<bv8>)
    ensures Step(max, s, Finished(recipe, durationMs, bytes)) ==
            (State(s.usage + [Usage(recipe, durationMs, bytes)], s.artifacts),
             if Consumed(s.usage) + bytes <= max then Charged(Usage(recipe, durationMs, bytes)) else BudgetExceeded)
    ensures Step(max, s, Upload(kind, title, mimeType, Some(json))) ==
            if Consumed(s.usage) + |json| <= max then
              (State(s.usage + [Usage(ArtifactUpload, 0, |json|)],
                     s.artifacts + [Artifact(kind, title, mimeType, json)]), Staged(kind, title, |json|))
            else (State(s.usage + [Usage(ArtifactUpload, 0, |json|)], s.artifacts), BudgetExceeded)
    ensures Step(max, s, Threw(recipe)) == Step(max, s, Upload(kind, title, mimeType, None)) == (s, Failed)
  {}

  /** The total of a list of calls, call by call. */
  lemma TotalBytesOf(calls: seq<Call>, recipe: Recipe, durationMs: nat, bytes: nat,
                     kind: string, title: string, mimeType: string, json: seq<bv8>)
    ensures TotalBytes([]) == 0 && Consumed([]) == 0
    ensures TotalBytes(calls + [Finished(recipe, durationMs, bytes)]) == TotalBytes(calls) + bytes
    ensures TotalBytes(calls + [Upload(kind, title, mimeType, Some(json))]) == TotalBytes(calls) + |json|
    ensures TotalBytes(calls + [Threw(recipe)]) == TotalBytes(calls)
    ensures TotalBytes(calls + [Upload(kind, title, mimeType, None)]) == TotalBytes(calls)
  {
    TotalSnoc(calls, Finished(recipe, durationMs, bytes));
    TotalSnoc(calls, Upload(kind, title, mimeType, Some(json)));
    TotalSnoc(calls, Threw(recipe));
    TotalSnoc(calls, Upload(kind, title, mimeType, None));
  }

  lemma TotalSnoc(calls: seq<Call>, call: Call)
    ensures TotalBytes(calls + [call]) == TotalBytes(calls) + Bytes(call)
  {
    assert (calls + [call])[..|calls|] == calls;
  }
}
