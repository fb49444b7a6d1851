/** The active-handler query, the paged compatibility check, and the SQL literals of the gate. */
module HandlerCheck {
  import opened Text
  import opened DeploymentGate

  // ----- The query: SELECT DISTINCT … LIMIT 1001 -----

  ghost predicate Distinct<T>(rows: seq<T>) {
    forall i, j | 0 <= i < j < |rows| :: rows[i] != rows[j]
  }

  /** What the database may answer: distinct active pins, all of them up to the row limit. */
  ghost predicate Answers(site: Site, rows: seq<HandlerPin>) {
    && Distinct(rows)
    && (forall pin | pin in rows :: pin in ActivePins(site))
    && |rows| == if |ActivePins(site)| <= INSPECTION_LIMIT then |ActivePins(site)| else INSPECTION_LIMIT + 1
  }

  lemma {:induction false} DistinctSize<T>(rows: seq<T>)
    requires Distinct(rows)
    ensures |(set r | r in rows)| == |rows|
  {
    if rows == [] {
    } else {
      var init, last := rows[..|rows| - 1], rows[|rows| - 1];
      DistinctSize(init);
      assert (set r | r in rows) == (set r | r in init) + {last};
    }
  }

  lemma SubsetOfEqualSize<T>(a: set<T>, b: set<T>)
    requires a <= b && |a| == |b|
    ensures a == b
  {
    assert |b - a| == |b| - |a|;
    assert b - a == {};
  }

  /** `loadRequiredDurableHandlers` refuses exactly above the limit, and otherwise returns every
      pin that a pending or started execution has, each once. */
  method LoadPins(site: Site, rows: seq<HandlerPin>) returns (pins: Option<seq<HandlerPin>>)
    requires Answers(site, rows)
    ensures pins.Some? <==> |ActivePins(site)| <= INSPECTION_LIMIT
    ensures pins.Some? ==> Distinct(pins.value) && (set pin | pin in pins.value) == ActivePins(site)
  {
    if |rows| > INSPECTION_LIMIT { return None; }
    DistinctSize(rows);
    SubsetOfEqualSize((set pin | pin in rows), ActivePins(site));
    return Some(rows);
  }

  // ----- The paged check -----

  /** A probe response: the HTTP status class and, if well formed, one verdict per submitted pin. */
  datatype Response = Response(ok: bool, verdicts: Option<seq<bool>>)

  datatype Verdict = Compatible | Invalid(page: nat) | Incompatible(index: nat)

  const PAGE := 100

  function Page<T>(pins: seq<T>, k: nat): seq<T>
    requires PAGE * k <= |pins|
  {
    if PAGE * k + PAGE <= |pins| then pins[PAGE * k..PAGE * k + PAGE] else pins[PAGE * k..]
  }

  predicate WellFormed<T>(pins: seq<T>, k: nat, r: Response)
    requires PAGE * k <= |pins|
  {
    r.ok && r.verdicts.Some? && |r.verdicts.value| == |Page(pins, k)|
  }

  /** Whatever the candidate answers, page `k` of the pins was accepted in full. */
  predicate Accepted<T>(pins: seq<T>, answers: seq<Response>, k: nat) {
    && PAGE * k < |pins| && k < |answers|
    && WellFormed(pins, k, answers[k])
    && forall i | 0 <= i < |answers[k].verdicts.value| :: answers[k].verdicts.value[i]
  }

  method FirstFailure(verdicts: seq<bool>) returns (i: int)
    ensures i == -1 <==> forall j | 0 <= j < |verdicts| :: verdicts[j]
    ensures i != -1 ==> 0 <= i < |verdicts| && !verdicts[i] && forall j | 0 <= j < i :: verdicts[j]
  {
    for k := 0 to |verdicts|
      invariant forall j | 0 <= j < k :: verdicts[j]
    {
      if !verdicts[k] { return k; }
    }
    return -1;
  }

  function Front<T>(pins: seq<T>, n: nat): seq<T> {
    if n <= |pins| then pins[..n] else pins
  }

  lemma PageExtends<T>(pins: seq<T>, k: nat)
    requires PAGE * k < |pins|
    ensures Front(pins, PAGE * k) + Page(pins, k) == Front(pins, PAGE * (k + 1))
    ensures Front(pins, PAGE * (k + 1)) <= pins
  {}

  /** Pages are of a hundred, only the last may be shorter, and page `k` holds the pins from `100 * k` on. */
  lemma PagesAreHundreds<T>(pins: seq<T>, k: nat)
    requires 100 * k < |pins|
    ensures 0 < |Page(pins, k)| <= 100 && (|Page(pins, k)| < 100 ==> 100 * k + |Page(pins, k)| == |pins|)
    ensures forall i | 0 <= i < |Page(pins, k)| :: Page(pins, k)[i] == pins[100 * k + i]
  {}

  lemma PageAndPlace(k: nat, place: nat)
    requires place < PAGE
    ensures (PAGE * k + place) / PAGE == k && (PAGE * k + place) % PAGE == place
  {}

  /** The pages go out in order and together are the pins; success means that every page was
      accepted, a refusal names the first pin that was not. */
  method CheckCompatibility<T>(pins: seq<T>, answers: seq<Response>) returns (submitted: seq<T>, v: Verdict)
    requires |answers| * PAGE >= |pins|
    ensures submitted <= pins
    ensures v.Compatible? <==> forall k: nat | PAGE * k < |pins| :: Accepted(pins, answers, k)
    ensures v.Compatible? ==> submitted == pins
    ensures v.Invalid? ==> && PAGE * v.page < |pins| && !WellFormed(pins, v.page, answers[v.page])
                           && forall k | 0 <= k < v.page :: Accepted(pins, answers, k)
    ensures v.Incompatible? ==> && v.index < |submitted|
                                && WellFormed(pins, v.index / PAGE, answers[v.index / PAGE])
                                && !answers[v.index / PAGE].verdicts.value[v.index % PAGE]
                                && (forall i | 0 <= i < v.index % PAGE :: answers[v.index / PAGE].verdicts.value[i])
                                && (forall k | 0 <= k < v.index / PAGE :: Accepted(pins, answers, k))
  {
    submitted := [];
    var offset, k := 0, 0;
    while offset < |pins|
      invariant offset == PAGE * k
      invariant submitted == Front(pins, offset)
      invariant forall j | 0 <= j < k :: Accepted(pins, answers, j)
    {
      var page := Page(pins, k);
      PageExtends(pins, k);
      submitted := submitted + page;
      var response := answers[k];
      if !response.ok || response.verdicts.None? || |response.verdicts.value| != |page| {
        assert !Accepted(pins, answers, k);
        return submitted, Invalid(k);
      }
      var failed := FirstFailure(response.verdicts.value);
      if failed >= 0 {
        assert !Accepted(pins, answers, k);
        PageAndPlace(k, failed);
        return submitted, Incompatible(offset + failed);
      }
      offset, k := offset + PAGE, k + 1;
    }
    forall j: nat | PAGE * j < |pins| ensures Accepted(pins, answers, j) {
      assert j < k;
    }
    return submitted, Compatible;
  }

  /** A candidate that answers by its own support relation. */
  ghost predicate Honest<T>(pins: seq<T>, answers: seq<Response>, supported: T -> bool) {
    |answers| * PAGE >= |pins| &&
    forall k: nat | PAGE * k < |pins| ::
      && WellFormed(pins, k, answers[k])
      && forall i | 0 <= i < |Page(pins, k)| :: answers[k].verdicts.value[i] == supported(Page(pins, k)[i])
  }

  /** Against an honest candidate, paging accepts exactly the lists it supports entirely. */
  lemma PagingLosesNothing<T>(pins: seq<T>, answers: seq<Response>, supported: T -> bool)
    requires Honest(pins, answers, supported)
    ensures (forall k: nat | PAGE * k < |pins| :: Accepted(pins, answers, k))
        <==> forall i | 0 <= i < |pins| :: supported(pins[i])
  {
    if forall k: nat | PAGE * k < |pins| :: Accepted(pins, answers, k) {
      forall i | 0 <= i < |pins| ensures supported(pins[i]) {
        var k := i / PAGE;
        assert Accepted(pins, answers, k);
        assert Page(pins, k)[i - PAGE * k] == pins[i];
      }
    }
    if forall i | 0 <= i < |pins| :: supported(pins[i]) {
      forall k: nat | PAGE * k < |pins| ensures Accepted(pins, answers, k) {
        forall i | 0 <= i < |Page(pins, k)| ensures answers[k].verdicts.value[i] {
          assert Page(pins, k)[i] == pins[PAGE * k + i];
        }
      }
    }
  }

  lemma HonestAt<T>(pins: seq<T>, answers: seq<Response>, supported: T -> bool, k: nat, place: nat)
    requires Honest(pins, answers, supported) && place < PAGE && PAGE * k + place < |pins|
    ensures k < |answers| && answers[k].verdicts.Some? && place < |answers[k].verdicts.value|
    ensures answers[k].verdicts.value[place] == supported(pins[PAGE * k + place])
  {
    assert WellFormed(pins, k, answers[k]);
    assert Page(pins, k)[place] == pins[PAGE * k + place];
  }

  /** Against an honest candidate, the pin that a refusal names is the first unsupported one. */
  lemma RefusalNamesFirst<T>(pins: seq<T>, answers: seq<Response>, supported: T -> bool, k: nat, place: nat)
    requires Honest(pins, answers, supported) && place < PAGE && PAGE * k + place < |pins|
    requires !answers[k].verdicts.value[place] && forall i | 0 <= i < place :: answers[k].verdicts.value[i]
    requires forall j | 0 <= j < k :: Accepted(pins, answers, j)
    ensures !supported(pins[PAGE * k + place]) && forall i | 0 <= i < PAGE * k + place :: supported(pins[i])
  {
    HonestAt(pins, answers, supported, k, place);
    forall i | 0 <= i < PAGE * k + place ensures supported(pins[i]) {
      HonestAt(pins, answers, supported, i / PAGE, i % PAGE);
      if i / PAGE < k { assert Accepted(pins, answers, i / PAGE); }
    }
  }

  // ----- The check as the gate sees it -----

  /** The gate's two statements, load and check, both acknowledged. */
  lemma GateChecksIff(support: Support, site: Site, later: Site, p: Proc)
    requires p.pc == Load
    ensures var q := ProcStep(support, site, p, Acknowledged).1;
            ProcStep(support, later, q, Acknowledged).1.pc == Recheck <==>
            |ActivePins(site)| <= INSPECTION_LIMIT && Retains(support, p.fence.sha, site)
  {
    var q := ProcStep(support, site, p, Acknowledged).1;
    if |ActivePins(site)| <= INSPECTION_LIMIT {
      assert q == p.(pc := Check, pins := ActivePins(site));
    } else {
      assert q == Throw(p) && q.pc != Recheck && q.pc != Check;
    }
  }

  lemma SupportedIffRetained(support: Support, sha: string, site: Site, pins: seq<HandlerPin>)
    requires (set pin | pin in pins) == ActivePins(site)
    ensures (forall i | 0 <= i < |pins| :: support(sha, pins[i])) <==> Retains(support, sha, site)
  {
    assert forall pin :: pin in pins <==> pin in ActivePins(site);
  }

  /** Loading the pins and submitting them page by page to a candidate that answers by its own support
      passes exactly when the gate's check does: the limit holds and the artifact retains all active work. */
  method LoadAndCheck(support: Support, sha: string, site: Site, rows: seq<HandlerPin>, answers: seq<Response>)
      returns (ok: bool)
    requires Answers(site, rows)
    requires |rows| <= INSPECTION_LIMIT ==> Honest(rows, answers, pin => support(sha, pin))
    ensures ok <==> |ActivePins(site)| <= INSPECTION_LIMIT && Retains(support, sha, site)
  {
    var pins := LoadPins(site, rows);
    if pins.None? { return false; }
    var submitted, verdict := CheckCompatibility(rows, answers);
    PagingLosesNothing(rows, answers, pin => support(sha, pin));
    DistinctSize(rows);
    SubsetOfEqualSize((set pin | pin in rows), ActivePins(site));
    SupportedIffRetained(support, sha, site, rows);
    ok := verdict.Compatible?;
  }

  // ----- How the command line selects a run -----

  /** `--resume` supplies the id even when `--release` selects the run. */
  function SelectRun(check: bool, resume: Option<string>, release: Option<string>, drawn: string)
      : Option<(Mode, string)> {
    if check && (resume.Some? || release.Some?) then None
    else
      var id := if resume.Some? then resume.value else if release.Some? then release.value else drawn;
      Some((if release.Some? then Release else if resume.Some? then Resume else if check then Inspect else Fresh, id))
  }

  /** Only runs on a newly drawn id insert a fence; an inspection never names an existing one. */
  lemma RunsOnGivenIdsNeverInsert(check: bool, resume: Option<string>, release: Option<string>, drawn: string,
                                  sha: string)
    ensures var run := SelectRun(check, resume, release, drawn);
            && (run.None? <==> check && !(resume.None? && release.None?))
            && (run.Some? && Start(Fence(run.value.1, sha), run.value.0).pc == Insert ==> run.value.1 == drawn)
            && (run.Some? && run.value.1 != drawn ==> run.value.0 == Resume || run.value.0 == Release)
  {}

  /** Which flags select which run, and on which id. */
  lemma FlagsSelect(check: bool, resume: Option<string>, release: Option<string>, drawn: string, id: string)
    ensures var run := SelectRun(check, resume, release, drawn);
            && (run == Some((Fresh, id)) <==> !check && resume.None? && release.None? && id == drawn)
            && (run == Some((Inspect, id)) <==> check && resume.None? && release.None? && id == drawn)
            && (run == Some((Resume, id)) <==> !check && resume == Some(id) && release.None?)
            && (run == Some((Release, id)) <==>
                !check && release.Some? && (resume == Some(id) || (resume.None? && release == Some(id))))
  {}

  // ----- SQL string literals -----

  function Literal(value: string): string {
    "'" + Doubled(value, '\'') + "'"
  }

  /** The SQL reader inside a quoted string: a doubled quote is a quote, a single one ends it. */
  function ReadBody(s: string): Option<(string, string)> {
    if s == "" then None
    else if s[0] != '\'' then
      match ReadBody(s[1..]) case None => None case Some((v, rest)) => Some(([s[0]] + v, rest))
    else if |s| > 1 && s[1] == '\'' then
      match ReadBody(s[2..]) case None => None case Some((v, rest)) => Some(("'" + v, rest))
    else Some(("", s[1..]))
  }

  lemma ReadQuote(tail: string)
    requires ReadBody(tail).Some?
    ensures ReadBody("''" + tail) == Some(("'" + ReadBody(tail).value.0, ReadBody(tail).value.1))
  {
    assert ("''" + tail)[2..] == tail;
  }

  lemma ReadPlain(c: char, tail: string)
    requires c != '\'' && ReadBody(tail).Some?
    ensures ReadBody([c] + tail) == Some(([c] + ReadBody(tail).value.0, ReadBody(tail).value.1))
  {
    assert ([c] + tail)[1..] == tail;
  }

  lemma ReadEnd(rest: string)
    requires rest != "" ==> rest[0] != '\''
    ensures ReadBody("'" + rest) == Some(("", rest))
  {
    assert ("'" + rest)[1..] == rest;
  }

  /** A literal reads back as its value and ends where it was written, for every value. */
  lemma LiteralReadsBack(value: string, rest: string)
    requires rest != "" ==> rest[0] != '\''
    ensures (Literal(value) + rest)[0] == '\'' && ReadBody((Literal(value) + rest)[1..]) == Some((value, rest))
  {
    BodyReadsBack(value, rest);
    assert (Literal(value) + rest)[1..] == Doubled(value, '\'') + ("'" + rest);
  }

  lemma {:induction false} BodyReadsBack(value: string, rest: string)
    requires rest != "" ==> rest[0] != '\''
    ensures ReadBody(Doubled(value, '\'') + ("'" + rest)) == Some((value, rest))
  {
    if value == "" {
      ReadEnd(rest);
      assert Doubled(value, '\'') + ("'" + rest) == "'" + rest;
    } else {
      BodyReadsBack(value[1..], rest);
      var tail := Doubled(value[1..], '\'') + ("'" + rest);
      assert value == [value[0]] + value[1..];
      if value[0] == '\'' { ReadQuote(tail); } else { ReadPlain(value[0], tail); }
      assert Doubled(value, '\'') + ("'" + rest) == (if value[0] == '\'' then "''" else [value[0]]) + tail;
    }
  }
}
