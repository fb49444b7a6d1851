/** The bounded redirect walk of `inspectPublicUrl`, against any resolver and any server. */
module UrlWalk {
  import opened Text
  import PublicAddress
  import PublicRanges

  datatype Url = Url(text: string, protocol: string, hostname: string, port: string, username: string, password: string)

  datatype Egress = NoEgress | PublicWeb | BrokerOnly

  datatype Policy = Policy(egress: Option<Egress>, allowedSchemes: Option<seq<string>>,
                           allowedHosts: Option<seq<string>>, deniedHosts: Option<seq<string>>)

  datatype Endpoint = Endpoint(address: string, family: int)

  /** What a request brought: an error, or a status and its location header. */
  datatype Reply = Broken(timeout: bool) | Answer(status: int, location: Option<string>)

  /** What a name lookup brought; `late` says whether the time limit had passed when it failed. */
  datatype Lookup = Addresses(found: seq<Endpoint>) | NoAnswer(late: bool)

  /** The outside world, adversarial and different at every step: `step` counts the requests made.
      A lookup is not cancelled by the time limit, and `lateParse` says whether the limit had passed
      when the location that answered a request was parsed. */
  datatype Network = Network(
    ipFamily: string -> int,
    isPublic: string -> bool,
    lookup: (nat, string) -> Lookup,
    reply: (nat, Url, Endpoint) -> Reply,
    parse: (string, Url) -> Option<Url>,
    lateParse: nat -> bool)

  datatype Code =
    | EgressNotAllowed | ProtocolBlocked | CredentialsBlocked | PortBlocked | HostBlocked | RedirectLoop
    | RedirectInvalid | RedirectLimit | RedirectBlocked | AddressBlocked | TimedOut | InspectFailed

  datatype Result = Failed(code: Code) | Inspected(final: Url, status: int)

  /** The `catch`: any error but a blocked address is a timeout once the limit has passed. */
  function Caught(late: bool): Code {
    if late then TimedOut else InspectFailed
  }

  datatype Request = Request(url: Url, endpoint: Endpoint)

  const MAX_REDIRECTS := 3

  // ----- The policy checks of one iteration -----

  /** A lower-case host against a trimmed, lower-case pattern. */
  predicate Matches(host: string, normalized: string) {
    && normalized != ""
    && (|| normalized == "*"
        || normalized == host
        || (StartsWith(normalized, "*.") && EndsWith(host, normalized[1..]))
        || (StartsWith(normalized, ".") && EndsWith(host, normalized)))
  }

  predicate MatchesHost(hostname: string, pattern: string) {
    Matches(Lower(hostname), Lower(Trim(pattern)))
  }

  predicate SchemeAllowed(policy: Policy, url: Url) {
    && (policy.egress.Some? ==> policy.egress.value == PublicWeb)
    && (policy.allowedSchemes.Some? ==> exists s | s in policy.allowedSchemes.value :: url.protocol == s + ":")
  }

  predicate Web(url: Url) {
    url.protocol == "http:" || url.protocol == "https:"
  }

  predicate StandardPort(url: Url) {
    url.port == "" || (url.protocol == "http:" && url.port == "80") || (url.protocol == "https:" && url.port == "443")
  }

  predicate Denied(policy: Policy, url: Url) {
    policy.deniedHosts.Some? && exists p | p in policy.deniedHosts.value :: MatchesHost(url.hostname, p)
  }

  predicate HostAllowed(policy: Policy, url: Url) {
    policy.allowedHosts.Some? && policy.allowedHosts.value != []
    ==> exists p | p in policy.allowedHosts.value :: MatchesHost(url.hostname, p)
  }

  /** All that is asked of a URL before anything is sent to it. */
  predicate Permitted(policy: Policy, url: Url) {
    && SchemeAllowed(policy, url) && Web(url) && url.username == "" && url.password == ""
    && StandardPort(url) && !Denied(policy, url) && HostAllowed(policy, url)
  }

  function Objection(policy: Policy, url: Url): (code: Option<Code>)
    ensures code.None? <==> Permitted(policy, url)
  {
    if !SchemeAllowed(policy, url) then Some(EgressNotAllowed)
    else if !Web(url) then Some(ProtocolBlocked)
    else if url.username != "" || url.password != "" then Some(CredentialsBlocked)
    else if !StandardPort(url) then Some(PortBlocked)
    else if Denied(policy, url) || !HostAllowed(policy, url)
    then Some(if policy.egress.Some? then EgressNotAllowed else HostBlocked)
    else None
  }

  // ----- The pinned address -----

  datatype Resolution = Blocked | Unresolved(late: bool) | Resolved(endpoint: Endpoint)

  /** A literal address must be public; of a name, every address must be, and the first is used. */
  function Resolve(net: Network, step: nat, hostname: string): (r: Resolution)
    ensures r.Resolved? ==> net.isPublic(r.endpoint.address)
  {
    if net.ipFamily(hostname) != 0 then
      if net.isPublic(hostname) then Resolved(Endpoint(hostname, net.ipFamily(hostname))) else Blocked
    else
      match net.lookup(step, hostname)
      case NoAnswer(late) => Unresolved(late)
      case Addresses(found) =>
        if found == [] || exists e | e in found :: !net.isPublic(e.address) then Blocked else Resolved(found[0])
  }

  /** A literal is used exactly when it is public. A host is used exactly when its lookup found addresses and every
      one of them is public, and then the first is; a lookup that failed says whether it was late. */
  lemma ResolveIff(net: Network, step: nat, hostname: string)
    ensures var r, literal, answer := Resolve(net, step, hostname), net.ipFamily(hostname), net.lookup(step, hostname);
            if literal != 0 then
              r == if net.isPublic(hostname) then Resolved(Endpoint(hostname, literal)) else Blocked
            else if answer.NoAnswer? then r == Unresolved(answer.late)
            else
              && (r.Resolved? <==>
                  answer.found != [] && forall i | 0 <= i < |answer.found| :: net.isPublic(answer.found[i].address))
              && (r.Resolved? ==> r.endpoint == answer.found[0])
              && (r.Resolved? || r.Blocked?)
  {}

  // ----- What a finished walk may look like -----

  predicate Redirects(reply: Reply) {
    reply.Answer? && 300 <= reply.status < 400
  }

  function ReplyTo(net: Network, requests: seq<Request>, i: nat): Reply
    requires i < |requests|
  {
    net.reply(i, requests[i].url, requests[i].endpoint)
  }

  /** Request `i` got a redirect to the web URL `next`. */
  ghost predicate LeadsTo(net: Network, requests: seq<Request>, i: nat, next: Url)
    requires i < |requests|
  {
    var reply := ReplyTo(net, requests, i);
    && Redirects(reply) && reply.location.Some? && reply.location.value != ""
    && net.parse(reply.location.value, requests[i].url) == Some(next) && Web(next)
  }

  /** The URL the walk looks at after these requests. */
  ghost predicate Current(net: Network, initial: Url, requests: seq<Request>, url: Url) {
    if requests == [] then url == initial else LeadsTo(net, requests, |requests| - 1, url)
  }

  predicate Visited(requests: seq<Request>, text: string) {
    exists r | r in requests :: r.url.text == text
  }

  ghost predicate Step(net: Network, policy: Policy, initial: Url, before: seq<Request>, r: Request) {
    && Current(net, initial, before, r.url)
    && Permitted(policy, r.url)
    && !Visited(before, r.url.text)
    && Resolve(net, |before|, r.url.hostname) == Resolved(r.endpoint)
  }

  /** Each request follows the redirect before it, to a URL that passed every check, was new, and
      was pinned to the public address that its name resolved to at that step. */
  ghost predicate Trail(net: Network, policy: Policy, initial: Url, requests: seq<Request>) {
    requests != [] ==>
      var n := |requests| - 1;
      Trail(net, policy, initial, requests[..n]) && Step(net, policy, initial, requests[..n], requests[n])
  }

  lemma TrailExtends(net: Network, policy: Policy, initial: Url, before: seq<Request>, r: Request)
    requires Trail(net, policy, initial, before) && Step(net, policy, initial, before, r)
    ensures Trail(net, policy, initial, before + [r])
  {
    assert (before + [r])[..|before|] == before;
  }

  lemma {:induction false} TrailAt(net: Network, policy: Policy, initial: Url, requests: seq<Request>, k: nat)
    requires Trail(net, policy, initial, requests) && k <= |requests|
    ensures Trail(net, policy, initial, requests[..k])
    ensures k < |requests| ==> Step(net, policy, initial, requests[..k], requests[k])
    decreases |requests|
  {
    if k == |requests| {
      assert requests[..k] == requests;
    } else {
      var init := requests[..|requests| - 1];
      TrailAt(net, policy, initial, init, k);
      assert init[..k] == requests[..k];
    }
  }

  /** Why the walk ends as it does, for every ending. */
  ghost predicate Justified(net: Network, policy: Policy, initial: Url, requests: seq<Request>, result: Result) {
    var n := |requests|;
    match result
    case Inspected(final, status) =>
      && n > 0 && final == requests[n - 1].url
      && var reply := ReplyTo(net, requests, n - 1); reply.Answer? && !Redirects(reply) && status == reply.status
    case Failed(code) =>
      || (n <= MAX_REDIRECTS && StoppedBefore(net, policy, initial, requests, code))
      || (n > 0 && StoppedAfter(net, requests, code))
  }

  ghost predicate Refused(net: Network, policy: Policy, requests: seq<Request>, url: Url, code: Code) {
    if !Permitted(policy, url) then Objection(policy, url) == Some(code)
    else if Visited(requests, url.text) then code == RedirectLoop
    else match Resolve(net, |requests|, url.hostname)
         case Blocked => code == AddressBlocked
         case Unresolved(late) => code == Caught(late)
         case Resolved(_) => false
  }

  /** The next URL was refused: nothing was sent to it. */
  ghost predicate StoppedBefore(net: Network, policy: Policy, initial: Url, requests: seq<Request>, code: Code) {
    exists url :: Current(net, initial, requests, url) && Refused(net, policy, requests, url, code)
  }

  /** The last reply could not be followed. */
  ghost predicate StoppedAfter(net: Network, requests: seq<Request>, code: Code)
    requires requests != []
  {
    var n := |requests|;
    var reply := ReplyTo(net, requests, n - 1);
    if reply.Broken? then code == Caught(reply.timeout)
    else
      && Redirects(reply)
      && if reply.location.None? || reply.location.value == "" then code == RedirectInvalid
         else if n == MAX_REDIRECTS + 1 then code == RedirectLimit
         else match net.parse(reply.location.value, requests[n - 1].url)
              case None => code == Caught(net.lateParse(n - 1))
              case Some(next) => !Web(next) && code == RedirectBlocked
  }

  datatype Reaction = Stop(result: Result) | Follow(next: Url)

  /** What the loop body makes of a reply. */
  method React(net: Network, url: Url, reply: Reply, redirects: nat, ghost requests: seq<Request>) returns (r: Reaction)
    requires redirects <= MAX_REDIRECTS && |requests| == redirects + 1
    requires requests[redirects].url == url && ReplyTo(net, requests, redirects) == reply
    ensures r.Follow? ==> redirects < MAX_REDIRECTS && LeadsTo(net, requests, redirects, r.next)
    ensures r.Stop? && r.result.Inspected? ==>
            reply.Answer? && !Redirects(reply) && r.result == Inspected(url, reply.status)
    ensures r.Stop? && r.result.Failed? ==> StoppedAfter(net, requests, r.result.code)
  {
    if reply.Broken? { return Stop(Failed(Caught(reply.timeout))); }
    if !Redirects(reply) { return Stop(Inspected(url, reply.status)); }
    if reply.location.None? || reply.location.value == "" { return Stop(Failed(RedirectInvalid)); }
    if redirects == MAX_REDIRECTS { return Stop(Failed(RedirectLimit)); }
    var next := net.parse(reply.location.value, url);
    if next.None? { return Stop(Failed(Caught(net.lateParse(redirects)))); }
    if !Web(next.value) { return Stop(Failed(RedirectBlocked)); }
    return Follow(next.value);
  }

  datatype Admission = Refuse(code: Code) | Admit(endpoint: Endpoint)

  /** What the loop body asks of a URL before it sends a request. */
  method Consider(net: Network, policy: Policy, url: Url, visited: set<string>, step: nat, ghost requests: seq<Request>)
      returns (r: Admission)
    requires step == |requests| && forall t :: t in visited <==> Visited(requests, t)
    ensures r.Refuse? ==> Refused(net, policy, requests, url, r.code)
    ensures r.Admit? ==> && Permitted(policy, url) && !Visited(requests, url.text)
                         && Resolve(net, step, url.hostname) == Resolved(r.endpoint)
  {
    var objection := Objection(policy, url);
    if objection.Some? { return Refuse(objection.value); }
    if url.text in visited { return Refuse(RedirectLoop); }
    var resolution := Resolve(net, step, url.hostname);
    match resolution
    case Blocked => return Refuse(AddressBlocked);
    case Unresolved(late) => return Refuse(Caught(late));
    case Resolved(endpoint) => return Admit(endpoint);
  }

  /** `inspectPublicUrl`. The statement after its loop is not reached. */
  method InspectPublicUrl(initial: Url, policy: Policy, net: Network) returns (result: Result, requests: seq<Request>)
    ensures |requests| <= 4
    ensures Trail(net, policy, initial, requests)
    ensures Justified(net, policy, initial, requests, result)
  {
    requests := [];
    var url := initial;
    var visited: set<string> := {};
    for redirects := 0 to MAX_REDIRECTS + 1
      invariant |requests| == redirects
      invariant redirects <= MAX_REDIRECTS
      invariant Trail(net, policy, initial, requests)
      invariant Current(net, initial, requests, url)
      invariant forall t :: t in visited <==> Visited(requests, t)
    {
      var admission := Consider(net, policy, url, visited, redirects, requests);
      if admission.Refuse? { return Failed(admission.code), requests; }
      visited := visited + {url.text};
      TrailExtends(net, policy, initial, requests, Request(url, admission.endpoint));
      requests := requests + [Request(url, admission.endpoint)];
      var reaction := React(net, url, net.reply(redirects, url, admission.endpoint), redirects, requests);
      if reaction.Stop? { return reaction.result, requests; }
      url := reaction.next;
    }
    assert false;
  }

  // ----- What a caller may conclude -----

  lemma {:induction false} RequestsAreDistinct(net: Network, policy: Policy, initial: Url, requests: seq<Request>,
                                               i: nat, j: nat)
    requires Trail(net, policy, initial, requests) && i < j < |requests|
    ensures requests[i].url.text != requests[j].url.text
  {
    TrailAt(net, policy, initial, requests, j);
    assert requests[..j][i] == requests[i];
    assert requests[i] in requests[..j];
  }

  lemma {:induction false} RequestsArePublicAndPermitted(net: Network, policy: Policy, initial: Url,
                                                         requests: seq<Request>, i: nat)
    requires Trail(net, policy, initial, requests) && i < |requests|
    ensures Permitted(policy, requests[i].url) && net.isPublic(requests[i].endpoint.address)
  {
    TrailAt(net, policy, initial, requests, i);
  }

  /** At every request to a name, the lookup of that step found addresses, all of them public, and the first
      was used; a request to a literal address went to it, and it is public. */
  lemma RequestsArePinned(net: Network, policy: Policy, initial: Url, requests: seq<Request>, i: nat)
    requires Trail(net, policy, initial, requests) && i < |requests|
    ensures var host, endpoint := requests[i].url.hostname, requests[i].endpoint;
            if net.ipFamily(host) != 0 then
              endpoint.address == host && endpoint.family == net.ipFamily(host) && net.isPublic(host)
            else
              && net.lookup(i, host).Addresses? && net.lookup(i, host).found != []
              && endpoint == net.lookup(i, host).found[0]
              && forall k | 0 <= k < |net.lookup(i, host).found| :: net.isPublic(net.lookup(i, host).found[k].address)
  {
    TrailAt(net, policy, initial, requests, i);
  }

  /** What each test of the policy asks, on the policy's own lists. */
  lemma PolicyTests(policy: Policy, url: Url)
    ensures SchemeAllowed(policy, url) <==>
            && (policy.egress == None || policy.egress == Some(PublicWeb))
            && (policy.allowedSchemes.Some? ==>
                exists i | 0 <= i < |policy.allowedSchemes.value| ::
                  url.protocol == policy.allowedSchemes.value[i] + ":")
    ensures StandardPort(url) <==>
            || url.port == ""
            || (url.protocol, url.port) == ("http:", "80") || (url.protocol, url.port) == ("https:", "443")
    ensures Denied(policy, url) <==>
            && policy.deniedHosts.Some?
            && exists i | 0 <= i < |policy.deniedHosts.value| :: MatchesHost(url.hostname, policy.deniedHosts.value[i])
    ensures !HostAllowed(policy, url) <==>
            && policy.allowedHosts.Some? && policy.allowedHosts.value != []
            && forall i | 0 <= i < |policy.allowedHosts.value| ::
                 !MatchesHost(url.hostname, policy.allowedHosts.value[i])
  {}

  /** Why a URL is refused before anything is sent, code by code, in the order of the tests. */
  lemma ObjectionCodes(policy: Policy, url: Url)
    ensures var code := Objection(policy, url);
            var scheme := SchemeAllowed(policy, url);
            var web := url.protocol == "http:" || url.protocol == "https:";
            var plain := url.username == "" && url.password == "";
            var port := StandardPort(url);
            var host := !Denied(policy, url) && HostAllowed(policy, url);
            && (code.None? <==> scheme && web && plain && port && host)
            && (code == Some(ProtocolBlocked) <==> scheme && !web)
            && (code == Some(CredentialsBlocked) <==> scheme && web && !plain)
            && (code == Some(PortBlocked) <==> scheme && web && plain && !port)
            && (code == Some(HostBlocked) <==> scheme && web && plain && port && !host && policy.egress.None?)
            && (code == Some(EgressNotAllowed) <==>
                !scheme || (web && plain && port && !host && policy.egress.Some?))
  {}

  /** The walk with the address test of `isPublicInternetAddress`. */
  ghost predicate Classifies(net: Network, family: string -> int, other: string -> Option<int>) {
    PublicRanges.Recognizes(family) && forall a :: net.isPublic(a) == PublicRanges.IsPublic(a, family, other)
  }

  /** No request goes to an IPv4 address in any of the blocks that are not public. */
  lemma RequestsAvoidBlocks4(net: Network, policy: Policy, initial: Url, requests: seq<Request>, i: nat,
                             family: string -> int, other: string -> Option<int>, b: seq<Byte>)
    requires Classifies(net, family, other) && Trail(net, policy, initial, requests) && i < |requests|
    requires |b| == 4 && requests[i].endpoint.address == PublicAddress.Dotted(b)
    ensures PublicRanges.OutsideBlocks(b)
  {
    RequestsArePublicAndPermitted(net, policy, initial, requests, i);
    PublicRanges.DottedClassifies(b, family, other);
    PublicRanges.Public4IffOutsideBlocks(b);
  }

  /** Nor, however it is spelled, to an IPv6 address outside the global unicast block, in the
      documentation block, or mapped from such an IPv4 address. */
  lemma RequestsAvoidBlocks6(net: Network, policy: Policy, initial: Url, requests: seq<Request>, i: nat,
                             family: string -> int, other: string -> Option<int>, s: PublicAddress.Spelling)
    requires Classifies(net, family, other) && Trail(net, policy, initial, requests) && i < |requests|
    requires PublicAddress.Valid(s) && requests[i].endpoint.address == PublicAddress.Render(s)
    ensures var bytes := PublicAddress.Address(s);
            |bytes| == 16 && PublicRanges.AreBytes(bytes)
            && if PublicRanges.In(bytes, PublicRanges.IPV4_MAPPED)
               then PublicRanges.OutsideBlocks(PublicRanges.AsBytes(bytes[12..]))
               else
                 PublicRanges.In(bytes, PublicRanges.GLOBAL_UNICAST)
                 && !PublicRanges.In(bytes, PublicRanges.DOCUMENTATION)
  {
    RequestsArePublicAndPermitted(net, policy, initial, requests, i);
    PublicRanges.SpellingsClassifyAlike(s, family, other);
    var bytes := PublicAddress.Address(s);
    PublicRanges.Public6IffInBlocks(bytes);
    PublicRanges.DottedClassifies(PublicRanges.AsBytes(bytes[12..]), family, other);
    PublicRanges.Public4IffOutsideBlocks(PublicRanges.AsBytes(bytes[12..]));
  }

  lemma SameReply(net: Network, requests: seq<Request>, k: nat, i: nat)
    requires i < k <= |requests|
    ensures ReplyTo(net, requests[..k], i) == ReplyTo(net, requests, i)
  {}

  /** Between two requests lies a redirect. */
  lemma {:induction false} RedirectedBetween(net: Network, policy: Policy, initial: Url, requests: seq<Request>, i: nat)
    requires Trail(net, policy, initial, requests) && i + 1 < |requests|
    ensures LeadsTo(net, requests, i, requests[i + 1].url)
  {
    TrailAt(net, policy, initial, requests, i + 1);
    SameReply(net, requests, i + 1, i);
  }

  /** The limit is reported exactly for four requests that were all redirected somewhere. */
  lemma LimitMeansFourRedirects(net: Network, policy: Policy, initial: Url, requests: seq<Request>, result: Result)
    requires Trail(net, policy, initial, requests) && |requests| <= MAX_REDIRECTS + 1
    requires Justified(net, policy, initial, requests, result)
    ensures result == Failed(RedirectLimit)
        <==> && |requests| == 4
             && (forall i | 0 <= i < 4 :: ReplyTo(net, requests, i).Answer?
                                          && 300 <= ReplyTo(net, requests, i).status < 400)
             && ReplyTo(net, requests, 3).location.Some? && ReplyTo(net, requests, 3).location.value != ""
  {
    forall i | 0 <= i < |requests| - 1 ensures Redirects(ReplyTo(net, requests, i)) {
      RedirectedBetween(net, policy, initial, requests, i);
    }
  }

  lemma NotStoppedBefore(net: Network, policy: Policy, initial: Url, before: seq<Request>, r: Request, code: Code)
    requires Step(net, policy, initial, before, r)
    ensures !StoppedBefore(net, policy, initial, before, code)
  {
    forall url | Current(net, initial, before, url) ensures !Refused(net, policy, before, url, code) {
      assert url == r.url;
    }
  }

  lemma NotStoppedAfter(net: Network, requests: seq<Request>, next: Url, code: Code)
    requires 0 < |requests| <= MAX_REDIRECTS && LeadsTo(net, requests, |requests| - 1, next)
    ensures !StoppedAfter(net, requests, code) && Redirects(ReplyTo(net, requests, |requests| - 1))
  {}

  /** A justified walk ends where it does: it is no proper beginning of another. */
  lemma EndsThere(net: Network, policy: Policy, initial: Url, requests: seq<Request>, k: nat, result: Result)
    requires Trail(net, policy, initial, requests) && k < |requests| <= MAX_REDIRECTS + 1
    ensures !Justified(net, policy, initial, requests[..k], result)
  {
    TrailAt(net, policy, initial, requests, k);
    var before, next := requests[..k], requests[k];
    if result.Failed? {
      NotStoppedBefore(net, policy, initial, before, next, result.code);
      if k > 0 { NotStoppedAfter(net, before, next.url, result.code); }
    } else if k > 0 {
      NotStoppedAfter(net, before, next.url, InspectFailed);
    }
  }

  lemma StepIsDetermined(net: Network, policy: Policy, initial: Url, before: seq<Request>, r: Request, s: Request)
    requires Step(net, policy, initial, before, r) && Step(net, policy, initial, before, s)
    ensures r == s
  {}

  lemma {:induction false} SameLength(net: Network, policy: Policy, initial: Url, a: seq<Request>, b: seq<Request>)
    requires Trail(net, policy, initial, a) && Trail(net, policy, initial, b) && |a| == |b|
    ensures a == b
  {
    if a == [] {
    } else {
      var n := |a| - 1;
      SameLength(net, policy, initial, a[..n], b[..n]);
      StepIsDetermined(net, policy, initial, a[..n], a[n], b[n]);
      assert a == a[..n] + [a[n]] && b == b[..n] + [b[n]];
    }
  }

  lemma ResultIsDetermined(net: Network, policy: Policy, initial: Url, requests: seq<Request>, x: Result, y: Result)
    requires Justified(net, policy, initial, requests, x) && Justified(net, policy, initial, requests, y)
    ensures x == y
  {}

  /** Trail and justification leave no choice: they determine the requests and the result. */
  lemma WalkIsDetermined(net: Network, policy: Policy, initial: Url,
                         a: seq<Request>, x: Result, b: seq<Request>, y: Result)
    requires Trail(net, policy, initial, a) && Justified(net, policy, initial, a, x) && |a| <= MAX_REDIRECTS + 1
    requires Trail(net, policy, initial, b) && Justified(net, policy, initial, b, y) && |b| <= MAX_REDIRECTS + 1
    ensures a == b && x == y
  {
    if |a| < |b| {
      TrailAt(net, policy, initial, b, |a|);
      SameLength(net, policy, initial, a, b[..|a|]);
      EndsThere(net, policy, initial, b, |a|, x);
    } else if |b| < |a| {
      TrailAt(net, policy, initial, a, |b|);
      SameLength(net, policy, initial, a[..|b|], b);
      EndsThere(net, policy, initial, a, |b|, y);
    } else {
      SameLength(net, policy, initial, a, b);
      ResultIsDetermined(net, policy, initial, a, x, y);
    }
  }

  /** A walk times out exactly when the limit had passed: at the last reply, at the location it gave, or at the
      lookup of the next name. */
  lemma TimedOutIff(net: Network, policy: Policy, initial: Url, requests: seq<Request>, result: Result)
    requires Justified(net, policy, initial, requests, result) && |requests| <= 4
    ensures result == Failed(TimedOut) <==>
            || (requests != [] && ReplyTo(net, requests, |requests| - 1) == Broken(true))
            || (0 < |requests| < 4
                && var reply := ReplyTo(net, requests, |requests| - 1);
                   Redirects(reply) && reply.location.Some? && reply.location.value != ""
                   && net.parse(reply.location.value, requests[|requests| - 1].url) == None
                   && net.lateParse(|requests| - 1))
            || (|requests| < 4
                && exists url :: Current(net, initial, requests, url) && Permitted(policy, url)
                                 && !Visited(requests, url.text) && net.ipFamily(url.hostname) == 0
                                 && net.lookup(|requests|, url.hostname) == NoAnswer(true))
  {
    if requests != [] && |requests| < 4 {
      var reply := ReplyTo(net, requests, |requests| - 1);
      assert reply.Broken? ==> forall url :: !Current(net, initial, requests, url);
    }
  }

  /** An address is reported as blocked exactly when the next URL names a literal that is not public, or a host
      without addresses or with one that is not. */
  lemma AddressBlockedIff(net: Network, policy: Policy, initial: Url, requests: seq<Request>, result: Result)
    requires Justified(net, policy, initial, requests, result) && |requests| <= 4
    ensures result == Failed(AddressBlocked) <==>
            && |requests| < 4
            && exists url ::
                 && Current(net, initial, requests, url) && Permitted(policy, url) && !Visited(requests, url.text)
                 && if net.ipFamily(url.hostname) != 0 then !net.isPublic(url.hostname)
                    else net.lookup(|requests|, url.hostname).Addresses?
                         && var found := net.lookup(|requests|, url.hostname).found;
                            found == [] || exists k | 0 <= k < |found| :: !net.isPublic(found[k].address)
  {}

  lemma PatternsMeaning(host: string, d: string)
    requires d != "" && d[0] != '*' && d[0] != '.'
    ensures Matches(host, d) <==> host == d
    ensures Matches(host, "." + d) <==> EndsWith(host, "." + d)
    ensures Matches(host, "*." + d) <==> EndsWith(host, "." + d)
  {
    assert ("*." + d)[1..] == "." + d;
    assert host == "*." + d ==> host[1..] == "." + d;
  }

  lemma PatternKept(pattern: string)
    requires Trimmed(pattern) && forall i | 0 <= i < |pattern| :: LowerChar(pattern[i]) == pattern[i]
    ensures Lower(Trim(pattern)) == pattern
  {
    TrimOfTrimmed(pattern);
  }

  /** A pattern `*.d` or `.d` stands for the names below `d`, a plain `d` for itself, whatever the host's case. */
  lemma HostPatterns(host: string, d: string)
    requires d != "" && d[0] != '*' && d[0] != '.' && !IsSpace(d[|d| - 1]) && !IsSpace(d[0])
    requires forall i | 0 <= i < |d| :: LowerChar(d[i]) == d[i]
    ensures MatchesHost(host, d) <==> Lower(host) == d
    ensures MatchesHost(host, "." + d) <==> EndsWith(Lower(host), "." + d)
    ensures MatchesHost(host, "*." + d) <==> EndsWith(Lower(host), "." + d)
  {
    PatternKept(d);
    PatternKept("." + d);
    PatternKept("*." + d);
    PatternsMeaning(Lower(host), d);
  }

  /** The pattern `*` stands for every host, an empty one for none. */
  lemma WildcardPatterns(host: string)
    ensures MatchesHost(host, "*") && !MatchesHost(host, "")
  {
    PatternKept("*");
    PatternKept("");
  }
}
