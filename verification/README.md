# Operloom: models and proofs of its protocol and validation code

This project models, in Dafny, the parts of Operloom whose correctness rests on state, interleaving or
parsing, and proves what they promise for every input and every run. `dafny verify dfyconfig.toml` checks
all of it. Each module models one piece of code; code that changes state step by step is a class or a method
with a loop, proved equal to a function of the old state, and the properties are proved of that function.

| module | what it models |
|---|---|
| `DeploymentGate` | the deployment gate as a world of deployer processes over one database: every SQL statement and provider call is one atomic step that may fail before it commits or lose its acknowledgement, and a process may stop anywhere; the invariant of all runs |
| `DeploymentSafety` | what the gate guarantees in every run: safety, ownership, retries, release, resume |
| `GateProgram` | the gate's functions with their `try` and `catch`, each proved to walk exactly the steps of `DeploymentGate` |
| `HandlerCheck` | the query of active handler versions, the paged compatibility check, the choice of run, SQL literals |
| `Serializable` | the depth-first manifest walk over a heap of shared objects |
| `PackSet` | whether a set of agent packs fits together, and what the tool runner may rely on then |
| `PublicAddress`, `PublicRanges` | IPv4 and IPv6 text, and which addresses count as public |
| `UrlWalk` | the bounded redirect walk against any resolver and any server |
| `CappedRead`, `Utf8`, `Utf8Chunks` | reading an HTTP body and a process's output up to a cap, chunk by chunk; UTF-8 with characters cut by a cap or torn by the chunks |
| `ManifestWriter` | many concurrent atomic manifest writes with partial writes and failures at every step |
| `RunnerCsv` | the quoted-cell reader and the CSV parser |
| `Containment` | two tests for "inside this directory" |
| `RecipeBudget` | the byte budget that all recipes of a tool call share |
| `LocalSetup`, `EnvFile` | filling the placeholders of the two local environment files, and of one such file |
| `Supervisor`, `ProcessList` | the process-group supervisor: stop, close, monitor, timers, parent exit; the reading of `ps` output |
| `ForkIdentity`, `MobileConfig`, `JsonTree` | configuring a fork's three JSON files, with writes that may fail in between, and checking them for drift; the mobile file alone; JSON trees and their differences |
| `Text` | the string and sequence functions these need |

Assumptions. The fence and generation rows behave as the triggers of `cloudflare/control-plane/schema.sql`
(lines 3677-3706) say: one fence row at most, an admission while a fence exists or from a Worker of another
generation is refused, setting `activate_on_release` installs the generation and removes the fence in one
step. An execution's pin never changes and a closed execution stays closed (lines 3367-3376). A fresh run
draws an unused id, and two live processes never share a deployment id. An artifact's own probe is a function
of artifact and pin, and a Worker admits only handlers of its own artifact. Temporary manifest names are
distinct from each other and from every name asked for. Different path texts name different files. `Buffer`
replaces malformed UTF-8 as section 3.9 of the Unicode Standard recommends.

Findings. Places where the code does less, or relies on more, than its surroundings suggest:

- A failed acquisition leaves the fence up exactly when its INSERT took the row, because INSERT and
  confirmation run outside the `try` (`AcquireFailureKeepsFenceIff`).
- Whether packs are accepted can depend on their order: `requireUnique` forgets an owner with an empty name.
  Order does not matter exactly when whatever two modules share belongs, for both, to the empty name
  (`AcceptedInEveryOrderIff`, `OrderIsFreeIff`); `EmptyOwnerDependsOnOrder` gives two modules for which it does.
- Every chunk of a process's output is turned into text by itself, so a character torn by the chunks is lost.
  The output is the capped text for every cap exactly when that does not show: within the cap no character
  is torn, or, over it, only U+FFFD follow a torn one (`CapComesOutIff`, `SplitCharacterComesOutWrong`). No
  character is torn exactly when every chunk ends where a character does (`WellFormedIffBetween`), as always
  for single-byte text (`SingleByteTextComesOut`).
- An inspection whose final release fails keeps its fence unless the DELETE committed, since `attempted` is
  already set then (`InspectionKeepsFenceIff`).
- A body that exactly fills its cap is reported truncated if an empty chunk follows (`FalseAlarmIff`): the
  reader relies on HTTP streams not to emit empty chunks, and Node's do not.
- A second local setup reports work again when a made-up value is itself a placeholder (`SecondRunIff`); with
  a placeholder for a user id so does every later one (`PlaceholderUserIdIsNeverSettled`).
- Drift checking does not see array items beyond the expected ones (`LongerArraysPass`).
- `--release` installs an artifact that this process did not check; it is still safe, because the run that
  uploaded it did (`GenerationRetainsActiveWork`).

## Model

| member | source | states |
|---|---|---|
| DeploymentGate.EventKeeps | scripts/durable-deployment-gate.ts:66-90 | every event (launch, one statement of one process with any outcome, crash, admission, execution change) keeps the invariant: whoever holds the fence owns it, checked points still retain all active work, the fence row's artifact retains it once uploaded, the generation retains it |
| DeploymentGate.RunKeeps | scripts/durable-deployment-gate.ts:66-90 | the invariant holds after every run of any number of deployers from an empty gate |
| DeploymentGate.StepHolds | scripts/durable-deployment-gate.ts:75-88 | the fence is held without a gap: if a process's own fence is up at every point that needs it, it is so after its next statement |
| DeploymentGate.StepFromCheck | scripts/durable-deployment-gate.ts:79-81 | the load keeps exactly the pins active then, and a run gets past the check only when its artifact supports every pin it loaded; a `--release` run activates only what was seen uploaded |
| DeploymentGate.StepUploads | scripts/durable-deployment-gate.ts:82-87 | a step after which a run may still release its fence uploads nothing and does not start an activating `deploy` |
| DeploymentGate.StepOnRows | scripts/durable-deployment-gate.ts:30-52 | a statement changes the generation only to the process's own fence that was up, and takes down only its own fence, by activation or before any upload |
| DeploymentGate.AdmissionKeeps | cloudflare/control-plane/schema.sql:3698-3703 | an admission that the triggers let through keeps the invariant: no process is then between its check and its activation |
| DeploymentGate.RetiringKeeps | cloudflare/control-plane/schema.sql:3367-3376 | executions that start, close or disappear keep the invariant |
| DeploymentSafety.GenerationRetainsActiveWork | scripts/durable-deployment-gate.ts:75-89 | in every reachable state, also after `--release`, each pending or started execution has a pin that the active generation's artifact retains |
| DeploymentSafety.OnlyOwnerRemovesFence | scripts/durable-deployment-gate.ts:30-52 | a fence disappears only by a step of the run that owns it: activated, or released with nothing uploaded and nothing attempted under it |
| DeploymentSafety.ActivatesOnceAndOnlyOwnFence | scripts/durable-deployment-gate.ts:37-52 | the generation changes only when its own run turns its own fence into it; no deployment becomes the generation twice, so a superseded one cannot come back |
| DeploymentSafety.ActivatedIsHistory | scripts/durable-deployment-gate.ts:37-52 | the recorded activations are exactly the generations the run has had at some moment |
| DeploymentSafety.RunRowsOk | scripts/durable-deployment-gate.ts:5-52 | in every reachable state the fence and the generation are valid deployments, and the generation is one that had been uploaded |
| DeploymentSafety.ReturnMeansCommitted | scripts/durable-deployment-gate.ts:37-52 | a normal return of an activating run means its activation is committed and its fence is down |
| DeploymentSafety.InspectionLeavesNothing | scripts/durable-deployment-gate.ts:81-88 | a normal return of an inspection means its fence was up and is gone, nothing was uploaded, attempted or ever activated under it, and the generation is unchanged |
| DeploymentSafety.InspectionKeepsFenceIff | scripts/durable-deployment-gate.ts:81-88 | the end of an inspection, whatever others do between its two statements: it returns exactly when both are acknowledged, and its fence stays exactly when the DELETE did not commit |
| DeploymentSafety.AttemptedFenceStays | scripts/durable-deployment-gate.ts:81-88 | once a run has started `deploy`, its fence stays in every continuation until it has been the generation |
| DeploymentSafety.PreflightFailureReleases | scripts/durable-deployment-gate.ts:86-88 | a run that fails before `deploy` and whose release statements are acknowledged leaves the fence table empty, whatever others do in between |
| DeploymentSafety.AcquireFailureKeepsFenceIff | scripts/durable-deployment-gate.ts:12-17 | whatever others do between the two statements: acquisition succeeds exactly when the INSERT took the row and both were acknowledged, and the fence is up afterwards exactly when the INSERT took the row |
| DeploymentSafety.RetryChangesNothing | scripts/durable-deployment-gate.ts:42-48 | after a lost activation acknowledgement, `--release` returns normally and `--resume` fails, and neither changes the site |
| DeploymentSafety.ResumeCompletes | scripts/durable-deployment-gate.ts:75-85 | no crash wedges the gate: resuming the same artifact with every statement acknowledged activates it, if it retains the active work and that is within the inspection limit |
| DeploymentSafety.FreshCompletes | scripts/durable-deployment-gate.ts:75-85 | a fresh run on an unused id, with the gate free, the artifact retaining the active work, at most 1000 active pins and eleven acknowledged statements, uploads, activates and returns, and changes nothing else |
| DeploymentSafety.InspectionCompletes | scripts/durable-deployment-gate.ts:75-85 | with ten acknowledged statements an inspection returns and leaves the site as it was |
| DeploymentSafety.FreshFails | scripts/durable-deployment-gate.ts:66-90 | a fresh run whose statement after the first k fails or loses its acknowledgement, for every k: where it goes on, whether its fence is up, what is uploaded and what the generation is |
| DeploymentSafety.InspectionFails | scripts/durable-deployment-gate.ts:66-90 | the same of an inspection, which only ever puts up its fence and takes it down |
| DeploymentSafety.ReleaseCompletes | scripts/deploy-durable-runtime.ts:173-178 | `--release` of a fence that is up and was uploaded activates it in four acknowledged statements and changes nothing else |
| DeploymentSafety.FencesThatAreValid | scripts/durable-deployment-gate.ts:5-11 | a fence is valid exactly when its id is 1 to 80 letters, digits and hyphens and its hash 64 lower-case hexadecimal digits; a UUID with a SHA-256 is one |
| DeploymentSafety.AdmittedIff | cloudflare/control-plane/schema.sql:3698-3703 | a new execution is admitted exactly when no fence is up, its Worker is of the current generation if there is one, and that Worker supports its pin |
| DeploymentSafety.ExecutionsOnlyAdvance | cloudflare/control-plane/schema.sql:3367-3376 | whatever happens, an execution keeps its pin, never goes back and stays closed once closed; it goes on, ends and disappears when asked to |
| GateProgram.RunReplaysProgram | scripts/durable-deployment-gate.ts:66-90 | every process of every run is its own program, replayed on what the run hands it |
| GateProgram.Deployer.RequireDeploymentFence | scripts/durable-deployment-gate.ts:18-29 | one step of the replay: on to the next statement if the row is this fence, to the `catch` or the end otherwise |
| GateProgram.Deployer.AcquireDeploymentFence | scripts/durable-deployment-gate.ts:12-17 | walks INSERT and confirmation as the step protocol does |
| GateProgram.Deployer.ReleaseDeploymentFence | scripts/durable-deployment-gate.ts:30-35 | walks ownership check and guarded DELETE |
| GateProgram.Deployer.ActivateDeploymentFence | scripts/durable-deployment-gate.ts:37-52 | walks the generation read and the ownership check; on to the guarded UPDATE, or done at once if this fence is the generation already |
| GateProgram.Deployer.InstallGeneration | scripts/durable-deployment-gate.ts:49-51 | walks the guarded UPDATE |
| GateProgram.Deployer.LoadRequiredDurableHandlers | scripts/durable-deployment-gate.ts:54-63 | the pins it returns are those the protocol's process then checks |
| GateProgram.Deployer.Prepare | scripts/durable-deployment-gate.ts:78-81 | ends ready to deploy, or at the `catch`: release for a fresh run, failure for a resumed one |
| GateProgram.Deployer.Complete | scripts/durable-deployment-gate.ts:82-85 | deploy, verify, then release for an inspection and activation otherwise |
| GateProgram.Deployer.WithDurableDeploymentGate | scripts/durable-deployment-gate.ts:66-90 | the whole gate, `try`, `catch` and all, ends in exactly the site and the outcome of the step protocol on the same script |
| GateProgram.Deployer.ReleaseUncertainDeployment | scripts/deploy-durable-runtime.ts:173-178 | the `--release` run does the same: verify, then activate |
| GateProgram.Deployer.Verify | scripts/deploy-durable-runtime.ts:145-172 | passes only when some uploaded Worker reports the deployment id; an inspection passes without looking |
| HandlerCheck.LoadPins | scripts/durable-deployment-gate.ts:54-63 | refuses exactly when more than 1000 distinct pins are active, otherwise returns exactly the active pins, each once |
| HandlerCheck.CheckCompatibility | scripts/deploy-durable-runtime.ts:257-284 | the pages submitted are the pins in order; success exactly when every page was accepted in full; otherwise it names the first page that is malformed or the first pin that was refused |
| HandlerCheck.PagesAreHundreds | scripts/deploy-durable-runtime.ts:257-284 | page k holds the pins from 100 k on, a hundred of them unless it is the last |
| HandlerCheck.PagingLosesNothing | scripts/deploy-durable-runtime.ts:257-284 | against a candidate that answers by its own support, paging accepts exactly the lists it supports entirely |
| HandlerCheck.LoadAndCheck | scripts/deploy-durable-runtime.ts:257-284 | loading the pins and submitting them page by page to a candidate that answers by its own support passes exactly when the limit holds and the artifact retains all active work, as the gate's check does |
| HandlerCheck.GateChecksIff | scripts/durable-deployment-gate.ts:79 | the load and check statements of the gate let a run pass exactly when the inspection limit holds and the artifact retains all active work |
| HandlerCheck.RefusalNamesFirst | scripts/deploy-durable-runtime.ts:277-283 | the pin a refusal names is the first unsupported one of the whole list |
| HandlerCheck.RunsOnGivenIdsNeverInsert | scripts/deploy-durable-runtime.ts:45-65 | only a run on a newly drawn id inserts a fence; an inspection never names an existing deployment |
| HandlerCheck.FlagsSelect | scripts/deploy-durable-runtime.ts:45-65 | each of the four kinds of run is selected by exactly its flags, and on exactly its id |
| HandlerCheck.LiteralReadsBack | scripts/durable-deployment-gate.ts:4 | an SQL literal reads back as its value and ends where it was written, for every value |
| Serializable.Walk.Visit | agent-packs/index.ts:68-89 | terminates on every finite heap; accepts exactly the values clean of non-JSON leaves and of objects on the current path; every normal return restores `seen` |
| Serializable.AssertSerializable | agent-packs/index.ts:66-91 | accepts exactly when no reachable leaf is non-JSON and no reachable object is on a cycle; its complaint is about something that is there |
| Serializable.CleanIffSerializable | agent-packs/index.ts:66-91 | what the walk avoids path by path is the same as having no reachable non-JSON leaf and no reachable cycle, so shared acyclic objects pass |
| PackSet.RequireUnique | scripts/agent-pack-compiler.ts:183-187 | with the map of all earlier claims, refuses exactly a claim that clashes with an earlier non-empty owner |
| PackSet.CheckTools | scripts/agent-pack-compiler.ts:387-573 | accepts exactly when no tool or runner tool id repeats, every tool is sound and bound as its transport says, and every runner tool is declared and executable |
| PackSet.ValidateModule | scripts/agent-pack-compiler.ts:201-731 | after acceptable modules, accepts exactly when the set with this module is acceptable, and then holds the four maps of that set |
| PackSet.ValidateLoadedModules | scripts/agent-pack-compiler.ts:189-733 | accepts exactly the acceptable sets: every module sound, no identifier claimed twice in its family |
| PackSet.AcceptedIffEachAndApart | scripts/agent-pack-compiler.ts:189-733 | with non-empty names, a set is accepted exactly when each module is accepted alone and no two share a pack, tool, workflow or artifact identifier |
| PackSet.AcceptedIffFieldsFree | scripts/agent-pack-compiler.ts:183-733 | for any names, on the fields: a set is accepted exactly when each module is accepted alone and no later module repeats a pack id, a tool id, a workflow kind or a renderer artifact kind of an earlier one that has a name |
| PackSet.AcceptedAloneIff | scripts/agent-pack-compiler.ts:201-731 | one module is accepted exactly when, field by field, its own checks pass, its tools and runner tools are bound one to the other, declared and workflow tools are its own, and no kind comes twice |
| PackSet.SharedKindsAreRefused | scripts/agent-pack-compiler.ts:589-664 | two packs with one artifact kind in common, and two with one workflow kind, each accepted alone and refused together |
| PackSet.AcceptedIffEachInOrder | scripts/agent-pack-compiler.ts:183-733 | for any names: a set is accepted exactly when each module is accepted alone and no module claims what an earlier one owns under a non-empty name |
| PackSet.AcceptedInAnyOrder | scripts/agent-pack-compiler.ts:189-733 | with non-empty names, acceptance does not depend on module order, nor on leaving modules out |
| PackSet.AcceptedInEveryOrderIff | scripts/agent-pack-compiler.ts:183-733 | a set is accepted in every order exactly when each module is accepted alone and whatever two modules share belongs, for both, to the empty name |
| PackSet.OrderIsFreeIff | scripts/agent-pack-compiler.ts:183-187 | an accepted set is accepted in every order and every selection exactly when each identifier that two modules share is owned by the empty name |
| PackSet.EmptyOwnerDependsOnOrder | scripts/agent-pack-compiler.ts:184-185 | a nameless and a named pack with one tool id in common: accepted in one order, refused in the other |
| PackSet.RunnerToolsAreTheFlyTools | scripts/agent-pack-compiler.ts:528-573 | in any accepted set the runner tools of each module are its `fly` tools, one for one, with equal contracts; two modules' runner tools share a name only if the earlier one's pack id is empty |
| PackSet.BindingsBijective | scripts/agent-pack-compiler.ts:528-573 | a runner tool belongs to one declared tool only, and the other way round |
| PackSet.FindRunnerTool | runner/server.ts:587-592 | finds the runner's first match in any accepted set; it is the only possible one unless its module's pack id is empty |
| PublicAddress.DottedReads | scripts/public-url-inspect.ts:34-40 | the decimal text of four bytes reads as those bytes |
| PublicAddress.PushGroups | scripts/public-url-inspect.ts:57-63 | the loop pushes the two bytes of every group, or refuses |
| PublicAddress.ReadIpv6 | scripts/public-url-inspect.ts:42-64 | the whole reader computes the specification of which the next rows speak |
| PublicAddress.SpellingReads | scripts/public-url-inspect.ts:42-64 | every spelling of section 2.2 of RFC 4291 (full, one `::`, dotted tail, leading zeros, either case, with or without a zone) reads as the address it stands for |
| PublicAddress.SpelledGroupIff | scripts/public-url-inspect.ts:57-63 | a group is one to four hexadecimal digits of either case |
| PublicAddress.EveryAddressIsSpelled | scripts/public-url-inspect.ts:42-64 | every 16-byte address has such a spelling |
| PublicRanges.Ipv6BytesCount | scripts/public-url-inspect.ts:42-64 | whatever is read is sixteen bytes |
| PublicRanges.SpellingsClassifyAlike | scripts/public-url-inspect.ts:66-100 | every spelling gets the verdict of its bytes; an IPv4-mapped one gets the verdict of its IPv4 address |
| PublicRanges.DottedClassifies | scripts/public-url-inspect.ts:66-88 | a dotted address gets the verdict of its bytes |
| PublicRanges.Public4IffOutsideBlocks | scripts/public-url-inspect.ts:72-87 | the IPv4 byte tests hold exactly outside the fourteen CIDR blocks they encode |
| PublicRanges.Public6IffInBlocks | scripts/public-url-inspect.ts:92-97 | the IPv6 byte tests are 2000::/3 without 2001:db8::/32, and the mapped test is ::ffff:0:0/96 |
| UrlWalk.Objection | scripts/public-url-inspect.ts:214-267 | no objection exactly when scheme, protocol, credentials, port, denied and allowed hosts all permit the URL |
| UrlWalk.ObjectionCodes | scripts/public-url-inspect.ts:214-267 | each refusal code is given exactly when its own test is the first to fail |
| UrlWalk.PolicyTests | scripts/public-url-inspect.ts:214-267 | what the tests of scheme, port, denied and allowed hosts ask, on the lists of the policy |
| UrlWalk.HostPatterns | scripts/public-url-inspect.ts:23-32 | a plain pattern matches its own name only, `*.d` and `.d` exactly the names below `d`, whatever the host's case |
| UrlWalk.WildcardPatterns | scripts/public-url-inspect.ts:23-32 | `*` stands for every host, an empty pattern for none |
| UrlWalk.Resolve | scripts/public-url-inspect.ts:128-138 | an address that is used passed the public test |
| UrlWalk.ResolveIff | scripts/public-url-inspect.ts:128-138 | a literal address is used exactly when it is public; a host is used exactly when its lookup found addresses and all of them are public, and then the first is |
| UrlWalk.Consider | scripts/public-url-inspect.ts:214-275 | admits only a permitted, unvisited URL with the address it resolved to in this iteration; otherwise the code is the first failing test's, and a lookup that fails after the time limit is a timeout |
| UrlWalk.React | scripts/public-url-inspect.ts:282-338 | follows only a redirect to a web URL within the limit; otherwise the result is the one its reply calls for, and a location that does not parse after the time limit is a timeout |
| UrlWalk.InspectPublicUrl | scripts/public-url-inspect.ts:202-376 | against any network: at most four requests, each following the last one's redirect after passing every test, and an ending that its last reply or next URL justifies; the statement after the loop is unreachable |
| UrlWalk.RequestsAreDistinct | scripts/public-url-inspect.ts:268-274 | no URL is requested twice |
| UrlWalk.RequestsArePublicAndPermitted | scripts/public-url-inspect.ts:214-281 | every request went to a URL the policy permits and to an address that passed the public test |
| UrlWalk.RequestsArePinned | scripts/public-url-inspect.ts:128-138 | for every request to a name, the lookup of that step found addresses, all public, and the first was used; a literal was used itself |
| UrlWalk.RequestsAvoidBlocks4 | scripts/public-url-inspect.ts:66-138 | with the address test of this file, no request goes to a dotted address inside any of the fourteen blocks |
| UrlWalk.RequestsAvoidBlocks6 | scripts/public-url-inspect.ts:90-138 | with the address test of this file, a request to any spelling of an IPv6 address goes into 2000::/3 and not into the documentation block, or to an IPv4-mapped address whose IPv4 part lies outside all fourteen blocks |
| UrlWalk.RedirectedBetween | scripts/public-url-inspect.ts:282-311 | each later request is where the reply before it redirected to |
| UrlWalk.LimitMeansFourRedirects | scripts/public-url-inspect.ts:293-298 | the limit is reported exactly for four requests all redirected somewhere |
| UrlWalk.TimedOutIff | scripts/public-url-inspect.ts:345-370 | the timeout code is given exactly when the limit had passed at the last reply, at the location it gave, or at the next lookup |
| UrlWalk.AddressBlockedIff | scripts/public-url-inspect.ts:345-355 | the blocked-address code is given exactly when the next URL is a literal that is not public, or a host without addresses or with one that is not |
| UrlWalk.WalkIsDetermined | scripts/public-url-inspect.ts:202-376 | the specification leaves no choice: the same network gives the same requests and result |
| CappedRead.BodyReader.OnData | scripts/public-url-inspect.ts:166-181 | keeps the body equal to the first bytes of everything received, and the flag to its exact meaning |
| CappedRead.ReadResponse | scripts/public-url-inspect.ts:151-184 | any stream ends as its first min(total, cap) bytes |
| CappedRead.TruncatedIffOverCap | scripts/public-url-inspect.ts:166-181 | with non-empty chunks, truncation is reported exactly when the total exceeds the cap |
| CappedRead.FalseAlarmIff | scripts/public-url-inspect.ts:168-173 | for all chunkings the report is right unless an empty chunk ends a stream of exactly the cap |
| CappedRead.EmptyChunkFalseAlarm | scripts/public-url-inspect.ts:168-173 | for every cap: a stream that fills it, followed by an empty chunk, is reported truncated |
| CappedRead.RecapIsCap | runner/recipes.ts:27-32 | capping text that was capped before, marker, cut character and all, is capping the whole once |
| CappedRead.CapKeeps | runner/recipes.ts:27-32 | a capped text is the longest beginning whose UTF-8 fits the cap, U+FFFD if a character was cut, and the marker |
| CappedRead.ProcessOutput.OnData | runner/recipes.ts:116-125 | after any chunks of either stream the fields are what capping each whole stream once gives |
| CappedRead.CollectAll | runner/recipes.ts:108-125 | any interleaving of both streams, in bytes, ends as one cap of each, with truncation exactly when one was cut; if no chunk ends inside a character these are caps of the whole streams read at once, for every cap |
| CappedRead.WellFormedComesOut | runner/recipes.ts:116-125 | if every chunk is well formed, the output is one cap of the whole stream read at once, for every cap |
| CappedRead.SingleByteTextComesOut | runner/recipes.ts:108-125 | single-byte text comes out as one cap of the whole however it is cut into chunks, for every cap |
| CappedRead.CapComesOutIff | runner/recipes.ts:116-125 | for every text and every cap: the output is one cap of the text exactly when, within the cap, no character is torn, or, for a longer text, a torn one is followed there, itself included, by U+FFFD only |
| CappedRead.PlainCapComesOutIff | runner/recipes.ts:116-125 | for a text without U+FFFD and every cap: the output is one cap of the text exactly when no character lying whole within the cap is torn |
| Utf8.CutReads | runner/recipes.ts:27-32 | any first bytes of a text's UTF-8 read as its whole characters and one U+FFFD for a cut one, whatever their lengths |
| Utf8.ChunksReadIff | runner/recipes.ts:117 | reading UTF-8 chunk by chunk gives the text of the whole exactly when every chunk is well formed by itself |
| Utf8Chunks.WellFormedIffBetween | runner/recipes.ts:117 | the chunks of a text's UTF-8 are all well formed exactly when each ends where a character does, exactly when they tear none, and exactly then they read as the text |
| Utf8Chunks.FirstBytesComeOutIff | runner/recipes.ts:27-32 | the first bytes of what the chunks read as are those of the text exactly when no torn character shows there |
| CappedRead.TextComesOutIff | runner/recipes.ts:116-125 | a stream that is the UTF-8 of a text comes out as that text and not truncated exactly when it is within the cap and every chunk is well formed |
| CappedRead.SplitCharacterComesOutWrong | runner/recipes.ts:116-120 | a two-byte character in two chunks comes out as two marks, and counts six bytes towards the cap |
| ManifestWriter.TemporaryIsNotManifest | scripts/atomic-dev-manifests.ts:11-15 | a temporary name is never itself a manifest name |
| ManifestWriter.ManifestIff | scripts/atomic-dev-manifests.ts:11 | a path is a manifest exactly when its last segment has `manifest` in it and then ends in `.json` or `.js` with no line end between |
| ManifestWriter.AtomicWriter.WriteFile | scripts/atomic-dev-manifests.ts:10-16 | a manifest is written under its temporary name, anything else under its own |
| ManifestWriter.AtomicWriter.OnWritten | scripts/atomic-dev-manifests.ts:16-21 | the callback of the write: rename, or unlink on an error; other files report at once |
| ManifestWriter.AtomicWriter.OnRenamed | scripts/atomic-dev-manifests.ts:21-24 | the callback of the rename: unlink on an error, else success |
| ManifestWriter.AtomicWriter.OnUnlinked | scripts/atomic-dev-manifests.ts:18-22 | the error is reported whether or not the unlink worked |
| ManifestWriter.EventKeeps | scripts/atomic-dev-manifests.ts:9-27 | every step of every call keeps: scratch files hold exactly what their call wrote, every manifest holds the last installed data, the record is in order |
| ManifestWriter.AnythingMayFail | scripts/atomic-dev-manifests.ts:16-24 | at every moment the file system may write any part of what is left, fail, and rename or unlink with or without success |
| ManifestWriter.ManifestsAreWhole | scripts/atomic-dev-manifests.ts:8-27 | at any moment a manifest holds its initial content or, whole, the data of the last call that replaced it |
| ManifestWriter.CallbackRunsOnce | scripts/atomic-dev-manifests.ts:16-25 | each call runs its callback once, when it has finished |
| ManifestWriter.SuccessMeansInstalled | scripts/atomic-dev-manifests.ts:21-24 | success is reported only after this call's own data became the target |
| ManifestWriter.SuccessLeavesNothing | scripts/atomic-dev-manifests.ts:21-24 | a successful call leaves no temporary file |
| ManifestWriter.FailureIsCleanedUp | scripts/atomic-dev-manifests.ts:16-24 | a call reports an error exactly as its write or rename failed with it; one on a manifest has then asked for its temporary file to be unlinked, and if that worked there is none left; no other call unlinks |
| ManifestWriter.CallsAdvance | scripts/atomic-dev-manifests.ts:15-25 | no call on a manifest is ever stuck, and every step brings it nearer to its callback |
| RunnerCsv.Cells | runner/recipes.ts:492-510 | the loop computes the recursive reader |
| RunnerCsv.QuotesInside | runner/recipes.ts:498-504 | on any line: each pair of a run of quotes inside a part is one quote, an odd one ends the part |
| RunnerCsv.QuotesOutside | runner/recipes.ts:498-504 | on any line: the first quote of a run outside quotes opens a part, the rest are inside it |
| RunnerCsv.OtherCharacter | runner/recipes.ts:505-508 | on any line: a character that is no quote belongs to the cell, except a comma outside quotes, which ends it |
| RunnerCsv.RowReadsBack | runner/recipes.ts:492-510 | every printing of a row, each field quoted or bare, reads back as its values |
| RunnerCsv.TableReadsBack | runner/recipes.ts:489-517 | a table printed as section 2 of RFC 4180 allows parses to the records of its rows, up to 5000, for both line ends |
| RunnerCsv.BlankLinesAreDropped | runner/recipes.ts:490 | blank lines anywhere in a table change nothing |
| RunnerCsv.BlankTextIsEmpty | runner/recipes.ts:490-491 | a text of blank lines has no records |
| RunnerCsv.EntriesMean | runner/recipes.ts:512-517 | a row of any width has the names of the header and column numbers beyond it; of equal names the last cell counts |
| RunnerCsv.QuotedRowIsNotBlank | runner/recipes.ts:490 | a row that starts with a quoted field is never dropped as blank |
| Containment.PrefixTestIffSegments | runner/recipes.ts:59-64 | the string-prefix test holds exactly when the root's segments begin the candidate's |
| Containment.RelativeTestIffSegments | scripts/agent-pack-compiler.ts:42-45 | so does the relative-path test, including root `/` and names such as `..foo` |
| Containment.TestsAgree | scripts/agent-pack-compiler.ts:42-45 | both tests agree on all normalised absolute paths |
| Containment.InsideRootNeverEscapes | runner/recipes.ts:59-64 | for any text offered, the result is the normalised target if it lies in the root and a refusal otherwise |
| Containment.ResolveInSteps | runner/recipes.ts:59-64 | a relative text is resolved up to a slash, and the rest from there |
| Containment.ResolveOne | runner/recipes.ts:59-64 | a name goes down, `.` and the empty text stay, `..` goes up and stays at the top |
| Containment.ResolveAbsolute | runner/recipes.ts:59-64 | a normalised absolute path denotes itself |
| Containment.UpIsOutside | runner/recipes.ts:59-64 | a sibling of the root reached by `..` is refused, a name below the root is returned |
| RecipeBudget.Recipes.Charge | runner/recipes.ts:584-592 | records the entry first and refuses when the sum with it is over the budget |
| RecipeBudget.Recipes.Run | runner/recipes.ts:594-612 | one recipe call is one step of the books; a recipe that throws is not charged |
| RecipeBudget.Recipes.Stage | runner/recipes.ts:614-624 | stages the artifact only when its charge is accepted |
| RecipeBudget.CallsAreCharged | runner/recipes.ts:584-624 | each kind of call on the books and in its reply: its bytes, not its duration, are charged, and a call that fails first charges nothing |
| RecipeBudget.TotalBytesOf | runner/recipes.ts:584-592 | the running total grows by the bytes of a finished recipe and the size of an upload, and by nothing else |
| RecipeBudget.BooksAreTheCalls | runner/recipes.ts:580-627 | over any calls the books hold every charge in order, refused or not, and the staged artifacts are those affordable when they came |
| RecipeBudget.ReturnsIffWithinBudget | runner/recipes.ts:584-592 | a charge returns normally exactly when the running total including it is within the budget |
| RecipeBudget.OverStaysOver | runner/recipes.ts:586-590 | after one refusal every later charge is refused |
| RecipeBudget.StagedWithinBudget | runner/recipes.ts:613-624 | the artifacts staged never exceed the budget in bytes |
| EnvFile.SetPlaceholderValue | scripts/workbench-init.ts:29-47 | finds the first line of the key and replaces it only if its value is missing, a placeholder or retired |
| EnvFile.PlaceholderMeans | scripts/workbench-init.ts:21-22 | nothing, white space and what starts with `replace-with-` is a placeholder, and nothing else |
| EnvFile.WriteConfiguredFile | scripts/workbench-init.ts:49-65 | applies the settings in order, writes only if something differs, ends a written file with a line feed |
| EnvFile.WrittenMeans | scripts/workbench-init.ts:62-63 | a changed file is given a line feed exactly when it has none at its end |
| LocalSetup.Workbench.Initialize | scripts/workbench-init.ts:73-136 | creates missing files from the examples and configures both from the values chosen before either is written |
| EnvFile.SetRead | scripts/workbench-init.ts:24-47 | after setting a key every key reads as before, except this one if it was due |
| EnvFile.FirstLine | scripts/workbench-init.ts:36-46 | the line found is the first of its key; replacing it leaves all other lines, and a missing key becomes a new last line |
| EnvFile.ConfiguredAreDue | scripts/workbench-init.ts:49-65 | the keys reported are exactly those whose value was missing, a placeholder or retired, in order |
| LocalSetup.SecondRunIff | scripts/workbench-init.ts:92-136 | a second run configures nothing exactly when every value the first had to make up is real; then both files stay byte for byte the same |
| LocalSetup.SettledForGood | scripts/workbench-init.ts:92-136 | once that holds, every later run, whatever it draws, configures nothing and leaves both files as the first run left them |
| LocalSetup.PlaceholderUserIdIsNeverSettled | scripts/workbench-init.ts:116 | a user id that is itself a placeholder is reported as configured by every run, the first, the second and the n-th |
| LocalSetup.PlaceholderUserExists | scripts/workbench-init.ts:116 | there are such files |
| LocalSetup.RealValuesKept | scripts/workbench-init.ts:41-44 | no real value of any key is overwritten, except the retired runner transport |
| LocalSetup.SecretsAgreeIff | scripts/workbench-init.ts:67-71 | each shared secret ends equal in both files exactly unless both held differing real values |
| LocalSetup.InterruptedSetup | scripts/workbench-init.ts:110-136 | that second run finds nothing to do in the first file exactly when the first run had real values to put, and then ends with the files of one uninterrupted run that drew the second run's connection secret |
| LocalSetup.InterruptedSecretsAgreeIff | scripts/workbench-init.ts:110-136 | if setup stopped between its two writes and runs again, with other draws, each shared secret ends equal under the same condition |
| LocalSetup.UserBecomesAdmin | scripts/workbench-init.ts:116 | the administrator becomes the local user, or the default user, exactly when there was no real one |
| LocalSetup.EveryKeyRead | scripts/workbench-init.ts:110-136 | what every key of both files reads afterwards: its chosen value if it was due, the old value otherwise |
| LocalSetup.FrontendReads | scripts/workbench-init.ts:110-117 | the same of the frontend's file |
| LocalSetup.WorkerReads | scripts/workbench-init.ts:118-136 | key by key, what the Worker's file reads afterwards: its own value where a placeholder was, the transport also where the retired one was, and the old value for every other key |
| LocalSetup.ChosenValues | scripts/workbench-init.ts:92-116 | each secret is the real one of the frontend's file, else of the Worker's, else new; the connection secret is the Worker's own or new; the user is the Worker's or the default |
| LocalSetup.ReportedIff | scripts/workbench-init.ts:110-136 | a key is reported for a file exactly when it is one that is set there and held a placeholder, or the retired transport |
| LocalSetup.LocalWorkerReads | scripts/workbench-init.ts:118-131 | the Worker's file of this repository by names and values: enabled, environment, transport, runner and callback URL |
| LocalSetup.SecretsAreShared | scripts/workbench-init.ts:67-127 | a secret of both files is kept where it is real, else taken from the other file, else new; the connection secret is kept or new |
| LocalSetup.LocalSecretsAreShared | scripts/workbench-init.ts:92-127 | the same of the four secrets, by name |
| LocalSetup.LocalAdministrator | scripts/workbench-init.ts:116 | the same of the administrator, and the provider key, which setup never sets |
| LocalSetup.LocalIsFixed | scripts/workbench-init.ts:110-136 | the names and defaults of the source meet what these results ask of names and defaults |
| Supervisor.ManagedProcess.SignalGroup | scripts/managed-process.ts:48-72 | sends one signal if there is a process; a group that is gone, by the error or by the listing of groups, is no failure, and only the first failure to deliver becomes the reason |
| Supervisor.ManagedProcess.Stop | scripts/managed-process.ts:77-86 | the first call records its failure, ends the polling, sends SIGTERM and arms the force timer; later calls do nothing |
| Supervisor.ManagedProcess.OnClose | scripts/managed-process.ts:92-101 | a close stops a group that is not stopping and arms the completion timer |
| Supervisor.ManagedProcess.OnFinish | scripts/managed-process.ts:96-101 | disarms the force timer, sends SIGKILL, drops the exit listener, resolves with reason and peaks |
| ProcessList.Measure | scripts/managed-process.ts:119-123 | counts and sums the lines of the `ps` text whose group is this one and whose memory is a number |
| ProcessList.MemoryMeans | scripts/managed-process.ts:119-123 | the memory added up is that of exactly the rows of the group that say it, in order |
| ProcessList.LineReadsBack | scripts/managed-process.ts:119-123 | a line with a group and its memory, however padded and aligned, is read as those two |
| ProcessList.ShortLines | scripts/managed-process.ts:119-123 | a line of one word says no memory, a blank one no group |
| Supervisor.ManagedProcess.OnPoll | scripts/managed-process.ts:109-131 | a poll ignored while stopping, a failed one counted, a listing measured against both limits |
| Supervisor.ManagedProcess.OnParentExit | scripts/managed-process.ts:74-75 | kills the group while the listener is there |
| Supervisor.EventKeeps | scripts/managed-process.ts:77-133 | every event keeps the record of signals, timers, poll failures and peaks consistent |
| Supervisor.CompletionSignals | scripts/managed-process.ts:77-102 | once completion has resolved the group has had exactly SIGTERM, SIGKILL at least 1000 ms later and SIGKILL at least 1050 ms later, and gets nothing more |
| Supervisor.TimersAreArmed | scripts/managed-process.ts:77-101 | a stop that acts sends SIGTERM and arms the force timer for 1000 ms later, a close the completion timer for 1050 ms later |
| Supervisor.OneTerm | scripts/managed-process.ts:77-86 | while the parent lives: one SIGTERM once `stop` has first acted and no signal before, however often it is asked |
| Supervisor.FailureReported | scripts/managed-process.ts:69-101 | without a start error, completion reports the failure that stopped the group unless that is an empty text, or at most an undeliverable signal if there was none, and the peaks of all handled polls |
| Supervisor.UndeliveredReportedIff | scripts/managed-process.ts:48-72 | a group stopped without a failure reports none exactly when every signal sent was delivered or found the group gone, by `ESRCH` or by a listing without it after `EPERM`, else the code of the first that did neither |
| Supervisor.StopsBecause | scripts/managed-process.ts:77-131 | what stops a group and with which failure: being asked to, its close, a fifth failed poll, a poll over a limit |
| Supervisor.PollStopsIff | scripts/managed-process.ts:109-131 | a poll stops the group exactly when it is the fifth failure in a row or sees a limit exceeded |
| Supervisor.MonitoringGoesOn | scripts/managed-process.ts:109-131 | while the group runs, an interval with no poll under way begins one and changes nothing else; a poll that comes back is over, and is recorded unless the group is being stopped |
| Supervisor.PeaksAreLargest | scripts/managed-process.ts:124-125 | the peaks are the largest size and memory any handled poll saw |
| Supervisor.ExitKills | scripts/managed-process.ts:74-75 | the parent's exit kills the group unless completion has resolved |
| Supervisor.CloseCompletes | scripts/managed-process.ts:92-102 | after a close, once the delay is over the due timers in order resolve completion |
| ForkIdentity.Checkout.InitFork | scripts/workbench-fork.ts:123-169 | throws and writes nothing, or writes the expected files as JSON stores them, one after the other, until a write fails |
| ForkIdentity.Checkout.WriteFiles | scripts/workbench-fork.ts:165-167 | after any number of writes the first files are the new ones and the others the old ones; done exactly when all were written |
| ForkIdentity.WritesInTurn | scripts/workbench-fork.ts:165-167 | the files after 0, 1, 2 and 3 writes, with and without a mobile file |
| ForkIdentity.Checkout.CheckFork | scripts/workbench-fork.ts:153-163 | passes exactly when the identity can be computed and every file covers what it should hold |
| JsonTree.NoDifferenceIffCovers | scripts/workbench-fork.ts:103-121 | `differences` is empty exactly when the actual tree covers the expected one |
| JsonTree.LongerArraysPass | scripts/workbench-fork.ts:104-109 | extra items of an array are no difference |
| JsonTree.SpreadOfArray | scripts/workbench-fork.ts:79-119 | spreading an array gives its items by position, and an array also has its length |
| JsonTree.SpreadOfText | scripts/workbench-fork.ts:79-98 | spreading a text gives its characters by position |
| JsonTree.SpreadOfRest | scripts/workbench-fork.ts:79-98 | spreading an object gives its fields, and spreading nothing gives nothing |
| MobileConfig.MobileFixedIff | scripts/workbench-fork.ts:76-101 | configuring a mobile file changes nothing exactly when the identity already shows everywhere in it |
| MobileConfig.MobileIdempotent | scripts/workbench-fork.ts:76-101 | `expectedMobileConfig` is idempotent, also across a write and a read, for any JSON it accepts |
| MobileConfig.MobileKeepsTop | scripts/workbench-fork.ts:79-84 | of the mobile file and of `expo` in it every other key is kept |
| MobileConfig.MobileKeepsRest | scripts/workbench-fork.ts:85-98 | of `ios` and `android` every other key is kept |
| MobileConfig.FilterKeeps | scripts/workbench-fork.ts:93-98 | of an intent filter and of each of its data items everything is kept but the list itself and the host |
| MobileConfig.FiltersKeep | scripts/workbench-fork.ts:93-98 | the intent filters stay as many, each configured by itself and in order |
| ForkIdentity.ComputedAgain | scripts/workbench-fork.ts:123-145 | the identity computed from the written product file is the one that was written |
| ForkIdentity.InitThenCheck | scripts/workbench-fork.ts:123-169 | after a successful init, check finds no drift, for any three files and any inputs |
| ForkIdentity.OneIdentity | scripts/workbench-fork.ts:126-151 | after init the three files agree: package name and description, mobile name, slug, scheme, bundle and hosts are those of the product file |
| ForkIdentity.InputsShow | scripts/workbench-fork.ts:125-144 | the written product file has every input that was given, and every other value as it was |
| ForkIdentity.MobileInputsShow | scripts/workbench-fork.ts:133-139 | the written product file shows in its mobile part the name and bundle that were given or there, the id as slug, its scheme, and everything else as it was |
| ForkIdentity.WorkspaceInputsShow | scripts/workbench-fork.ts:140-143 | the written workspace is the agent pack and the agent limit that were given or there, and nothing else |
| ForkIdentity.PackageKeeps | scripts/workbench-fork.ts:151 | the written package file keeps every value but name and description |
| ForkIdentity.InputTexts | scripts/workbench-fork.ts:125-140 | which texts count as given, and as what |
| ForkIdentity.InitTwice | scripts/workbench-fork.ts:123-169 | a second init without inputs writes the same three files |
| ForkIdentity.InterruptedInit | scripts/workbench-fork.ts:165-167 | an init that stopped between its writes is completed by running it again with the same inputs |
| ForkIdentity.InitWithoutMobile | scripts/workbench-fork.ts:147-149 | without a mobile file, init fails exactly when the product file is no object or gives no valid identity with the inputs |
| ForkIdentity.AcceptedAsItIs | scripts/workbench-fork.ts:43-74 | a product file with mobile and workspace objects is accepted as it is exactly when its fields are valid, field by field |
| ForkIdentity.SchemeOfSlug | scripts/workbench-fork.ts:41-59 | the scheme derived from a slug is valid exactly when the slug begins with a letter |
| ForkIdentity.BundleIff | scripts/workbench-fork.ts:62 | a bundle identifier is three or more parts: the first a letter and then letters and digits, the others letters, digits and hyphens |
| ForkIdentity.SlugIff | scripts/workbench-fork.ts:46 | a slug is one small letter or digit, or a first and a last one with up to 61 of them or hyphens between |
| ForkIdentity.PackIdIff | scripts/workbench-fork.ts:65 | a pack id is a small letter and up to 63 small letters, digits and hyphens |
| ForkIdentity.CheckIffCovers | scripts/workbench-fork.ts:153-163 | the set of differences is computed and empty exactly when every file covers what it should hold |

## Left out

- Delayed effects: a statement takes effect, if at all, before its process goes on or ends; one that commits later, after its process has ended, is not modelled.
- GateProgram.Deployer.Verify: the 45 second deadline and the comparison of the release text are one nondeterministic observation; the probe reports the deployment id only, as the source's does.
- HandlerCheck.CheckCompatibility: starting and stopping the candidate Worker and the size of a request are left out; any failure there is a failed check of the gate.
- Evidence files, spawned commands, HTTP, DNS, clocks and the file system appear only through their outcomes.
- PackSet.CheckTools: a tool's schemas, mode and actions are one truth value for each place where the validator asks about them.
- PackSet.ValidateModule: semantic versions, schemas, settings, connections, actions, health and evaluation bindings are one truth value for each place where the validator asks about them; only identifier ownership, tool binding, workflow tools and renderers are spelled out.
- PackSet.ValidateLoadedModules: the same truth values, so it is exact on identifiers and bindings only.
- `validateLocalAgentPack` beyond `assertSerializable`: its membership tests would only add easy members.
- PublicAddress.ReadIpv6: the spellings of numbers other than decimal digits that `Number` accepts in an IPv4 part (empty, signed, hexadecimal, exponents) are a parameter; no result depends on them.
- PublicRanges.SpellingsClassifyAlike: `isIP` is a parameter that is only assumed to know dotted quads and the spellings of RFC 4291.
- UrlWalk.InspectPublicUrl: URL parsing, resolution and replies are an arbitrary network, which also says whether the time limit had passed when a lookup, a request or a parse failed; titles and content lengths of the output are left out.
- CappedRead.CollectAll: timeouts, exit codes and the redaction of the collected text.
- ManifestWriter.ManifestsAreWhole: POSIX path separators; no other program writes to the same names.
- RunnerCsv.TableReadsBack: fields without a line feed, since the parser splits lines before it reads quotes.
- Containment.InsideRootNeverEscapes: `resolve` and `relative` are modelled on segments of POSIX paths; symbolic links are not resolved by the source either.
- RecipeBudget.Recipes.Run: what each recipe does; a call is its outcome and the bytes it reports. Artifact data is represented by its JSON text.
- LocalSetup.Workbench.Initialize: the migration, the doctor and file modes after configuration; random draws are parameters of the right shape.
- Supervisor.CompletionSignals: POSIX only; on Windows both signals are one `taskkill`. Timers fire late but in the order they are due.
- ProcessList.Measure: the spellings of numbers that `Number` accepts are a parameter; sums are exact.
- ForkIdentity.Checkout.InitFork: a write that fails leaves its file as it was; one that truncates it is not modelled. Non-string values that `RegExp.test` or `URL` would turn into text are refused; prototype properties.
- JsonTree.NoDifferenceIffCovers: the set of differing paths, not their order or text.
- The control plane, cryptography of the runner server, provisioning and packaging scripts, React code, pack prompts, and `fetchEngine` with its unbounded redirect recursion.
