/** Local setup: the two dotenv files of a checkout, filled together, and why a second run changes nothing. */
module LocalSetup {
  import opened Text
  import opened EnvFile

  // ----- Both files -----

  /** The names of the values. */
  datatype Names = Names(
    enabled: string, environment: string, token: string, callback: string, runner: string, connection: string,
    admins: string, user: string, transport: string, runnerUrl: string, callbackUrl: string, provider: string)

  /** What is put where nothing real is found. */
  datatype Defaults = Defaults(
    yes: string, local: string, user: string, transport: string, retiredTransport: string, runnerUrl: string,
      callbackUrl: string)

  datatype Profile = Profile(n: Names, v: Defaults)

  const LOCAL := Profile(
    Names("OPERLOOM_LOCAL_API_ENABLED", "OPERLOOM_ENVIRONMENT", "OPERLOOM_LOCAL_API_TOKEN",
          "OPERLOOM_CALLBACK_SIGNING_SECRET",
          "OPERLOOM_RUNNER_SIGNING_SECRET", "OPERLOOM_AGENT_CONNECTION_SECRET", "OPERLOOM_ADMIN_USER_IDS",
          "OPERLOOM_LOCAL_API_USER_ID", "OPERLOOM_RUNNER_TRANSPORT", "OPERLOOM_RUNNER_URL", "OPERLOOM_CALLBACK_URL",
          "OPENROUTER_API_KEY"),
    Defaults("true", "local", "operloom-local", "fly", "inline",
             "http://127.0.0.1:3101" + "/workbench/tool-runners/invocations",
               "http://127.0.0.1:8787" + "/workbench/run-callbacks"))

  /** 32 random bytes in unpadded base64url. */
  predicate Base64Url(s: string) {
    && |s| == 43
    && forall i | 0 <= i < |s| ::
         'A' <= s[i] <= 'Z' || 'a' <= s[i] <= 'z' || '0' <= s[i] <= '9' || s[i] == '-' || s[i] == '_'
  }

  type Random = s: string | Base64Url(s) witness seq(43, _ => 'A')

  /** What the four calls would draw, if they draw. */
  datatype Draws = Draws(token: Random, callback: Random, connection: Random, runner: Random)

  function SharedValue(first: Option<string>, second: Option<string>, draw: string): string {
    if !Placeholder(first) then first.value else if !Placeholder(second) then second.value else draw
  }

  function UserId(p: Profile, worker: string): string {
    var id := ReadValue(worker, p.n.user);
    if id.None? || id.value == "" then p.v.user else id.value
  }

  /** The values chosen from both files before either is written. */
  datatype Values = Values(token: string, callback: string, connection: string, runner: string, user: string)

  function Chosen(p: Profile, frontend: string, worker: string, d: Draws): Values {
    Values(SharedValue(ReadValue(frontend, p.n.token), ReadValue(worker, p.n.token), d.token),
           SharedValue(ReadValue(frontend, p.n.callback), ReadValue(worker, p.n.callback), d.callback),
           SharedValue(None, ReadValue(worker, p.n.connection), d.connection),
           SharedValue(ReadValue(frontend, p.n.runner), ReadValue(worker, p.n.runner), d.runner),
           UserId(p, worker))
  }

  function FrontendSettings(p: Profile, v: Values): seq<Setting> {
    [Setting(p.n.enabled, p.v.yes, []), Setting(p.n.token, v.token, []), Setting(p.n.callback, v.callback, []),
     Setting(p.n.runner, v.runner, []), Setting(p.n.admins, v.user, [])]
  }

  function WorkerSettings(p: Profile, v: Values): seq<Setting> {
    [Setting(p.n.enabled, p.v.yes, []), Setting(p.n.environment, p.v.local, []), Setting(p.n.token, v.token, []),
     Setting(p.n.connection, v.connection, []), Setting(p.n.callback, v.callback, []),
     Setting(p.n.runner, v.runner, []),
     Setting(p.n.transport, p.v.transport, [p.v.retiredTransport]), Setting(p.n.runnerUrl, p.v.runnerUrl, []),
     Setting(p.n.callbackUrl, p.v.callbackUrl, [])]
  }

  datatype Report = Report(created: seq<string>, frontendKeys: seq<string>, workerKeys: seq<string>,
                           needsProviderKey: bool)

  /** The two files after a run on existing files, and the keys each run configured in them. */
  datatype Setup = Setup(frontend: string, worker: string, frontendKeys: seq<string>, workerKeys: seq<string>)

  function Applied(p: Profile, frontend: string, worker: string, v: Values): Setup {
    var f := Configure(frontend, FrontendSettings(p, v));
    var w := Configure(worker, WorkerSettings(p, v));
    Setup(Written(frontend, f.0), Written(worker, w.0), f.1, w.1)
  }

  function Initialized(p: Profile, frontend: string, worker: string, d: Draws): Setup {
    Applied(p, frontend, worker, Chosen(p, frontend, worker, d))
  }

  class Workbench {
    const profile: Profile
    const frontendExample: string
    const workerExample: string
    var frontend: Option<string>
    var worker: Option<string>

    constructor (profile: Profile, frontendExample: string, workerExample: string, frontend: Option<string>,
                 worker: Option<string>)
      ensures this.profile == profile && this.frontendExample == frontendExample && this.workerExample == workerExample
      ensures this.frontend == frontend && this.worker == worker
    {
      this.profile, this.frontendExample, this.workerExample := profile, frontendExample, workerExample;
      this.frontend, this.worker := frontend, worker;
    }

    function FrontendText(): string reads this {
      if frontend.Some? then frontend.value else frontendExample
    }

    function WorkerText(): string reads this {
      if worker.Some? then worker.value else workerExample
    }

    method CreateMissing() returns (created: seq<string>)
      modifies this`frontend, this`worker
      ensures frontend == Some(old(FrontendText())) && worker == Some(old(WorkerText()))
      ensures created == (if old(frontend).None? then [".env.local"] else [])
                       + (if old(worker).None? then ["cloudflare/control-plane/.dev.vars"] else [])
    {
      created := [];
      if frontend.None? {
        frontend := Some(frontendExample);
        created := created + [".env.local"];
      }
      if worker.None? {
        worker := Some(workerExample);
        created := created + ["cloudflare/control-plane/.dev.vars"];
      }
    }

    /** `initializeWorkbench` up to the migration, with its report. */
    method Initialize(d: Draws) returns (report: Report)
      modifies this`frontend, this`worker
      ensures var after := Initialized(profile, old(FrontendText()), old(WorkerText()), d);
        && frontend == Some(after.frontend) && worker == Some(after.worker)
        && report.frontendKeys == after.frontendKeys && report.workerKeys == after.workerKeys
        && report.needsProviderKey == Placeholder(ReadValue(after.worker, profile.n.provider))
      ensures report.created == (if old(frontend).None? then [".env.local"] else [])
                              + (if old(worker).None? then ["cloudflare/control-plane/.dev.vars"] else [])
    {
      var created := CreateMissing();
      var f, w := frontend.value, worker.value;
      var v := Chosen(profile, f, w, d);
      var newFrontend, frontendKeys := WriteConfiguredFile(f, FrontendSettings(profile, v));
      var newWorker, workerKeys := WriteConfiguredFile(w, WorkerSettings(profile, v));
      frontend, worker := Some(newFrontend), Some(newWorker);
      report := Report(created, frontendKeys, workerKeys, Placeholder(ReadValue(newWorker, profile.n.provider)));
    }
  }

  // ----- The settings are sound -----

  lemma SecretWhole(first: Option<string>, second: Option<string>, draw: Random)
    requires (first.Some? ==> Whole(first.value)) && (second.Some? ==> Whole(second.value))
    ensures Whole(SharedValue(first, second, draw))
  {
    assert forall i | 0 <= i < |draw| :: !IsSpace(draw[i]) && draw[i] != '\n';
  }

  ghost predicate WholeValues(v: Values) {
    Whole(v.token) && Whole(v.callback) && Whole(v.connection) && Whole(v.runner) && Whole(v.user)
  }

  lemma SharedIsWhole(frontend: string, worker: string, key: string, draw: Random)
    ensures Whole(SharedValue(ReadValue(frontend, key), ReadValue(worker, key), draw))
    ensures Whole(SharedValue(None, ReadValue(worker, key), draw))
  {
    ReadIsWhole(frontend, key);
    ReadIsWhole(worker, key);
    SecretWhole(ReadValue(frontend, key), ReadValue(worker, key), draw);
    SecretWhole(None, ReadValue(worker, key), draw);
  }

  lemma ChosenWhole(p: Profile, frontend: string, worker: string, d: Draws)
    requires Whole(p.v.user)
    ensures WholeValues(Chosen(p, frontend, worker, d))
  {
    SharedIsWhole(frontend, worker, p.n.token, d.token);
    SharedIsWhole(frontend, worker, p.n.callback, d.callback);
    SharedIsWhole(frontend, worker, p.n.runner, d.runner);
    SharedIsWhole(frontend, worker, p.n.connection, d.connection);
    ReadIsWhole(worker, p.n.user);
  }

  /** A real default: one trimmed line that is no placeholder. */
  ghost predicate Real(value: string) {
    Whole(value) && value != "" && value[0] != 'r'
  }

  function FrontendKeys(n: Names): seq<string> {
    [n.enabled, n.token, n.callback, n.runner, n.admins]
  }

  function WorkerKeys(n: Names): seq<string> {
    [n.enabled, n.environment, n.token, n.connection, n.callback, n.runner, n.transport, n.runnerUrl, n.callbackUrl]
  }

  ghost predicate Lacks(keys: seq<string>, key: string) {
    forall i | 0 <= i < |keys| :: keys[i] != key
  }

  /** What the proofs need of the names and defaults. */
  ghost predicate Fixed(p: Profile) {
    && PlainKeys(FrontendKeys(p.n)) && PlainKeys(WorkerKeys(p.n)) && Plain(p.n.user)
    && Different(FrontendKeys(p.n)) && Different(WorkerKeys(p.n)) && Lacks(WorkerKeys(p.n), p.n.user)
    && Real(p.v.yes) && Real(p.v.local) && Real(p.v.user) && Real(p.v.transport) && Real(p.v.runnerUrl)
       && Real(p.v.callbackUrl)
    && p.v.transport != p.v.retiredTransport
  }

  lemma RealIsNoPlaceholder(value: string)
    requires Real(value)
    ensures !Placeholder(Some(value))
  {
    TrimOfTrimmed(value);
    assert "replace-with-"[0] == 'r';
  }

  lemma FrontendSound(p: Profile, v: Values)
    requires Fixed(p) && WholeValues(v)
    ensures Sound(FrontendSettings(p, v))
  {
    var all, keys := FrontendSettings(p, v), FrontendKeys(p.n);
    assert forall i | 0 <= i < |all| :: all[i].key == keys[i] && Whole(all[i].value);
    SoundFrom(all, keys);
  }

  lemma WorkerSound(p: Profile, v: Values)
    requires Fixed(p) && WholeValues(v)
    ensures Sound(WorkerSettings(p, v))
  {
    var all, keys := WorkerSettings(p, v), WorkerKeys(p.n);
    assert forall i | 0 <= i < |all| :: all[i].key == keys[i] && Whole(all[i].value);
    SoundFrom(all, keys);
  }

  // ----- Main results -----

  /** Nothing real to keep, and what was chosen is a placeholder too. */
  predicate Unmade(source: string, key: string, value: string) {
    Placeholder(ReadValue(source, key)) && Placeholder(Some(value))
  }

  predicate FrontendMade(p: Profile, frontend: string, v: Values) {
    && !Unmade(frontend, p.n.token, v.token) && !Unmade(frontend, p.n.callback, v.callback)
    && !Unmade(frontend, p.n.runner, v.runner) && !Unmade(frontend, p.n.admins, v.user)
  }

  predicate WorkerMade(p: Profile, worker: string, v: Values) {
    && !Unmade(worker, p.n.token, v.token) && !Unmade(worker, p.n.connection, v.connection)
    && !Unmade(worker, p.n.callback, v.callback) && !Unmade(worker, p.n.runner, v.runner)
  }

  lemma DefaultNotStuck(source: string, s: Setting)
    requires Real(s.value) && s.value !in s.retired
    ensures !Stuck(source, s)
  {
    RealIsNoPlaceholder(s.value);
  }

  lemma FrontendStuck(p: Profile, frontend: string, v: Values)
    requires Real(p.v.yes)
    ensures NoneStuck(frontend, FrontendSettings(p, v)) <==> FrontendMade(p, frontend, v)
  {
    var s := FrontendSettings(p, v);
    DefaultNotStuck(frontend, s[0]);
    FiveSettings(frontend, s);
  }

  lemma WorkerDefaults(p: Profile, worker: string, v: Values)
    requires Fixed(p)
    ensures var s := WorkerSettings(p, v);
            !Stuck(worker, s[0]) && !Stuck(worker, s[1]) && !Stuck(worker, s[6]) && !Stuck(worker, s[7])
              && !Stuck(worker, s[8])
  {
    DefaultNotStuck(worker, Setting(p.n.enabled, p.v.yes, []));
    DefaultNotStuck(worker, Setting(p.n.environment, p.v.local, []));
    DefaultNotStuck(worker, Setting(p.n.transport, p.v.transport, [p.v.retiredTransport]));
    DefaultNotStuck(worker, Setting(p.n.runnerUrl, p.v.runnerUrl, []));
    DefaultNotStuck(worker, Setting(p.n.callbackUrl, p.v.callbackUrl, []));
  }

  lemma WorkerStuck(p: Profile, worker: string, v: Values)
    requires var s := WorkerSettings(p, v);
             !Stuck(worker, s[0]) && !Stuck(worker, s[1]) && !Stuck(worker, s[6]) && !Stuck(worker, s[7])
               && !Stuck(worker, s[8])
    ensures NoneStuck(worker, WorkerSettings(p, v)) <==> WorkerMade(p, worker, v)
  {
    NineSettings(worker, WorkerSettings(p, v));
    WorkerMadeUp(p, worker, v);
  }

  lemma WorkerMadeUp(p: Profile, worker: string, v: Values)
    ensures var s := WorkerSettings(p, v);
            WorkerMade(p, worker, v) <==>
            !Stuck(worker, s[2]) && !Stuck(worker, s[3]) && !Stuck(worker, s[4]) && !Stuck(worker, s[5])
  {}

  lemma SecondFrontend(p: Profile, frontend: string, v: Values, again: Values)
    requires Fixed(p) && WholeValues(v) && WholeValues(again)
    ensures var file := Written(frontend, Configure(frontend, FrontendSettings(p, v)).0);
            Configure(file, FrontendSettings(p, again)).1 == [] <==> FrontendMade(p, frontend, v)
  {
    FrontendSound(p, v);
    FrontendSound(p, again);
    SecondDue(frontend, FrontendSettings(p, v), FrontendSettings(p, again));
    FrontendStuck(p, frontend, v);
  }

  lemma SecondWorker(p: Profile, worker: string, v: Values, again: Values)
    requires Fixed(p) && WholeValues(v) && WholeValues(again)
    ensures var file := Written(worker, Configure(worker, WorkerSettings(p, v)).0);
            Configure(file, WorkerSettings(p, again)).1 == [] <==> WorkerMade(p, worker, v)
  {
    WorkerSound(p, v);
    WorkerSound(p, again);
    SecondDue(worker, WorkerSettings(p, v), WorkerSettings(p, again));
    WorkerDefaults(p, worker, v);
    WorkerStuck(p, worker, v);
  }

  /** Two runs with any values. */
  lemma SecondApplied(p: Profile, frontend: string, worker: string, v: Values, again: Values)
    requires Fixed(p) && WholeValues(v) && WholeValues(again)
    ensures var one := Applied(p, frontend, worker, v);
            var two := Applied(p, one.frontend, one.worker, again);
            && (two.frontendKeys == [] && two.workerKeys == []
                <==> FrontendMade(p, frontend, v) && WorkerMade(p, worker, v))
            && (two.frontendKeys == [] && two.workerKeys == []
                ==> two.frontend == one.frontend && two.worker == one.worker)
  {
    var one := Applied(p, frontend, worker, v);
    SecondFrontend(p, frontend, v, again);
    SecondWorker(p, worker, v, again);
    if Configure(one.frontend, FrontendSettings(p, again)).1 == [] {
      NothingDueNothingChanges(one.frontend, FrontendSettings(p, again));
    }
    if Configure(one.worker, WorkerSettings(p, again)).1 == [] {
      NothingDueNothingChanges(one.worker, WorkerSettings(p, again));
    }
  }

  /** Neither file holds a real value and the one drawn is none either. */
  predicate Unlucky(frontend: Option<string>, worker: Option<string>, draw: string) {
    Placeholder(frontend) && Placeholder(worker) && Placeholder(Some(draw))
  }

  /** Every value the run has to make up for the frontend's file is a real one. */
  predicate FrontendReady(p: Profile, frontend: string, worker: string, d: Draws) {
    && (Placeholder(ReadValue(frontend, p.n.admins)) ==> !Placeholder(Some(UserId(p, worker))))
    && !Unlucky(ReadValue(frontend, p.n.token), ReadValue(worker, p.n.token), d.token)
    && !Unlucky(ReadValue(frontend, p.n.callback), ReadValue(worker, p.n.callback), d.callback)
    && !Unlucky(ReadValue(frontend, p.n.runner), ReadValue(worker, p.n.runner), d.runner)
  }

  /** Every value the run has to make up is a real one: the administrator, and each secret drawn. */
  predicate Ready(p: Profile, frontend: string, worker: string, d: Draws) {
    FrontendReady(p, frontend, worker, d) && !Unlucky(None, ReadValue(worker, p.n.connection), d.connection)
  }

  lemma SharedUnmade(first: Option<string>, second: Option<string>, draw: string)
    ensures Placeholder(Some(SharedValue(first, second, draw))) <==> Unlucky(first, second, draw)
  {}

  lemma ReadyIsMade(p: Profile, frontend: string, worker: string, d: Draws)
    ensures var v := Chosen(p, frontend, worker, d);
            && (FrontendReady(p, frontend, worker, d) <==> FrontendMade(p, frontend, v))
            && (Ready(p, frontend, worker, d) <==> FrontendMade(p, frontend, v) && WorkerMade(p, worker, v))
  {
    SharedUnmade(ReadValue(frontend, p.n.token), ReadValue(worker, p.n.token), d.token);
    SharedUnmade(ReadValue(frontend, p.n.callback), ReadValue(worker, p.n.callback), d.callback);
    SharedUnmade(ReadValue(frontend, p.n.runner), ReadValue(worker, p.n.runner), d.runner);
    SharedUnmade(None, ReadValue(worker, p.n.connection), d.connection);
  }

  /** A second run configures nothing exactly when the first had real values to put; then it leaves both
      files byte for byte as they were. */
  lemma SecondRunIff(p: Profile, frontend: string, worker: string, d: Draws, again: Draws)
    requires Fixed(p)
    ensures var one := Initialized(p, frontend, worker, d);
            var two := Initialized(p, one.frontend, one.worker, again);
            && (two.frontendKeys == [] && two.workerKeys == [] <==> Ready(p, frontend, worker, d))
            && (Ready(p, frontend, worker, d) ==> two.frontend == one.frontend && two.worker == one.worker)
  {
    var one := Initialized(p, frontend, worker, d);
    ChosenWhole(p, frontend, worker, d);
    ChosenWhole(p, one.frontend, one.worker, again);
    SecondApplied(p, frontend, worker, Chosen(p, frontend, worker, d), Chosen(p, one.frontend, one.worker, again));
    ReadyIsMade(p, frontend, worker, d);
  }

  lemma AdminsSetting(p: Profile, v: Values)
    ensures Setting(p.n.admins, v.user, []) in FrontendSettings(p, v)
  {
    assert FrontendSettings(p, v)[4] == Setting(p.n.admins, v.user, []);
  }

  /** The local user becomes the administrator unless there is a real one already. */
  lemma UserBecomesAdmin(p: Profile, frontend: string, worker: string, d: Draws)
    requires Fixed(p)
    ensures ReadValue(Initialized(p, frontend, worker, d).frontend, p.n.admins) ==
            if Placeholder(ReadValue(frontend, p.n.admins)) then Some(UserId(p, worker))
              else ReadValue(frontend, p.n.admins)
  {
    var v := Chosen(p, frontend, worker, d);
    ChosenWhole(p, frontend, worker, d);
    FrontendSound(p, v);
    AdminsSetting(p, v);
    FileRead(frontend, FrontendSettings(p, v), p.n.admins);
    ListedRead(FrontendSettings(p, v), Setting(p.n.admins, v.user, []), ReadValue(frontend, p.n.admins));
  }

  // ----- Any number of runs -----

  function AfterRuns(p: Profile, frontend: string, worker: string, draws: seq<Draws>): Setup {
    if draws == [] then Setup(frontend, worker, [], [])
    else
      var before := AfterRuns(p, frontend, worker, draws[..|draws| - 1]);
      Initialized(p, before.frontend, before.worker, draws[|draws| - 1])
  }

  /** No real administrator, and a user id that is itself a placeholder. */
  predicate PlaceholderUser(p: Profile, frontend: string, worker: string) {
    Placeholder(ReadValue(frontend, p.n.admins)) && Placeholder(Some(UserId(p, worker)))
  }

  lemma WorkerLacks(p: Profile, v: Values, key: string)
    requires Lacks(WorkerKeys(p.n), key)
    ensures forall s | s in WorkerSettings(p, v) :: s.key != key
  {
    var all, keys := WorkerSettings(p, v), WorkerKeys(p.n);
    assert forall i | 0 <= i < |all| :: all[i].key == keys[i];
  }

  lemma UserKept(p: Profile, frontend: string, worker: string, d: Draws)
    requires Fixed(p)
    ensures ReadValue(Initialized(p, frontend, worker, d).worker, p.n.user) == ReadValue(worker, p.n.user)
  {
    var v := Chosen(p, frontend, worker, d);
    ChosenWhole(p, frontend, worker, d);
    WorkerSound(p, v);
    FileRead(worker, WorkerSettings(p, v), p.n.user);
    WorkerLacks(p, v, p.n.user);
    Unlisted(WorkerSettings(p, v), p.n.user, ReadValue(worker, p.n.user));
  }

  lemma PlaceholderUserStays(p: Profile, frontend: string, worker: string, d: Draws)
    requires Fixed(p) && PlaceholderUser(p, frontend, worker)
    ensures var after := Initialized(p, frontend, worker, d);
            PlaceholderUser(p, after.frontend, after.worker) && after.frontendKeys != []
  {
    var v := Chosen(p, frontend, worker, d);
    UserBecomesAdmin(p, frontend, worker, d);
    UserKept(p, frontend, worker, d);
    ChosenWhole(p, frontend, worker, d);
    FrontendSound(p, v);
    AdminsSetting(p, v);
    DueIsReported(frontend, FrontendSettings(p, v), Setting(p.n.admins, v.user, []));
  }

  lemma {:induction false} PlaceholderUserRemains(p: Profile, frontend: string, worker: string, draws: seq<Draws>)
    requires Fixed(p) && PlaceholderUser(p, frontend, worker)
    ensures var after := AfterRuns(p, frontend, worker, draws); PlaceholderUser(p, after.frontend, after.worker)
  {
    if draws == [] {
    } else {
      var before := AfterRuns(p, frontend, worker, draws[..|draws| - 1]);
      PlaceholderUserRemains(p, frontend, worker, draws[..|draws| - 1]);
      PlaceholderUserStays(p, before.frontend, before.worker, draws[|draws| - 1]);
    }
  }

  /** A user id that is itself a placeholder is reported as configured again by every run, the first, the
      second and the n-th. */
  lemma PlaceholderUserIdIsNeverSettled(p: Profile, frontend: string, worker: string, draws: seq<Draws>)
    requires Fixed(p) && PlaceholderUser(p, frontend, worker) && draws != []
    ensures AfterRuns(p, frontend, worker, draws).frontendKeys != []
  {
    var before := AfterRuns(p, frontend, worker, draws[..|draws| - 1]);
    PlaceholderUserRemains(p, frontend, worker, draws[..|draws| - 1]);
    PlaceholderUserStays(p, before.frontend, before.worker, draws[|draws| - 1]);
  }

  /** There are such files. */
  lemma PlaceholderUserExists(p: Profile)
    requires Plain(p.n.user)
    ensures PlaceholderUser(p, "", p.n.user + "=" + "replace-with-me")
  {
    var me := "replace-with-me";
    ReplaceWithMe(me);
    SingleLineRead(p.n.user, me);
    EmptyRead(p.n.admins);
    assert UserId(p, p.n.user + "=" + me) == me;
  }

  lemma ReplaceWithMe(me: string)
    requires me == "replace-with-me"
    ensures Trim(me) == me && me != "" && '\n' !in me && Placeholder(Some(me))
  {
    TrimOfTrimmed(me);
  }

  lemma SettledRunsAgain(p: Profile, frontend: string, worker: string, d: Draws, again: Draws)
    requires Fixed(p) && Ready(p, frontend, worker, d)
    ensures var one := Initialized(p, frontend, worker, d);
            Initialized(p, one.frontend, one.worker, again) == Setup(one.frontend, one.worker, [], [])
  {
    SecondRunIff(p, frontend, worker, d, again);
  }

  /** Once settled, settled for good: whatever it would draw, every later run configures nothing and leaves
      both files byte for byte as the first run left them. */
  lemma {:induction false} SettledForGood(p: Profile, frontend: string, worker: string, d: Draws, more: seq<Draws>)
    requires Fixed(p) && Ready(p, frontend, worker, d)
    ensures var one := Initialized(p, frontend, worker, d);
            AfterRuns(p, one.frontend, one.worker, more) == Setup(one.frontend, one.worker, [], [])
  {
    if more == [] {
    } else {
      SettledForGood(p, frontend, worker, d, more[..|more| - 1]);
      SettledRunsAgain(p, frontend, worker, d, more[|more| - 1]);
    }
  }

  // ----- Values kept and shared -----

  lemma SettingsSparing(p: Profile, v: Values)
    ensures Sparing(WorkerSettings(p, v), p.n.transport, p.v.retiredTransport)
  {}

  lemma FrontendValuesKept(p: Profile, frontend: string, v: Values, key: string)
    requires Fixed(p) && WholeValues(v) && Plain(key) && !Placeholder(ReadValue(frontend, key))
    ensures ReadValue(Written(frontend, Configure(frontend, FrontendSettings(p, v)).0), key) == ReadValue(frontend, key)
  {
    FrontendSound(p, v);
    FileRead(frontend, FrontendSettings(p, v), key);
    NeverRetired(FrontendSettings(p, v), key, ReadValue(frontend, key));
  }

  lemma WorkerValuesKept(p: Profile, worker: string, v: Values, key: string)
    requires Fixed(p) && WholeValues(v) && Plain(key) && !Placeholder(ReadValue(worker, key))
    requires key == p.n.transport ==> ReadValue(worker, key) != Some(p.v.retiredTransport)
    ensures ReadValue(Written(worker, Configure(worker, WorkerSettings(p, v)).0), key) == ReadValue(worker, key)
  {
    WorkerSound(p, v);
    SettingsSparing(p, v);
    FileKeeps(worker, WorkerSettings(p, v), key, p.n.transport, p.v.retiredTransport);
  }

  /** No real value is overwritten, except the retired runner transport in the Worker's file. */
  lemma RealValuesKept(p: Profile, frontend: string, worker: string, d: Draws, key: string)
    requires Fixed(p) && Plain(key)
    ensures var after := Initialized(p, frontend, worker, d);
            && (!Placeholder(ReadValue(frontend, key)) ==> ReadValue(after.frontend, key) == ReadValue(frontend, key))
            && (!Placeholder(ReadValue(worker, key))
                && (key == p.n.transport ==> ReadValue(worker, key) != Some(p.v.retiredTransport))
                ==> ReadValue(after.worker, key) == ReadValue(worker, key))
  {
    ChosenWhole(p, frontend, worker, d);
    var v := Chosen(p, frontend, worker, d);
    if !Placeholder(ReadValue(frontend, key)) { FrontendValuesKept(p, frontend, v, key); }
    if !Placeholder(ReadValue(worker, key))
       && (key == p.n.transport ==> ReadValue(worker, key) != Some(p.v.retiredTransport)) {
      WorkerValuesKept(p, worker, v, key);
    }
  }

  lemma SecretsRead(p: Profile, frontend: string, worker: string, v: Values, key: string, value: string)
    requires Fixed(p) && WholeValues(v)
    requires (key, value) == (p.n.token, v.token) || (key, value) == (p.n.callback, v.callback)
             || (key, value) == (p.n.runner, v.runner)
    ensures var after := Applied(p, frontend, worker, v);
            var f, w := ReadValue(frontend, key), ReadValue(worker, key);
            && ReadValue(after.frontend, key) == (if Placeholder(f) then Some(value) else f)
            && ReadValue(after.worker, key) == (if Placeholder(w) then Some(value) else w)
  {
    FrontendSound(p, v);
    WorkerSound(p, v);
    var fs, ws := FrontendSettings(p, v), WorkerSettings(p, v);
    if (key, value) == (p.n.token, v.token) { OneValue(frontend, worker, fs, ws, 1, 2); }
    else if (key, value) == (p.n.callback, v.callback) { OneValue(frontend, worker, fs, ws, 2, 4); }
    else { OneValue(frontend, worker, fs, ws, 3, 5); }
  }

  /** Each shared secret ends the same in both files, unless both held differing real values. */
  lemma SecretsAgreeIff(p: Profile, frontend: string, worker: string, d: Draws, key: string)
    requires Fixed(p) && (key == p.n.token || key == p.n.callback || key == p.n.runner)
    ensures var after := Initialized(p, frontend, worker, d);
            var f, w := ReadValue(frontend, key), ReadValue(worker, key);
            ReadValue(after.frontend, key) == ReadValue(after.worker, key) <==>
            Placeholder(f) || Placeholder(w) || f == w
  {
    ChosenWhole(p, frontend, worker, d);
    var v := Chosen(p, frontend, worker, d);
    var value := if key == p.n.token then v.token else if key == p.n.callback then v.callback else v.runner;
    SecretsRead(p, frontend, worker, v, key, value);
  }

  /** What every key of both files reads after a run: its setting's value if it was due, else the same. */
  lemma EveryKeyRead(p: Profile, frontend: string, worker: string, d: Draws, key: string)
    requires Fixed(p) && Plain(key)
    ensures var after, v := Initialized(p, frontend, worker, d), Chosen(p, frontend, worker, d);
            && ReadValue(after.frontend, key) == Settled(FrontendSettings(p, v), key, ReadValue(frontend, key))
            && ReadValue(after.worker, key) == Settled(WorkerSettings(p, v), key, ReadValue(worker, key))
  {
    var v := Chosen(p, frontend, worker, d);
    ChosenWhole(p, frontend, worker, d);
    FrontendSound(p, v);
    WorkerSound(p, v);
    FileRead(frontend, FrontendSettings(p, v), key);
    FileRead(worker, WorkerSettings(p, v), key);
  }

  /** A value put where nothing real was. */
  function Filled(before: Option<string>, value: string): Option<string> {
    if Placeholder(before) then Some(value) else before
  }

  lemma SettledAt(settings: seq<Setting>, i: nat, before: Option<string>)
    requires Sound(settings) && i < |settings|
    ensures Settled(settings, settings[i].key, before) ==
            if Needs(before, settings[i].retired) then Some(settings[i].value) else before
  {
    ListedRead(settings, settings[i], before);
  }

  lemma FrontendSettled(p: Profile, v: Values, key: string, before: Option<string>)
    requires Fixed(p) && WholeValues(v)
    ensures Settled(FrontendSettings(p, v), key, before) ==
            if key == p.n.enabled then Filled(before, p.v.yes)
            else if key == p.n.token then Filled(before, v.token)
            else if key == p.n.callback then Filled(before, v.callback)
            else if key == p.n.runner then Filled(before, v.runner)
            else if key == p.n.admins then Filled(before, v.user)
            else before
  {
    var s := FrontendSettings(p, v);
    FrontendSound(p, v);
    if key == p.n.enabled {
      SettledAt(s, 0, before);
    } else if key == p.n.token {
      SettledAt(s, 1, before);
    } else if key == p.n.callback {
      SettledAt(s, 2, before);
    } else if key == p.n.runner {
      SettledAt(s, 3, before);
    } else if key == p.n.admins {
      SettledAt(s, 4, before);
    } else {
      Unlisted(s, key, before);
    }
  }

  lemma WorkerSettledIn(p: Profile, v: Values, s: seq<Setting>, key: string, before: Option<string>)
    requires Sound(s) && |s| == 9
    requires s[0] == Setting(p.n.enabled, p.v.yes, []) && s[1] == Setting(p.n.environment, p.v.local, [])
    requires s[2] == Setting(p.n.token, v.token, []) && s[3] == Setting(p.n.connection, v.connection, [])
    requires s[4] == Setting(p.n.callback, v.callback, []) && s[5] == Setting(p.n.runner, v.runner, [])
    requires s[6] == Setting(p.n.transport, p.v.transport, [p.v.retiredTransport])
    requires s[7] == Setting(p.n.runnerUrl, p.v.runnerUrl, [])
    requires s[8] == Setting(p.n.callbackUrl, p.v.callbackUrl, [])
    ensures Settled(s, key, before) ==
            if key == p.n.enabled then Filled(before, p.v.yes)
            else if key == p.n.environment then Filled(before, p.v.local)
            else if key == p.n.token then Filled(before, v.token)
            else if key == p.n.connection then Filled(before, v.connection)
            else if key == p.n.callback then Filled(before, v.callback)
            else if key == p.n.runner then Filled(before, v.runner)
            else if key == p.n.transport && before == Some(p.v.retiredTransport) then Some(p.v.transport)
            else if key == p.n.transport then Filled(before, p.v.transport)
            else if key == p.n.runnerUrl then Filled(before, p.v.runnerUrl)
            else if key == p.n.callbackUrl then Filled(before, p.v.callbackUrl)
            else before
  {
    if key == p.n.enabled {
      SettledAt(s, 0, before);
    } else if key == p.n.environment {
      SettledAt(s, 1, before);
    } else if key == p.n.token {
      SettledAt(s, 2, before);
    } else if key == p.n.connection {
      SettledAt(s, 3, before);
    } else if key == p.n.callback {
      SettledAt(s, 4, before);
    } else if key == p.n.runner {
      SettledAt(s, 5, before);
    } else if key == p.n.transport {
      SettledAt(s, 6, before);
    } else if key == p.n.runnerUrl {
      SettledAt(s, 7, before);
    } else if key == p.n.callbackUrl {
      SettledAt(s, 8, before);
    } else {
      Unlisted(s, key, before);
    }
  }

  lemma WorkerSettled(p: Profile, v: Values, key: string, before: Option<string>)
    requires Fixed(p) && WholeValues(v)
    ensures Settled(WorkerSettings(p, v), key, before) ==
            if key == p.n.enabled then Filled(before, p.v.yes)
            else if key == p.n.environment then Filled(before, p.v.local)
            else if key == p.n.token then Filled(before, v.token)
            else if key == p.n.connection then Filled(before, v.connection)
            else if key == p.n.callback then Filled(before, v.callback)
            else if key == p.n.runner then Filled(before, v.runner)
            else if key == p.n.transport && before == Some(p.v.retiredTransport) then Some(p.v.transport)
            else if key == p.n.transport then Filled(before, p.v.transport)
            else if key == p.n.runnerUrl then Filled(before, p.v.runnerUrl)
            else if key == p.n.callbackUrl then Filled(before, p.v.callbackUrl)
            else before
  {
    WorkerSound(p, v);
    WorkerSettledIn(p, v, WorkerSettings(p, v), key, before);
  }

  /** What each key of the frontend's file reads after a run. */
  lemma FrontendReads(p: Profile, frontend: string, worker: string, d: Draws, key: string)
    requires Fixed(p) && Plain(key)
    ensures var v, before := Chosen(p, frontend, worker, d), ReadValue(frontend, key);
            ReadValue(Initialized(p, frontend, worker, d).frontend, key) ==
            if key == p.n.enabled then Filled(before, p.v.yes)
            else if key == p.n.token then Filled(before, v.token)
            else if key == p.n.callback then Filled(before, v.callback)
            else if key == p.n.runner then Filled(before, v.runner)
            else if key == p.n.admins then Filled(before, v.user)
            else before
  {
    EveryKeyRead(p, frontend, worker, d, key);
    ChosenWhole(p, frontend, worker, d);
    FrontendSettled(p, Chosen(p, frontend, worker, d), key, ReadValue(frontend, key));
  }

  /** What each key of the Worker's file reads after a run. */
  lemma WorkerReads(p: Profile, frontend: string, worker: string, d: Draws, key: string)
    requires Fixed(p) && Plain(key)
    ensures var v, before := Chosen(p, frontend, worker, d), ReadValue(worker, key);
            ReadValue(Initialized(p, frontend, worker, d).worker, key) ==
            if key == p.n.enabled then Filled(before, p.v.yes)
            else if key == p.n.environment then Filled(before, p.v.local)
            else if key == p.n.token then Filled(before, v.token)
            else if key == p.n.connection then Filled(before, v.connection)
            else if key == p.n.callback then Filled(before, v.callback)
            else if key == p.n.runner then Filled(before, v.runner)
            else if key == p.n.transport && before == Some(p.v.retiredTransport) then Some(p.v.transport)
            else if key == p.n.transport then Filled(before, p.v.transport)
            else if key == p.n.runnerUrl then Filled(before, p.v.runnerUrl)
            else if key == p.n.callbackUrl then Filled(before, p.v.callbackUrl)
            else before
  {
    EveryKeyRead(p, frontend, worker, d, key);
    ChosenWhole(p, frontend, worker, d);
    WorkerSettled(p, Chosen(p, frontend, worker, d), key, ReadValue(worker, key));
  }

  /** The values themselves: of a shared secret the real one of the frontend's file, else of the Worker's, else
      a new one; the connection secret is the Worker's own or new; the user is the Worker's or the default. */
  lemma ChosenValues(p: Profile, frontend: string, worker: string, d: Draws)
    ensures var v, f, w := Chosen(p, frontend, worker, d), k => ReadValue(frontend, k), k => ReadValue(worker, k);
            && v.token == (if !Placeholder(f(p.n.token)) then f(p.n.token).value
                           else if !Placeholder(w(p.n.token)) then w(p.n.token).value else d.token)
            && v.callback == (if !Placeholder(f(p.n.callback)) then f(p.n.callback).value
                              else if !Placeholder(w(p.n.callback)) then w(p.n.callback).value else d.callback)
            && v.runner == (if !Placeholder(f(p.n.runner)) then f(p.n.runner).value
                            else if !Placeholder(w(p.n.runner)) then w(p.n.runner).value else d.runner)
            && v.connection == (if !Placeholder(w(p.n.connection)) then w(p.n.connection).value else d.connection)
            && v.user == (if w(p.n.user).None? || w(p.n.user).value == "" then p.v.user else w(p.n.user).value)
  {}

  /** What is reported: the keys of the file that a run sets and that held a placeholder, and the transport also
      when it was the retired one. */
  lemma ReportedIff(p: Profile, frontend: string, worker: string, d: Draws, key: string)
    requires Fixed(p)
    ensures var after := Initialized(p, frontend, worker, d);
            && (key in after.frontendKeys <==>
                && Placeholder(ReadValue(frontend, key))
                && (key == p.n.enabled || key == p.n.token || key == p.n.callback || key == p.n.runner
                    || key == p.n.admins))
            && (key in after.workerKeys <==>
                || (key == p.n.transport && ReadValue(worker, key) == Some(p.v.retiredTransport))
                || (Placeholder(ReadValue(worker, key))
                    && (key == p.n.enabled || key == p.n.environment || key == p.n.token || key == p.n.connection
                        || key == p.n.callback || key == p.n.runner || key == p.n.transport || key == p.n.runnerUrl
                        || key == p.n.callbackUrl)))
  {
    var v := Chosen(p, frontend, worker, d);
    var fs, ws := FrontendSettings(p, v), WorkerSettings(p, v);
    ChosenWhole(p, frontend, worker, d);
    FrontendSound(p, v);
    WorkerSound(p, v);
    ConfiguredAreDue(frontend, fs);
    ConfiguredAreDue(worker, ws);
    DueMeans(frontend, fs, key);
    DueMeans(worker, ws, key);
    FrontendListed(p, v, key, ReadValue(frontend, key));
    WorkerListed(p, v, key, ReadValue(worker, key));
  }

  lemma FrontendListed(p: Profile, v: Values, key: string, before: Option<string>)
    ensures var s := FrontendSettings(p, v);
            (exists i | 0 <= i < |s| :: s[i].key == key && Needs(before, s[i].retired)) <==>
            && Placeholder(before)
            && (key == p.n.enabled || key == p.n.token || key == p.n.callback || key == p.n.runner || key == p.n.admins)
  {
    var s := FrontendSettings(p, v);
    assert s[0].key == p.n.enabled && s[1].key == p.n.token && s[2].key == p.n.callback;
    assert s[3].key == p.n.runner && s[4].key == p.n.admins;
  }

  lemma WorkerListed(p: Profile, v: Values, key: string, before: Option<string>)
    requires Fixed(p)
    ensures var s := WorkerSettings(p, v);
            (exists i | 0 <= i < |s| :: s[i].key == key && Needs(before, s[i].retired)) <==>
            || (key == p.n.transport && before == Some(p.v.retiredTransport))
            || (Placeholder(before)
                && (key == p.n.enabled || key == p.n.environment || key == p.n.token || key == p.n.connection
                    || key == p.n.callback || key == p.n.runner || key == p.n.transport || key == p.n.runnerUrl
                    || key == p.n.callbackUrl))
  {
    var s := WorkerSettings(p, v);
    assert s[0].key == p.n.enabled && s[1].key == p.n.environment && s[2].key == p.n.token;
    assert s[3].key == p.n.connection && s[4].key == p.n.callback && s[5].key == p.n.runner;
    assert s[6].key == p.n.transport && s[7].key == p.n.runnerUrl && s[8].key == p.n.callbackUrl;
  }

  // ----- A setup that stopped between its two writes -----

  /** The value put for a secret is chosen again, whatever is drawn then. */
  lemma SharedAgain(f: Option<string>, w: Option<string>, draw: string, again: string)
    ensures var put := if Placeholder(f) then Some(SharedValue(f, w, draw)) else f;
            !Unlucky(f, w, draw) ==> SharedValue(put, w, again) == SharedValue(f, w, draw)
  {}

  lemma ChosenAgain(p: Profile, frontend: string, worker: string, d: Draws, again: Draws)
    requires Fixed(p) && FrontendReady(p, frontend, worker, d)
    ensures Chosen(p, Initialized(p, frontend, worker, d).frontend, worker, again)
            == Chosen(p, frontend, worker, d.(connection := again.connection))
  {
    var v := Chosen(p, frontend, worker, d);
    ChosenWhole(p, frontend, worker, d);
    SecretsRead(p, frontend, worker, v, p.n.token, v.token);
    SecretsRead(p, frontend, worker, v, p.n.callback, v.callback);
    SecretsRead(p, frontend, worker, v, p.n.runner, v.runner);
    SharedAgain(ReadValue(frontend, p.n.token), ReadValue(worker, p.n.token), d.token, again.token);
    SharedAgain(ReadValue(frontend, p.n.callback), ReadValue(worker, p.n.callback), d.callback, again.callback);
    SharedAgain(ReadValue(frontend, p.n.runner), ReadValue(worker, p.n.runner), d.runner, again.runner);
  }

  /** Only the frontend's file was written, and setup runs again with other draws. The second run finds nothing
      to do in that file exactly when the first had real values to put; both files are then those of one
      run, with the first run's shared secrets and the second's connection secret. */
  lemma InterruptedSetup(p: Profile, frontend: string, worker: string, d: Draws, again: Draws)
    requires Fixed(p)
    ensures var half := Initialized(p, frontend, worker, d).frontend;
            var after := Initialized(p, half, worker, again);
            var whole := Initialized(p, frontend, worker, d.(connection := again.connection));
            && (after.frontendKeys == [] <==> FrontendReady(p, frontend, worker, d))
            && (FrontendReady(p, frontend, worker, d) ==>
                after == Setup(whole.frontend, whole.worker, [], whole.workerKeys) && whole.frontend == half)
  {
    var half, v := Initialized(p, frontend, worker, d).frontend, Chosen(p, frontend, worker, d);
    var second := Chosen(p, half, worker, again);
    ChosenWhole(p, frontend, worker, d);
    ChosenWhole(p, half, worker, again);
    SecondFrontend(p, frontend, v, second);
    ReadyIsMade(p, frontend, worker, d);
    if FrontendReady(p, frontend, worker, d) {
      NothingDueNothingChanges(half, FrontendSettings(p, second));
      ChosenAgain(p, frontend, worker, d, again);
    }
  }

  /** The shared secrets then agree exactly when they do after a run that was not interrupted. */
  lemma InterruptedSecretsAgreeIff(p: Profile, frontend: string, worker: string, d: Draws, again: Draws, key: string)
    requires Fixed(p) && (key == p.n.token || key == p.n.callback || key == p.n.runner)
    ensures var half := Initialized(p, frontend, worker, d).frontend;
            var after := Initialized(p, half, worker, again);
            var f, w := ReadValue(frontend, key), ReadValue(worker, key);
            ReadValue(after.frontend, key) == ReadValue(after.worker, key) <==>
            Placeholder(f) || Placeholder(w) || f == w
  {
    var half, v := Initialized(p, frontend, worker, d).frontend, Chosen(p, frontend, worker, d);
    var value := if key == p.n.token then v.token else if key == p.n.callback then v.callback else v.runner;
    ChosenWhole(p, frontend, worker, d);
    SecretsRead(p, frontend, worker, v, key, value);
    SecretsAgreeIff(p, half, worker, again, key);
  }

  // ----- The repository's names and defaults -----

  lemma PlainTokens()
    ensures Plain("OPERLOOM_LOCAL_API_ENABLED") && Plain("OPERLOOM_LOCAL_API_TOKEN")
            && Plain("OPERLOOM_LOCAL_API_USER_ID")
  {}

  lemma PlainSecrets()
    ensures Plain("OPERLOOM_CALLBACK_SIGNING_SECRET") && Plain("OPERLOOM_RUNNER_SIGNING_SECRET")
  {}

  lemma PlainConnection()
    ensures Plain("OPERLOOM_AGENT_CONNECTION_SECRET") && Plain("OPERLOOM_ADMIN_USER_IDS")
  {}

  lemma PlainRest()
    ensures Plain("OPERLOOM_ENVIRONMENT") && Plain("OPERLOOM_RUNNER_TRANSPORT")
    ensures Plain("OPERLOOM_RUNNER_URL") && Plain("OPERLOOM_CALLBACK_URL")
  {}

  lemma WholeAppend(a: string, b: string)
    requires Whole(a) && Whole(b) && b != ""
    ensures Whole(a + b)
  {}

  lemma RealDefaults()
    ensures Real("true") && Real("local") && Real("operloom-local") && Real("fly") && "fly" != "inline"
  {}

  lemma RealUrls()
    ensures Real("http://127.0.0.1:3101" + "/workbench/tool-runners/invocations")
    ensures Real("http://127.0.0.1:8787" + "/workbench/run-callbacks")
  {
    WholeAppend("http://127.0.0.1:3101", "/workbench/tool-runners/invocations");
    WholeAppend("http://127.0.0.1:8787", "/workbench/run-callbacks");
  }

  lemma Lengths()
    ensures var n := LOCAL.n;
      && |n.enabled| == 26 && |n.environment| == 20 && |n.token| == 24 && |n.callback| == 32 && |n.runner| == 30
         && |n.connection| == 32
      && |n.admins| == 23 && |n.transport| == 25 && |n.runnerUrl| == 19 && |n.callbackUrl| == 21 && |n.user| == 26
      && n.callback[9] != n.connection[9] && n.enabled[19] != n.user[19]
  {}

  /** The names differ in length, but for two pairs that differ at one character. */
  lemma DifferentNames(n: Names)
    requires |n.enabled| == 26 && |n.environment| == 20 && |n.token| == 24 && |n.callback| == 32 && |n.runner| == 30
    requires |n.connection| == 32 && |n.admins| == 23 && |n.transport| == 25 && |n.runnerUrl| == 19
             && |n.callbackUrl| == 21
    requires |n.user| == 26 && n.callback[9] != n.connection[9] && n.enabled[19] != n.user[19]
    ensures Different(FrontendKeys(n)) && Different(WorkerKeys(n)) && Lacks(WorkerKeys(n), n.user)
  {}

  lemma PlainFrom(n: Names)
    requires Plain(n.enabled) && Plain(n.token) && Plain(n.user) && Plain(n.callback) && Plain(n.runner)
             && Plain(n.connection)
    requires Plain(n.admins) && Plain(n.environment) && Plain(n.transport) && Plain(n.runnerUrl) && Plain(n.callbackUrl)
    ensures PlainKeys(FrontendKeys(n)) && PlainKeys(WorkerKeys(n)) && Plain(n.user)
  {}

  lemma PlainNames()
    ensures PlainKeys(FrontendKeys(LOCAL.n)) && PlainKeys(WorkerKeys(LOCAL.n)) && Plain(LOCAL.n.user)
  {
    PlainTokens(); PlainSecrets(); PlainConnection(); PlainRest();
    PlainFrom(LOCAL.n);
  }

  lemma DifferentLocal()
    ensures Different(FrontendKeys(LOCAL.n)) && Different(WorkerKeys(LOCAL.n))
            && Lacks(WorkerKeys(LOCAL.n), LOCAL.n.user)
  {
    Lengths();
    DifferentNames(LOCAL.n);
  }

  /** The results above hold of the names and defaults the repository uses. */
  lemma LocalIsFixed()
    ensures Fixed(LOCAL)
  {
    PlainNames(); DifferentLocal(); RealDefaults(); RealUrls();
  }

  /** The keys of a profile read their own values, in a form without a case for each key. */
  lemma WorkerDefaultsRead(p: Profile, frontend: string, worker: string, d: Draws)
    requires Fixed(p)
    ensures var after := Initialized(p, frontend, worker, d).worker;
            && ReadValue(after, p.n.enabled) == Filled(ReadValue(worker, p.n.enabled), p.v.yes)
            && ReadValue(after, p.n.environment) == Filled(ReadValue(worker, p.n.environment), p.v.local)
            && ReadValue(after, p.n.runnerUrl) == Filled(ReadValue(worker, p.n.runnerUrl), p.v.runnerUrl)
            && ReadValue(after, p.n.callbackUrl) == Filled(ReadValue(worker, p.n.callbackUrl), p.v.callbackUrl)
            && ReadValue(after, p.n.transport)
               == (if ReadValue(worker, p.n.transport) == Some(p.v.retiredTransport) then Some(p.v.transport)
                   else Filled(ReadValue(worker, p.n.transport), p.v.transport))
  {
    var keys := WorkerKeys(p.n);
    assert keys[0] == p.n.enabled && keys[1] == p.n.environment && keys[7] == p.n.runnerUrl;
    assert keys[2] == p.n.token && keys[3] == p.n.connection && keys[4] == p.n.callback && keys[5] == p.n.runner;
    assert keys[6] == p.n.transport && keys[8] == p.n.callbackUrl;
    WorkerReads(p, frontend, worker, d, p.n.enabled);
    WorkerReads(p, frontend, worker, d, p.n.environment);
    WorkerReads(p, frontend, worker, d, p.n.runnerUrl);
    WorkerReads(p, frontend, worker, d, p.n.callbackUrl);
    WorkerReads(p, frontend, worker, d, p.n.transport);
  }

  /** A secret of both files: kept where it is real, else taken from the other file, else new. */
  predicate SharedReads(frontend: string, worker: string, after: Setup, key: string, draw: string) {
    var f, w := ReadValue(frontend, key), ReadValue(worker, key);
    && ReadValue(after.frontend, key) == (if !Placeholder(f) then f else if !Placeholder(w) then w else Some(draw))
    && ReadValue(after.worker, key) == (if !Placeholder(w) then w else if !Placeholder(f) then f else Some(draw))
  }

  lemma SecretsAreShared(p: Profile, frontend: string, worker: string, d: Draws)
    requires Fixed(p)
    ensures var after := Initialized(p, frontend, worker, d);
            && SharedReads(frontend, worker, after, p.n.token, d.token)
            && SharedReads(frontend, worker, after, p.n.callback, d.callback)
            && SharedReads(frontend, worker, after, p.n.runner, d.runner)
            && ReadValue(after.worker, p.n.connection) == Filled(ReadValue(worker, p.n.connection), d.connection)
  {
    var v := Chosen(p, frontend, worker, d);
    ChosenWhole(p, frontend, worker, d);
    SecretsRead(p, frontend, worker, v, p.n.token, v.token);
    SecretsRead(p, frontend, worker, v, p.n.callback, v.callback);
    SecretsRead(p, frontend, worker, v, p.n.runner, v.runner);
    ConnectionReads(p, frontend, worker, d);
  }

  lemma ConnectionReads(p: Profile, frontend: string, worker: string, d: Draws)
    requires Fixed(p)
    ensures ReadValue(Initialized(p, frontend, worker, d).worker, p.n.connection)
            == Filled(ReadValue(worker, p.n.connection), d.connection)
  {
    var keys := WorkerKeys(p.n);
    assert keys[0] == p.n.enabled && keys[1] == p.n.environment && keys[2] == p.n.token && keys[3] == p.n.connection;
    WorkerReads(p, frontend, worker, d, p.n.connection);
  }

  /** The secrets of this repository, by name. */
  lemma LocalSecretsAreShared(frontend: string, worker: string, d: Draws)
    ensures var after := Initialized(LOCAL, frontend, worker, d);
            && SharedReads(frontend, worker, after, "OPERLOOM_LOCAL_API_TOKEN", d.token)
            && SharedReads(frontend, worker, after, "OPERLOOM_CALLBACK_SIGNING_SECRET", d.callback)
            && SharedReads(frontend, worker, after, "OPERLOOM_RUNNER_SIGNING_SECRET", d.runner)
            && ReadValue(after.worker, "OPERLOOM_AGENT_CONNECTION_SECRET")
               == Filled(ReadValue(worker, "OPERLOOM_AGENT_CONNECTION_SECRET"), d.connection)
  {
    LocalIsFixed();
    SecretsAreShared(LOCAL, frontend, worker, d);
  }

  /** The Worker's file of this repository, by the names and values themselves. */
  lemma LocalWorkerReads(frontend: string, worker: string, d: Draws)
    ensures var after := Initialized(LOCAL, frontend, worker, d).worker;
            && ReadValue(after, "OPERLOOM_LOCAL_API_ENABLED")
               == Filled(ReadValue(worker, "OPERLOOM_LOCAL_API_ENABLED"), "true")
            && ReadValue(after, "OPERLOOM_ENVIRONMENT") == Filled(ReadValue(worker, "OPERLOOM_ENVIRONMENT"), "local")
            && ReadValue(after, "OPERLOOM_RUNNER_URL")
               == Filled(ReadValue(worker, "OPERLOOM_RUNNER_URL"),
                         "http://127.0.0.1:3101" + "/workbench/tool-runners/invocations")
            && ReadValue(after, "OPERLOOM_CALLBACK_URL")
               == Filled(ReadValue(worker, "OPERLOOM_CALLBACK_URL"),
                         "http://127.0.0.1:8787" + "/workbench/run-callbacks")
            && ReadValue(after, "OPERLOOM_RUNNER_TRANSPORT")
               == (if ReadValue(worker, "OPERLOOM_RUNNER_TRANSPORT") == Some("inline") then Some("fly")
                   else Filled(ReadValue(worker, "OPERLOOM_RUNNER_TRANSPORT"), "fly"))
  {
    LocalIsFixed();
    WorkerDefaultsRead(LOCAL, frontend, worker, d);
  }

  /** The administrator of this repository, by name, and the provider key, which setup reports on but never sets. */
  lemma LocalAdministrator(frontend: string, worker: string, d: Draws)
    ensures var after := Initialized(LOCAL, frontend, worker, d);
            var user := ReadValue(worker, "OPERLOOM_LOCAL_API_USER_ID");
            && ReadValue(after.frontend, "OPERLOOM_ADMIN_USER_IDS")
               == Filled(ReadValue(frontend, "OPERLOOM_ADMIN_USER_IDS"),
                         if user.None? || user.value == "" then "operloom-local" else user.value)
            && LOCAL.n.provider == "OPENROUTER_API_KEY"
            && ReadValue(after.worker, "OPENROUTER_API_KEY") == ReadValue(worker, "OPENROUTER_API_KEY")
  {
    LocalIsFixed();
    UserBecomesAdmin(LOCAL, frontend, worker, d);
    PlainProvider();
    ProviderKept(LOCAL, frontend, worker, d);
  }

  lemma PlainProvider()
    ensures Plain(LOCAL.n.provider) && Lacks(WorkerKeys(LOCAL.n), LOCAL.n.provider)
  {
    Lengths();
    assert |LOCAL.n.provider| == 18;
  }

  lemma ProviderKept(p: Profile, frontend: string, worker: string, d: Draws)
    requires Fixed(p) && Plain(p.n.provider) && Lacks(WorkerKeys(p.n), p.n.provider)
    ensures ReadValue(Initialized(p, frontend, worker, d).worker, p.n.provider) == ReadValue(worker, p.n.provider)
  {
    EveryKeyRead(p, frontend, worker, d, p.n.provider);
    WorkerLacks(p, Chosen(p, frontend, worker, d), p.n.provider);
    Unlisted(WorkerSettings(p, Chosen(p, frontend, worker, d)), p.n.provider, ReadValue(worker, p.n.provider));
  }
}
