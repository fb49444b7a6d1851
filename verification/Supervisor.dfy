/** The process-group supervisor: stop, close, monitor and timers, driven by events in any order. */
module Supervisor {
  import opened Text
  import opened ProcessList

  const FORCE_AFTER_MS := 1000
  const FINISH_AFTER_MS := 1050
  const FAILURES_TO_STOP := 5

  datatype Signal = TERM | KILL

  /** How `process.kill` on the group ended: for an error its code and, when that is looked up, the listing
      of process groups, if `ps` gave one. */
  datatype Kill = Delivered | Errored(code: Option<string>, listing: Option<string>)

  datatype Reason =
    | Asked(failure: string)
    | CouldNotStart(message: string)
    | CouldNotStop(code: string)
    | MonitorFailed
    | OverLimit(processes: nat, megabytes: int)

  datatype Poll = Unavailable | Listing(stdout: string)

  datatype Sent = Sent(signal: Signal, at: nat)

  /** What a handled poll saw. */
  datatype Sight = Nothing | Group(processes: nat, kib: real)

  datatype Result = Result(reason: Option<Reason>, peakProcesses: nat, peakMegabytes: int)

  /** The process identifier is absent when the child could not be started. */
  datatype Settings = Settings(pid: Option<int>, maxProcesses: nat, maxMegabytes: nat, number: Numbers)

  datatype Timers = Timers(now: nat, force: Option<nat>, finish: Option<nat>)

  datatype Life = Life(stopping: bool, closed: bool, listening: bool, exited: bool)

  datatype Monitor = Monitor(polling: bool, checking: bool, failures: nat, peakProcesses: nat, peakMegabytes: int)

  /** The variables of the source, then the histories: signals sent, polls handled, stops begun, the result. */
  datatype World = World(timers: Timers, life: Life, monitor: Monitor, reason: Option<Reason>,
                         signals: seq<Sent>, polls: seq<Sight>, stops: seq<Option<Reason>>, result: Option<Result>)

  datatype Event =
    | Advance(ms: nat)
    | StopAsked(failure: Option<string>, kill: Kill)
    | SpawnError(message: string)
    | Interval
    | PollDone(poll: Poll, kill: Kill)
    | Close(kill: Kill)
    | ForceFires(kill: Kill)
    | FinishFires(kill: Kill)
    | ParentExit(kill: Kill)

  function Max(a: int, b: int): int {
    if a < b then b else a
  }

  // ----- Events as functions of the state -----

  function Begin(s: Settings): World {
    World(Timers(0, None, None), Life(false, false, true, false), Monitor(s.pid.Some?, false, 0, 0, 0), None, [], [],
          [], None)
  }

  /** Timers that are due fire in the order of their due times. */
  predicate Enabled(w: World, e: Event) {
    var t := w.timers;
    !w.life.exited &&
    match e
    case Interval => w.monitor.polling
    case PollDone(_, _) => w.monitor.checking
    case Close(_) => !w.life.closed
    case ForceFires(_) => t.force.Some? && t.force.value <= t.now && (t.finish.None? || t.force.value <= t.finish.value)
    case FinishFires(_) => t.finish.Some? && t.finish.value <= t.now
      && (t.force.None? || t.finish.value <= t.force.value)
    case _ => true
  }

  /** The signals after one more, when there is a group to signal. */
  function Sending(s: Settings, signals: seq<Sent>, signal: Signal, at: nat): seq<Sent> {
    if s.pid.None? then signals else signals + [Sent(signal, at)]
  }

  /** The error of a signal that counts: not for a group that is gone, as `ESRCH` says, or as the listing
      shows when `EPERM` leaves it open. */
  function Refusal(s: Settings, kill: Kill): Option<string> {
    if s.pid.None? || kill.Delivered? || kill.code == Some("ESRCH") then None
    else if kill.code == Some("EPERM") && kill.listing.Some? && !Names(kill.listing.value, s.number, s.pid.value)
      then None
    else Some(if kill.code.Some? then kill.code.value else "unknown error")
  }

  /** The first failure is the one reported. */
  function Blaming(s: Settings, reason: Option<Reason>, kill: Kill): Option<Reason> {
    var refusal := Refusal(s, kill);
    if reason.None? && refusal.Some? then Some(CouldNotStop(refusal.value)) else reason
  }

  /** An empty text is no reason to report. */
  function Shown(reason: Option<Reason>): Option<Reason> {
    if reason == Some(Asked("")) then None else reason
  }

  function Stopped(s: Settings, w: World, failure: Option<Reason>, kill: Kill): World {
    World(Timers(w.timers.now, Some(w.timers.now + FORCE_AFTER_MS), w.timers.finish),
          Life(true, w.life.closed, w.life.listening, w.life.exited),
          Monitor(false, w.monitor.checking, w.monitor.failures, w.monitor.peakProcesses, w.monitor.peakMegabytes),
          Blaming(s, if failure.Some? then failure else w.reason, kill),
          Sending(s, w.signals, TERM, w.timers.now), w.polls, w.stops + [failure], w.result)
  }

  function Stopping(s: Settings, w: World, failure: Option<Reason>, kill: Kill): World {
    if w.life.stopping then w else Stopped(s, w, failure, kill)
  }

  /** The monitor's counters after a handled poll. */
  function Counted(m: Monitor, sight: Sight): Monitor {
    if sight.Nothing? then Monitor(m.polling, false, m.failures + 1, m.peakProcesses, m.peakMegabytes)
    else Monitor(m.polling, false, 0, Max(m.peakProcesses, sight.processes), Max(m.peakMegabytes, Megabytes(sight.kib)))
  }

  function SightOf(s: Settings, poll: Poll, pid: int): Sight {
    if poll.Unavailable? then Nothing
    else
      var group := GroupMemory(Split(poll.stdout, '\n'), s.number, pid);
      Group(|group|, Sum(group))
  }

  /** Why a handled poll stops the group, if it does. */
  function Verdict(s: Settings, failures: nat, sight: Sight): Option<Reason> {
    if sight.Nothing? then (if failures >= FAILURES_TO_STOP then Some(MonitorFailed) else None)
    else if sight.processes > s.maxProcesses || sight.kib / 1024.0 > s.maxMegabytes as real
    then Some(OverLimit(sight.processes, Megabytes(sight.kib)))
    else None
  }

  function Handled(s: Settings, w: World, sight: Sight, kill: Kill): World {
    var seen := w.(monitor := Counted(w.monitor, sight), polls := w.polls + [sight]);
    var verdict := Verdict(s, seen.monitor.failures, sight);
    if verdict.Some? then Stopping(s, seen, verdict, kill) else seen
  }

  function Polled(s: Settings, w: World, poll: Poll, kill: Kill): World {
    if w.life.stopping || s.pid.None? then w.(monitor := w.monitor.(checking := false))
    else Handled(s, w, SightOf(s, poll, s.pid.value), kill)
  }

  function Closing(s: Settings, w: World, kill: Kill): World {
    var stopped := Stopping(s, w, None, kill);
    stopped.(timers := stopped.timers.(finish := Some(w.timers.now + FINISH_AFTER_MS)),
             life := stopped.life.(closed := true), monitor := stopped.monitor.(polling := false))
  }

  function Finishing(s: Settings, w: World, kill: Kill): World {
    var reason := Blaming(s, w.reason, kill);
    World(Timers(w.timers.now, None, None), w.life.(listening := false), w.monitor, reason,
          Sending(s, w.signals, KILL, w.timers.now), w.polls, w.stops,
          Some(Result(Shown(reason), w.monitor.peakProcesses, w.monitor.peakMegabytes)))
  }

  function Apply(s: Settings, w: World, e: Event): World
    requires Enabled(w, e)
  {
    match e
    case Advance(ms) => w.(timers := w.timers.(now := w.timers.now + ms))
    case StopAsked(failure, kill) => Stopping(s, w, if failure.Some? then Some(Asked(failure.value)) else None, kill)
    case SpawnError(message) => w.(reason := Some(CouldNotStart(message)))
    case Interval => if w.monitor.checking || w.life.stopping then w else w.(monitor := w.monitor.(checking := true))
    case PollDone(poll, kill) => Polled(s, w, poll, kill)
    case Close(kill) => Closing(s, w, kill)
    case ForceFires(kill) =>
      w.(timers := w.timers.(force := None), reason := Blaming(s, w.reason, kill),
         signals := Sending(s, w.signals, KILL, w.timers.now))
    case FinishFires(kill) => Finishing(s, w, kill)
    case ParentExit(kill) =>
      if w.life.listening then
        w.(life := w.life.(exited := true), reason := Blaming(s, w.reason, kill),
           signals := Sending(s, w.signals, KILL, w.timers.now))
      else w.(life := w.life.(exited := true))
  }

  ghost predicate Runs(s: Settings, w: World, events: seq<Event>, end: World)
    decreases |events|
  {
    if events == [] then w == end
    else Enabled(w, events[0]) && Runs(s, Apply(s, w, events[0]), events[1..], end)
  }

  // ----- The handlers as a program -----

  /** What the process sees of the outside: whether the child has closed, the exit listener is there, the
      parent is gone. */
  datatype Outside = Outside(closed: bool, listening: bool, exited: bool)

  /** The histories of `World`. */
  datatype Record = Record(signals: seq<Sent>, polls: seq<Sight>, stops: seq<Option<Reason>>, result: Option<Result>)

  class ManagedProcess {
    const settings: Settings
    var timers: Timers
    var stopping: bool
    var outside: Outside
    var polling: bool
    var checking: bool
    var monitorFailures: nat
    var peakProcesses: nat
    var peakMegabytes: int
    var reason: Option<Reason>
    var record: Record

    constructor (settings: Settings)
      ensures this.settings == settings && Snapshot() == Begin(settings)
    {
      this.settings, timers := settings, Timers(0, None, None);
      stopping, outside := false, Outside(false, true, false);
      polling, checking, monitorFailures, peakProcesses, peakMegabytes := settings.pid.Some?, false, 0, 0, 0;
      reason, record := None, Record([], [], [], None);
    }

    function Snapshot(): World reads this {
      World(timers, Life(stopping, outside.closed, outside.listening, outside.exited),
            Monitor(polling, checking, monitorFailures, peakProcesses, peakMegabytes), reason,
            record.signals, record.polls, record.stops, record.result)
    }

    method SignalGroup(signal: Signal, kill: Kill)
      modifies this`record, this`reason
      ensures record == old(record).(signals := Sending(settings, old(record).signals, signal, timers.now))
      ensures reason == Blaming(settings, old(reason), kill)
    {
      if settings.pid.None? { return; }
      record := record.(signals := record.signals + [Sent(signal, timers.now)]);
      if kill.Delivered? || kill.code == Some("ESRCH") { return; }
      if kill.code == Some("EPERM") && kill.listing.Some? {
        if !Names(kill.listing.value, settings.number, settings.pid.value) { return; }
      }
      if reason.None? { reason := Some(CouldNotStop(if kill.code.Some? then kill.code.value else "unknown error")); }
    }

    method Stop(failure: Option<Reason>, kill: Kill)
      modifies this`timers, this`stopping, this`polling, this`reason, this`record
      ensures old(stopping) ==> Snapshot() == old(Snapshot())
      ensures !old(stopping) ==> Snapshot() == Stopped(settings, old(Snapshot()), failure, kill)
    {
      if stopping { return; }
      stopping, polling, record := true, false, record.(stops := record.stops + [failure]);
      reason := if failure.Some? then failure else reason;
      SignalGroup(TERM, kill);
      timers := Timers(timers.now, Some(timers.now + FORCE_AFTER_MS), timers.finish);
    }

    method OnClose(kill: Kill)
      requires Enabled(Snapshot(), Close(kill))
      modifies this
      ensures Snapshot() == Apply(settings, old(Snapshot()), Close(kill))
    {
      outside, polling := outside.(closed := true), false;
      if !stopping { Stop(None, kill); }
      timers := Timers(timers.now, timers.force, Some(timers.now + FINISH_AFTER_MS));
    }

    method OnForce(kill: Kill)
      requires Enabled(Snapshot(), ForceFires(kill))
      modifies this`timers, this`record, this`reason
      ensures Snapshot() == Apply(settings, old(Snapshot()), ForceFires(kill))
    {
      timers := Timers(timers.now, None, timers.finish);
      SignalGroup(KILL, kill);
    }

    method OnFinish(kill: Kill)
      requires Enabled(Snapshot(), FinishFires(kill))
      modifies this`timers, this`record, this`reason, this`outside
      ensures Snapshot() == Apply(settings, old(Snapshot()), FinishFires(kill))
    {
      timers := Timers(timers.now, None, None);
      SignalGroup(KILL, kill);
      outside := outside.(listening := false);
      record := record.(result := Some(Result(Shown(reason), peakProcesses, peakMegabytes)));
    }

    method OnInterval()
      requires Enabled(Snapshot(), Interval)
      modifies this`checking
      ensures Snapshot() == Apply(settings, old(Snapshot()), Interval)
    {
      if checking || stopping { return; }
      checking := true;
    }

    method OnUnavailable(kill: Kill)
      requires !stopping
      modifies this
      ensures Snapshot() == Handled(settings, old(Snapshot()), Nothing, kill)
    {
      checking, monitorFailures, record := false, monitorFailures + 1, record.(polls := record.polls + [Nothing]);
      if monitorFailures >= FAILURES_TO_STOP { Stop(Some(MonitorFailed), kill); }
    }

    method OnGroup(processes: nat, kib: real, kill: Kill)
      requires !stopping
      modifies this
      ensures Snapshot() == Handled(settings, old(Snapshot()), Group(processes, kib), kill)
    {
      checking, monitorFailures := false, 0;
      peakProcesses, peakMegabytes := Max(peakProcesses, processes), Max(peakMegabytes, Megabytes(kib));
      record := record.(polls := record.polls + [Group(processes, kib)]);
      if processes > settings.maxProcesses || kib / 1024.0 > settings.maxMegabytes as real {
        Stop(Some(OverLimit(processes, Megabytes(kib))), kill);
      }
    }

    method OnPoll(poll: Poll, kill: Kill)
      requires Enabled(Snapshot(), PollDone(poll, kill)) && settings.pid.Some?
      modifies this
      ensures Snapshot() == Apply(settings, old(Snapshot()), PollDone(poll, kill))
    {
      if stopping {
        checking := false;
      } else if poll.Unavailable? {
        OnUnavailable(kill);
      } else {
        var processes, kib := Measure(poll.stdout, settings.number, settings.pid.value);
        OnGroup(processes, kib, kill);
      }
    }

    method OnParentExit(kill: Kill)
      requires Enabled(Snapshot(), ParentExit(kill))
      modifies this`record, this`reason, this`outside
      ensures Snapshot() == Apply(settings, old(Snapshot()), ParentExit(kill))
    {
      if outside.listening { SignalGroup(KILL, kill); }
      outside := outside.(exited := true);
    }
  }

  // ----- What every event keeps -----

  /** One SIGTERM; a SIGKILL no sooner than the grace period after it; a last SIGKILL no sooner than the
      completion delay after it. */
  predicate TermKillKill(signals: seq<Sent>, count: nat) {
    && |signals| == count <= 3
    && (count > 0 ==> signals[0].signal == TERM)
    && (count > 1 ==> signals[1].signal == KILL && signals[1].at >= signals[0].at + 1000)
    && (count > 2 ==>
        && signals[2].signal == KILL
        && signals[2].at >= signals[1].at && signals[2].at >= signals[0].at + 1050)
  }

  /** How many signals have gone out, read off the timers. */
  function Stage(t: Timers, l: Life): nat {
    if !l.stopping then 0 else if t.force.Some? then 1 else if l.listening then 2 else 3
  }

  predicate TimersOk(t: Timers, l: Life) {
    && (l.closed ==> l.stopping)
    && (t.finish.Some? ==> l.closed)
    && (!l.listening <==> l.closed && t.finish.None?)
    && (t.force.Some? ==> l.stopping && l.listening && t.force.value <= t.now + FORCE_AFTER_MS)
    && (t.force.Some? && t.finish.Some? ==> t.force.value < t.finish.value)
  }

  predicate SignalsOk(s: Settings, t: Timers, l: Life, signals: seq<Sent>) {
    if s.pid.None? then signals == []
    else
      && TermKillKill(signals, Stage(t, l))
      && (signals != [] ==> signals[0].at <= t.now && signals[|signals| - 1].at <= t.now)
      && (t.force.Some? && signals != [] ==> t.force.value == signals[0].at + FORCE_AFTER_MS)
      && (t.finish.Some? && signals != [] ==> t.finish.value >= signals[0].at + FINISH_AFTER_MS)
  }

  /** Timers and signals, while the parent lives or once completion has resolved. */
  predicate LifeOk(s: Settings, w: World) {
    && TimersOk(w.timers, w.life)
    && (!w.life.exited || !w.life.listening ==> SignalsOk(s, w.timers, w.life, w.signals))
    && |w.stops| == (if w.life.stopping then 1 else 0)
    && (w.result.Some? <==> !w.life.listening)
  }

  function TrailingFailures(polls: seq<Sight>): nat {
    if polls != [] && polls[|polls| - 1].Nothing? then TrailingFailures(polls[..|polls| - 1]) + 1 else 0
  }

  function Peaks(polls: seq<Sight>): (nat, int) {
    if polls == [] then (0, 0)
    else
      var (processes, megabytes) := Peaks(polls[..|polls| - 1]);
      var last := polls[|polls| - 1];
      if last.Group? then (Max(processes, last.processes), Max(megabytes, Megabytes(last.kib)))
        else (processes, megabytes)
  }

  predicate MonitorOk(s: Settings, m: Monitor, stopping: bool, polls: seq<Sight>) {
    && m.failures == TrailingFailures(polls)
    && (!stopping ==> m.failures < FAILURES_TO_STOP)
    && (m.peakProcesses, m.peakMegabytes) == Peaks(polls)
    && (m.checking || m.polling ==> s.pid.Some?)
  }

  predicate Inv(s: Settings, w: World) {
    LifeOk(s, w) && MonitorOk(s, w.monitor, w.life.stopping, w.polls)
  }

  lemma StoppingLife(s: Settings, w: World, failure: Option<Reason>, kill: Kill)
    requires LifeOk(s, w) && !w.life.exited
    ensures LifeOk(s, Stopping(s, w, failure, kill))
  {}

  lemma CountedOk(s: Settings, m: Monitor, stopping: bool, polls: seq<Sight>, sight: Sight)
    requires MonitorOk(s, m, stopping, polls)
    ensures var next := Counted(m, sight);
      && next.failures == TrailingFailures(polls + [sight])
      && (next.peakProcesses, next.peakMegabytes) == Peaks(polls + [sight])
  {
    assert (polls + [sight])[..|polls|] == polls;
  }

  lemma PollKeeps(s: Settings, w: World, poll: Poll, kill: Kill)
    requires Inv(s, w) && !w.life.exited && w.monitor.checking
    ensures Inv(s, Polled(s, w, poll, kill))
  {
    if !w.life.stopping {
      var sight := SightOf(s, poll, s.pid.value);
      CountedOk(s, w.monitor, false, w.polls, sight);
      var seen := w.(monitor := Counted(w.monitor, sight), polls := w.polls + [sight]);
      assert LifeOk(s, seen);
      StoppingLife(s, seen, Verdict(s, seen.monitor.failures, sight), kill);
    }
  }

  lemma ClosingLife(s: Settings, w: World, kill: Kill)
    requires LifeOk(s, w) && !w.life.exited && !w.life.closed
    ensures LifeOk(s, Closing(s, w, kill))
  {
    StoppingLife(s, w, None, kill);
  }

  lemma ForceLife(s: Settings, w: World, kill: Kill)
    requires LifeOk(s, w) && Enabled(w, ForceFires(kill))
    ensures LifeOk(s, Apply(s, w, ForceFires(kill)))
  {}

  lemma FinishLife(s: Settings, w: World, kill: Kill)
    requires LifeOk(s, w) && Enabled(w, FinishFires(kill))
    ensures LifeOk(s, Finishing(s, w, kill))
  {}

  lemma EventKeeps(s: Settings, w: World, e: Event)
    requires Inv(s, w) && Enabled(w, e)
    ensures Inv(s, Apply(s, w, e))
  {
    match e
    case StopAsked(failure, kill) =>
      StoppingLife(s, w, if failure.Some? then Some(Asked(failure.value)) else None, kill);
    case PollDone(poll, kill) => PollKeeps(s, w, poll, kill);
    case Close(kill) => ClosingLife(s, w, kill);
    case ForceFires(kill) => ForceLife(s, w, kill);
    case FinishFires(kill) => FinishLife(s, w, kill);
    case _ =>
  }

  lemma {:induction false} RunKeeps(s: Settings, w: World, events: seq<Event>, end: World)
    requires Inv(s, w) && Runs(s, w, events, end)
    ensures Inv(s, end)
    decreases |events|
  {
    if events == [] {
    } else {
      EventKeeps(s, w, events[0]);
      RunKeeps(s, Apply(s, w, events[0]), events[1..], end);
    }
  }

  // ----- Main results -----

  /** When `completion` has resolved, the group has had one SIGTERM, a SIGKILL after the grace period and
      a SIGKILL at completion, and gets nothing more, whatever happens later. */
  lemma CompletionSignals(s: Settings, events: seq<Event>, end: World)
    requires Runs(s, Begin(s), events, end) && end.result.Some?
    ensures if s.pid.None? then end.signals == [] else TermKillKill(end.signals, 3)
  {
    RunKeeps(s, Begin(s), events, end);
  }

  /** While the parent lives, exactly one SIGTERM has gone out once `stop` has begun and nothing before;
      `stop` acts once, however often it is asked. */
  lemma OneTerm(s: Settings, events: seq<Event>, end: World)
    requires Runs(s, Begin(s), events, end) && !end.life.exited && s.pid.Some?
    ensures TermKillKill(end.signals, Stage(end.timers, end.life))
    ensures |end.stops| == (if end.life.stopping then 1 else 0) && (end.signals == [] <==> end.stops == [])
  {
    RunKeeps(s, Begin(s), events, end);
  }

  predicate LastAllFailed(polls: seq<Sight>, count: nat) {
    count <= |polls| && forall i | |polls| - count <= i < |polls| :: polls[i].Nothing?
  }

  lemma {:induction false} TrailingMeansLast(polls: seq<Sight>, count: nat)
    ensures TrailingFailures(polls) >= count <==> LastAllFailed(polls, count)
    decreases count
  {
    if count > 0 && polls != [] && polls[|polls| - 1].Nothing? {
      var before := polls[..|polls| - 1];
      TrailingMeansLast(before, count - 1);
      assert forall i | 0 <= i < |before| :: before[i] == polls[i];
    }
  }

  /** A poll stops the group exactly when it is the fifth failure in a row or sees a limit exceeded. */
  lemma PollStopsIff(s: Settings, events: seq<Event>, w: World, poll: Poll, kill: Kill)
    requires Runs(s, Begin(s), events, w) && Enabled(w, PollDone(poll, kill)) && !w.life.stopping
    ensures s.pid.Some?
    ensures Apply(s, w, PollDone(poll, kill)).life.stopping <==>
              match poll
              case Unavailable => LastAllFailed(w.polls, 4)
              case Listing(stdout) =>
                var group := GroupMemory(Split(stdout, '\n'), s.number, s.pid.value);
                |group| > s.maxProcesses || Sum(group) / 1024.0 > s.maxMegabytes as real
  {
    RunKeeps(s, Begin(s), events, w);
    TrailingMeansLast(w.polls, 4);
  }

  /** The peaks are the largest group size and memory that any handled poll saw. */
  lemma PeaksAreLargest(s: Settings, events: seq<Event>, end: World)
    requires Runs(s, Begin(s), events, end)
    ensures forall i | 0 <= i < |end.polls| && end.polls[i].Group? ::
              end.polls[i].processes <= end.monitor.peakProcesses
                && Megabytes(end.polls[i].kib) <= end.monitor.peakMegabytes
    ensures end.monitor.peakProcesses > 0 ==>
              exists i | 0 <= i < |end.polls| ::
                end.polls[i].Group? && end.polls[i].processes == end.monitor.peakProcesses
    ensures end.monitor.peakMegabytes > 0 ==>
              exists i | 0 <= i < |end.polls| ::
                end.polls[i].Group? && Megabytes(end.polls[i].kib) == end.monitor.peakMegabytes
  {
    RunKeeps(s, Begin(s), events, end);
    PeaksBound(end.polls);
    PeaksAttained(end.polls);
  }

  lemma {:induction false} PeaksBound(polls: seq<Sight>)
    ensures forall i | 0 <= i < |polls| && polls[i].Group? ::
              polls[i].processes <= Peaks(polls).0 && Megabytes(polls[i].kib) <= Peaks(polls).1
  {
    if polls == [] {
    } else {
      PeaksBound(polls[..|polls| - 1]);
      assert forall i | 0 <= i < |polls| - 1 :: polls[..|polls| - 1][i] == polls[i];
    }
  }

  lemma {:induction false} PeaksAttained(polls: seq<Sight>)
    ensures Peaks(polls).0 > 0 ==> exists i | 0 <= i < |polls| ::
            polls[i].Group? && polls[i].processes == Peaks(polls).0
    ensures Peaks(polls).1 > 0 ==> exists i | 0 <= i < |polls| ::
            polls[i].Group? && Megabytes(polls[i].kib) == Peaks(polls).1
  {
    if polls == [] {
    } else {
      PeaksAttained(polls[..|polls| - 1]);
      assert forall i | 0 <= i < |polls| - 1 :: polls[..|polls| - 1][i] == polls[i];
    }
  }

  /** The parent's exit kills the group unless completion has already resolved. */
  lemma ExitKills(s: Settings, events: seq<Event>, w: World, kill: Kill)
    requires Runs(s, Begin(s), events, w) && !w.life.exited && s.pid.Some?
    ensures Apply(s, w, ParentExit(kill)).signals ==
            if w.result.Some? then w.signals else w.signals + [Sent(KILL, w.timers.now)]
  {
    RunKeeps(s, Begin(s), events, w);
  }

  /** Once the child has closed, waiting out the delay makes the finish timer fire next, after the force
      timer if that is still pending, and completion resolves. */
  lemma CloseCompletes(s: Settings, events: seq<Event>, w: World, force: Kill, kill: Kill)
    requires Runs(s, Begin(s), events, w) && !w.life.exited && w.life.closed && w.result.None?
    ensures w.timers.finish.Some?
    ensures var late := Apply(s, w, Advance(w.timers.finish.value));
            && (late.timers.force.Some? ==> Enabled(late, ForceFires(force)))
            && var due := if late.timers.force.Some? then Apply(s, late, ForceFires(force)) else late;
               Enabled(due, FinishFires(kill)) && Apply(s, due, FinishFires(kill)).result.Some?
  {
    RunKeeps(s, Begin(s), events, w);
  }

  /** What is on record as the reason, in a run without a start error. */
  predicate ReasonOk(w: World) {
    && (w.stops == [] && !w.life.exited ==> w.reason.None?)
    && (w.stops != [] && w.stops[0].Some? ==> w.reason == w.stops[0])
    && (w.stops != [] && w.stops[0].None? && w.reason.Some? ==> w.reason.value.CouldNotStop?)
    && (w.result.Some? ==> w.result.value == Result(Shown(w.reason), w.monitor.peakProcesses, w.monitor.peakMegabytes))
  }

  lemma ReasonKept(s: Settings, w: World, e: Event)
    requires Inv(s, w) && ReasonOk(w) && Enabled(w, e) && !e.SpawnError?
    ensures ReasonOk(Apply(s, w, e))
  {}

  lemma {:induction false} ReasonKeeps(s: Settings, w: World, events: seq<Event>, end: World)
    requires Inv(s, w) && ReasonOk(w) && Runs(s, w, events, end) && forall e | e in events :: !e.SpawnError?
    ensures Inv(s, end) && ReasonOk(end)
    decreases |events|
  {
    if events == [] {
    } else {
      assert events[0] in events && forall e | e in events[1..] :: e in events;
      EventKeeps(s, w, events[0]);
      ReasonKept(s, w, events[0]);
      ReasonKeeps(s, Apply(s, w, events[0]), events[1..], end);
    }
  }

  /** Completion reports the failure that stopped the group, unless that is an empty text; a group stopped
      without one reports at most that a signal could not be delivered. */
  lemma FailureReported(s: Settings, events: seq<Event>, end: World)
    requires Runs(s, Begin(s), events, end) && end.result.Some? && forall e | e in events :: !e.SpawnError?
    ensures |end.stops| == 1
    ensures end.stops[0].Some? ==> end.result.value.reason == Shown(end.stops[0])
    ensures end.stops[0].None? && end.result.value.reason.Some? ==> end.result.value.reason.value.CouldNotStop?
    ensures (end.result.value.peakProcesses, end.result.value.peakMegabytes) == Peaks(end.polls)
  {
    ReasonKeeps(s, Begin(s), events, end);
  }

  // ----- Signals that could not be delivered -----

  /** How sending a signal may end without being a failure: it was delivered, the group is gone, or a listing
      shows that it is. */
  predicate Harmless(s: Settings, kill: Kill) {
    || kill.Delivered?
    || kill.code == Some("ESRCH")
    || (kill.code == Some("EPERM") && kill.listing.Some? && s.pid.Some?
        && forall line | line in Split(kill.listing.value, '\n') :: s.number(Trim(line)) != Some(s.pid.value as real))
  }

  function KillsOf(e: Event): seq<Kill> {
    match e
    case StopAsked(_, kill) => [kill]
    case PollDone(_, kill) => [kill]
    case Close(kill) => [kill]
    case ForceFires(kill) => [kill]
    case FinishFires(kill) => [kill]
    case ParentExit(kill) => [kill]
    case _ => []
  }

  /** How the signals of a run ended, for every event that sent one. */
  function Kills(s: Settings, w: World, events: seq<Event>): seq<Kill>
    decreases |events|
  {
    if events == [] || !Enabled(w, events[0]) then []
    else
      var v := Apply(s, w, events[0]);
      (if |v.signals| > |w.signals| then KillsOf(events[0]) else []) + Kills(s, v, events[1..])
  }

  /** The reason that the first harmful kill gives. */
  function FirstHarm(s: Settings, kills: seq<Kill>): Option<Reason> {
    if kills == [] then None
    else
      var first, last := FirstHarm(s, kills[..|kills| - 1]), kills[|kills| - 1];
      if first.Some? then first
      else if Harmless(s, last) then None
      else Some(CouldNotStop(if last.code.Some? then last.code.value else "unknown error"))
  }

  lemma {:induction false} FirstHarmMeans(s: Settings, kills: seq<Kill>)
    ensures FirstHarm(s, kills).None? <==> forall i | 0 <= i < |kills| :: Harmless(s, kills[i])
    ensures FirstHarm(s, kills).Some? ==>
            exists i | 0 <= i < |kills| ::
              && !Harmless(s, kills[i]) && (forall j | 0 <= j < i :: Harmless(s, kills[j]))
              && FirstHarm(s, kills)
                 == Some(CouldNotStop(if kills[i].code.Some? then kills[i].code.value else "unknown error"))
  {
    if kills == [] {
    } else {
      var init := kills[..|kills| - 1];
      FirstHarmMeans(s, init);
      assert forall i | 0 <= i < |init| :: init[i] == kills[i];
    }
  }

  lemma FirstHarmNext(s: Settings, kills: seq<Kill>, kill: Kill)
    requires s.pid.Some?
    ensures FirstHarm(s, kills + [kill]) == Blaming(s, FirstHarm(s, kills), kill)
  {
    assert (kills + [kill])[..|kills|] == kills;
  }

  /** The reason on record: none before `stop`, then the failure given to it or the first harmful kill. */
  predicate BlameOk(s: Settings, w: World, kills: seq<Kill>) {
    && (w.stops == [] && !w.life.exited ==> w.reason.None? && kills == [])
    && (w.stops != [] && w.stops[0].None? ==> w.reason == FirstHarm(s, kills))
  }

  function Grown(w: World, v: World, e: Event): seq<Kill> {
    if |v.signals| > |w.signals| then KillsOf(e) else []
  }

  lemma BlameStep(s: Settings, w: World, e: Event, kills: seq<Kill>)
    requires Inv(s, w) && BlameOk(s, w, kills) && Enabled(w, e) && !e.SpawnError?
    ensures BlameOk(s, Apply(s, w, e), kills + Grown(w, Apply(s, w, e), e))
  {
    assert kills + [] == kills;
    if s.pid.Some? && KillsOf(e) != [] { FirstHarmNext(s, kills, KillsOf(e)[0]); }
  }

  lemma {:induction false} BlameKeeps(s: Settings, w: World, events: seq<Event>, end: World, kills: seq<Kill>)
    requires Inv(s, w) && BlameOk(s, w, kills) && Runs(s, w, events, end) && forall e | e in events :: !e.SpawnError?
    ensures BlameOk(s, end, kills + Kills(s, w, events))
    decreases |events|
  {
    if events == [] {
      assert kills + [] == kills;
    } else {
      var v := Apply(s, w, events[0]);
      assert events[0] in events && forall e | e in events[1..] :: e in events;
      EventKeeps(s, w, events[0]);
      BlameStep(s, w, events[0], kills);
      BlameKeeps(s, v, events[1..], end, kills + Grown(w, v, events[0]));
      Regroup(kills, Grown(w, v, events[0]), Kills(s, v, events[1..]));
    }
  }

  lemma Regroup<T>(a: seq<T>, b: seq<T>, c: seq<T>)
    ensures a + b + c == a + (b + c)
  {}

  /** The reason of a group that was stopped without a failure: none exactly when every signal sent was delivered
      or found the group gone, else the code of the first that did neither. */
  lemma UndeliveredReportedIff(s: Settings, events: seq<Event>, end: World)
    requires Runs(s, Begin(s), events, end) && end.result.Some? && forall e | e in events :: !e.SpawnError?
    requires end.stops == [None]
    ensures var kills, reason := Kills(s, Begin(s), events), end.result.value.reason;
            && (reason.None? <==> forall i | 0 <= i < |kills| :: Harmless(s, kills[i]))
            && (reason.Some? ==>
                exists i | 0 <= i < |kills| ::
                  && !Harmless(s, kills[i]) && (forall j | 0 <= j < i :: Harmless(s, kills[j]))
                  && reason == Some(CouldNotStop(if kills[i].code.Some? then kills[i].code.value else "unknown error")))
  {
    ReasonKeeps(s, Begin(s), events, end);
    BlameKeeps(s, Begin(s), events, end, []);
    assert [] + Kills(s, Begin(s), events) == Kills(s, Begin(s), events);
    FirstHarmMeans(s, Kills(s, Begin(s), events));
  }

  /** What stops a group, and with which failure: being asked to, its close, and a poll. */
  lemma StopsBecause(s: Settings, events: seq<Event>, w: World, e: Event)
    requires Runs(s, Begin(s), events, w) && Enabled(w, e) && !w.life.stopping
    ensures var v := Apply(s, w, e);
            && (v.stops != [] <==> v.life.stopping)
            && (e.StopAsked? ==> v.stops == [if e.failure.Some? then Some(Asked(e.failure.value)) else None])
            && (e.Close? ==> v.stops == [None])
            && (e.PollDone? && e.poll.Unavailable? && v.stops != [] ==> v.stops == [Some(MonitorFailed)])
            && (e.PollDone? && e.poll.Listing? && v.stops != [] ==>
                s.pid.Some?
                && var group := GroupMemory(Split(e.poll.stdout, '\n'), s.number, s.pid.value);
                   v.stops == [Some(OverLimit(|group|, Megabytes(Sum(group))))])
            && (!e.StopAsked? && !e.Close? && !e.PollDone? ==> v.stops == [])
  {
    RunKeeps(s, Begin(s), events, w);
  }

  // ----- The monitor goes on -----

  /** The interval runs exactly while there is a process and the group is not being stopped. */
  predicate PollingOk(s: Settings, w: World) {
    w.monitor.polling <==> s.pid.Some? && !w.life.stopping
  }

  lemma PollingKept(s: Settings, w: World, e: Event)
    requires Inv(s, w) && PollingOk(s, w) && Enabled(w, e)
    ensures PollingOk(s, Apply(s, w, e))
  {}

  lemma {:induction false} PollingKeeps(s: Settings, w: World, events: seq<Event>, end: World)
    requires Inv(s, w) && PollingOk(s, w) && Runs(s, w, events, end)
    ensures Inv(s, end) && PollingOk(s, end)
    decreases |events|
  {
    if events == [] {
    } else {
      EventKeeps(s, w, events[0]);
      PollingKept(s, w, events[0]);
      PollingKeeps(s, Apply(s, w, events[0]), events[1..], end);
    }
  }

  /** While the group runs, every interval with no poll under way begins one, and changes nothing else; a poll that
      comes back is over, is recorded unless the group is being stopped, and then changes nothing else. */
  lemma MonitoringGoesOn(s: Settings, events: seq<Event>, w: World, poll: Poll, kill: Kill)
    requires Runs(s, Begin(s), events, w) && !w.life.exited && s.pid.Some?
    ensures Enabled(w, Interval) <==> !w.life.stopping
    ensures !w.life.stopping ==> Apply(s, w, Interval) == w.(monitor := w.monitor.(checking := true))
    ensures w.monitor.checking ==> Enabled(w, PollDone(poll, kill))
    ensures w.monitor.checking ==>
            var v := Apply(s, w, PollDone(poll, kill));
            && !v.monitor.checking
            && (w.life.stopping ==> v == w.(monitor := w.monitor.(checking := false)))
            && (!w.life.stopping ==> |v.polls| == |w.polls| + 1 && v.polls[..|w.polls|] == w.polls)
            && (!w.life.stopping && poll.Unavailable? ==> v.polls[|w.polls|] == Nothing)
            && (!w.life.stopping && poll.Listing? ==>
                var group := GroupMemory(Split(poll.stdout, '\n'), s.number, s.pid.value);
                v.polls[|w.polls|] == Group(|group|, Sum(group)))
  {
    PollingKeeps(s, Begin(s), events, w);
  }

  // ----- Timers -----

  /** A stop that acts sends SIGTERM and arms the force timer for 1000 ms later; a close arms the completion timer
      for 1050 ms later, also when the group is being stopped already. */
  lemma TimersAreArmed(s: Settings, events: seq<Event>, w: World, failure: Option<string>, kill: Kill)
    requires Runs(s, Begin(s), events, w) && !w.life.exited && s.pid.Some?
    ensures !w.life.stopping ==>
            var v := Apply(s, w, StopAsked(failure, kill));
            && v.timers == Timers(w.timers.now, Some(w.timers.now + 1000), w.timers.finish)
            && v.signals == w.signals + [Sent(TERM, w.timers.now)]
    ensures w.life.stopping ==> Apply(s, w, StopAsked(failure, kill)) == w
    ensures !w.life.closed ==>
            var v := Apply(s, w, Close(kill));
            && v.timers.finish == Some(w.timers.now + 1050) && v.life.closed
            && v.timers.force == (if w.life.stopping then w.timers.force else Some(w.timers.now + 1000))
            && v.signals == (if w.life.stopping then w.signals else w.signals + [Sent(TERM, w.timers.now)])
  {
    RunKeeps(s, Begin(s), events, w);
  }
}
