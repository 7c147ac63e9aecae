/** The health of one language server: lazily started, restarted after a growing
    pause, retried slowly once it has failed too often in a row. */
module Supervisor {
  import opened Wrappers

  const MAX_U32: nat := 0xffff_ffff

  datatype ServerState = NotStarted | Starting | Healthy | Restarting | Down

  /** Pauses in seconds. */
  datatype RestartPolicy = RestartPolicy(backoff: seq<nat>, maxFailures: nat, downRetry: nat)

  const DEFAULT_REAL := RestartPolicy([1, 2, 4, 8, 16], 5, 30)

  type Policy = p: RestartPolicy | |p.backoff| == 5 && p.maxFailures <= MAX_U32 witness DEFAULT_REAL

  type Client = nat

  datatype StartResult = Live(client: Client, at: int) | Provision | SpawnOrInit

  datatype AcquireError = IsDown | IsRestarting | StartFailed

  /** What wakes the loop; `start` is what the server factory answers if it is asked. */
  datatype Event =
    | ChildExit
    | TimerFires(start: StartResult)
    | Acquire(start: StartResult)
    | ReportFailure
    | Shutdown
    | HandlesDropped

  datatype Health = Health(state: ServerState, failures: nat, lastSuccessAt: int)

  function NthBackoff(p: Policy, n: nat): nat {
    p.backoff[if n < 4 then n else 4]
  }

  // ----- the story so far -----

  /** The things that can happen to a server. */
  datatype Happening = Started(client: Client, at: int) | NotProvisioned | Anomaly

  function Outcome(start: StartResult): Happening {
    match start
    case Live(c, at) => Started(c, at)
    case Provision => NotProvisioned
    case SpawnOrInit => Anomaly
  }

  /** Oldest first. */
  datatype Story = Nothing | Then(before: Story, latest: Happening)

  /** Anomalies since the last successful start. */
  function Anomalies(log: Story): nat {
    match log
    case Nothing => 0
    case Then(before, Started(_, _)) => 0
    case Then(before, NotProvisioned) => Anomalies(before)
    case Then(before, Anomaly) => Anomalies(before) + 1
  }

  function Failures(log: Story): nat {
    if Anomalies(log) < MAX_U32 then Anomalies(log) else MAX_U32
  }

  function LastSuccess(log: Story): int {
    match log
    case Nothing => 0
    case Then(_, Started(_, at)) => at
    case Then(before, _) => LastSuccess(before)
  }

  predicate Serving(log: Story) {
    log.Then? && log.latest.Started?
  }

  /** Where the loop waits after `log`. */
  function StateOf(p: Policy, log: Story): ServerState {
    match log
    case Nothing => NotStarted
    case Then(_, Started(_, _)) => Healthy
    case Then(_, NotProvisioned) => Down
    case Then(_, Anomaly) => if Failures(log) >= p.maxFailures then Down else Restarting
  }

  function TimerOf(p: Policy, log: Story): Option<nat> {
    if !(log.Then? && log.latest == Anomaly) then None
    else if Failures(log) >= p.maxFailures then Some(p.downRetry)
    else Some(NthBackoff(p, Failures(log) - 1))
  }

  /** What `e` adds to the story. */
  function Grow(log: Story, e: Event): Story {
    match e
    case ChildExit => if Serving(log) then Then(log, Anomaly) else log
    case ReportFailure => if Serving(log) then Then(log, Anomaly) else log
    case TimerFires(start) => Then(log, Outcome(start))
    case Acquire(start) => if log == Nothing then Then(log, Outcome(start)) else log
    case Shutdown => log
    case HandlesDropped => log
  }

  /** The story told by the first `n` events. */
  function History(events: seq<Event>, n: nat): Story
    requires n <= |events|
  {
    if n == 0 then Nothing else Grow(History(events, n - 1), events[n - 1])
  }

  /** An exit can be seen only of a server that is held, and a timer fires only if armed. */
  predicate CanHappen(p: Policy, log: Story, e: Event) {
    (e.ChildExit? ==> Serving(log)) && (e.TimerFires? ==> TimerOf(p, log).Some?)
  }

  predicate Ends(e: Event) {
    e.Shutdown? || e.HandlesDropped?
  }

  predicate Allowed(p: Policy, events: seq<Event>, i: nat)
    requires i < |events|
  {
    CanHappen(p, History(events, i), events[i])
  }

  ghost predicate Possible(p: Policy, events: seq<Event>) {
    forall i :: 0 <= i < |events| ==> Allowed(p, events, i)
  }

  function AcquireReply(p: Policy, log: Story, start: StartResult): Result<Client, AcquireError> {
    if log == Nothing then
      match start
      case Live(c, _) => Success(c)
      case Provision => Failure(IsDown)
      case SpawnOrInit => Failure(if p.maxFailures <= 1 then IsDown else StartFailed)
    else if Serving(log) then Success(log.latest.client)
    else if StateOf(p, log) == Down then Failure(IsDown)
    else Failure(IsRestarting)
  }

  // ----- the actor -----

  class Supervisor {
    const policy: Policy
    var state: ServerState
    var currentClient: Option<Client>
    var watchingExit: bool
    var failures: nat
    var lastSuccessAt: int
    var restartTimer: Option<nat>
    var recorded: Option<Health>
    ghost var log: Story

    /** At every wait of the loop all fields, and the health on record, are what the story says. */
    ghost predicate AtWait()
      reads this
    {
      && state == StateOf(policy, log)
      && failures == Failures(log)
      && restartTimer == TimerOf(policy, log)
      && currentClient == (if Serving(log) then Some(log.latest.client) else None)
      && watchingExit == Serving(log)
      && lastSuccessAt == LastSuccess(log)
      && recorded == (if log == Nothing then None else Some(Health(state, failures, lastSuccessAt)))
    }

    constructor (policy: Policy)
      ensures this.policy == policy && log == Nothing && AtWait()
    {
      this.policy, state, currentClient, watchingExit := policy, NotStarted, None, false;
      failures, lastSuccessAt, restartTimer, recorded, log := 0, 0, None, None, Nothing;
    }

    method RecordState()
      modifies this`recorded
      ensures recorded == Some(Health(state, failures, lastSuccessAt))
    {
      recorded := Some(Health(state, failures, lastSuccessAt));
    }

    method SetHealthy(client: Client, now: int)
      modifies this`currentClient, this`watchingExit, this`state, this`failures, this`lastSuccessAt
      ensures currentClient == Some(client) && watchingExit && state == Healthy && failures == 0 && lastSuccessAt == now
    {
      currentClient, watchingExit, state, failures, lastSuccessAt := Some(client), true, Healthy, 0, now;
    }

    /** No client, one failure more than `before`, and a pause: the slow retry once there are too many, else the
        slot of the table for that many. */
    ghost predicate FailedOnceMore(before: nat)
      reads this
    {
      && currentClient.None? && !watchingExit
      && failures == (if before < 4294967295 then before + 1 else 4294967295)
      && (if failures >= policy.maxFailures then state == Down && restartTimer == Some(policy.downRetry)
          else && state == Restarting && failures > 0
               && restartTimer == Some(policy.backoff[if failures <= 5 then failures - 1 else 4]))
    }

    /** One more failure: restart after a pause, or give up until the slow retry. */
    method TransitionAfterAnomaly()
      requires failures == Failures(log) && lastSuccessAt == LastSuccess(log)
      modifies this
      ensures log == Then(old(log), Anomaly) && AtWait()
      ensures FailedOnceMore(old(failures)) && lastSuccessAt == old(lastSuccessAt)
    {
      currentClient, watchingExit := None, false;
      failures := if failures < MAX_U32 then failures + 1 else failures;
      if failures >= policy.maxFailures {
        state, restartTimer := Down, Some(policy.downRetry);
      } else {
        state, restartTimer := Restarting, Some(NthBackoff(policy, failures - 1));
      }
      RecordState();
      log := Then(log, Anomaly);
    }

    method AttemptStart(start: StartResult)
      requires failures == Failures(log) && lastSuccessAt == LastSuccess(log)
      requires restartTimer.None? && currentClient.None? && !watchingExit
      modifies this
      ensures log == Then(old(log), Outcome(start)) && AtWait()
      ensures match start
              case Live(client, now) =>
                && state == Healthy && currentClient == Some(client) && watchingExit
                && failures == 0 && lastSuccessAt == now && restartTimer.None?
              case Provision =>
                && state == Down && currentClient.None? && !watchingExit
                && failures == old(failures) && lastSuccessAt == old(lastSuccessAt) && restartTimer.None?
              case SpawnOrInit => FailedOnceMore(old(failures)) && lastSuccessAt == old(lastSuccessAt)
    {
      match start {
        case Live(client, now) =>
          SetHealthy(client, now);
          RecordState();
          log := Then(log, Started(client, now));
        case Provision =>
          currentClient, watchingExit, state, restartTimer := None, false, Down, None;
          RecordState();
          log := Then(log, NotProvisioned);
        case SpawnOrInit => TransitionAfterAnomaly();
      }
    }

    method HandleAcquire(start: StartResult) returns (r: Result<Client, AcquireError>)
      requires AtWait()
      modifies this
      ensures log == Grow(old(log), Acquire(start)) && AtWait()
      ensures r == AcquireReply(policy, old(log), start)
    {
      match state {
        case Healthy =>
          r := if currentClient.Some? then Success(currentClient.value) else Failure(StartFailed);
        case Restarting => r := Failure(IsRestarting);
        case Down => r := Failure(IsDown);
        case Starting => r := Failure(IsRestarting);
        case NotStarted =>
          state := Starting;
          RecordState();
          AttemptStart(start);
          match start {
            case Live(client, _) => r := Success(client);
            case Provision => r := Failure(IsDown);
            case SpawnOrInit => r := Failure(if state == Down then IsDown else StartFailed);
          }
      }
    }

    /** One turn of the loop; `stop` says the loop ends. */
    method Turn(e: Event) returns (stop: bool)
      requires AtWait() && CanHappen(policy, log, e)
      modifies this
      ensures log == Grow(old(log), e) && stop == Ends(e)
      ensures !stop ==> AtWait()
      ensures stop ==> currentClient.None? && restartTimer.None? && recorded == old(recorded)
      ensures e.ReportFailure? || e.ChildExit? ==>
                if old(state) == Healthy then old(failures) == 0 && FailedOnceMore(0)
                else && state == old(state) && currentClient == old(currentClient) && failures == old(failures)
                     && restartTimer == old(restartTimer) && recorded == old(recorded)
    {
      stop := false;
      match e {
        case ChildExit =>
          if state == Healthy {
            TransitionAfterAnomaly();
          }
        case TimerFires(start) =>
          restartTimer := None;
          AttemptStart(start);
        case Acquire(start) =>
          var r := HandleAcquire(start);
        case ReportFailure =>
          if state == Healthy {
            TransitionAfterAnomaly();
          }
        case Shutdown =>
          currentClient, watchingExit, restartTimer := None, false, None;
          stop := true;
        case HandlesDropped =>
          currentClient, watchingExit, restartTimer := None, false, None;
          stop := true;
      }
    }

    /** The loop. */
    method Run(events: seq<Event>) returns (handled: nat, stopped: bool)
      requires log == Nothing && AtWait() && Possible(policy, events)
      modifies this
      ensures handled <= |events| && log == History(events, handled)
      ensures forall i :: 0 <= i < handled - 1 ==> !Ends(events[i])
      ensures stopped ==> handled > 0 && Ends(events[handled - 1]) && currentClient.None? && restartTimer.None?
      ensures !stopped ==> handled == |events| && AtWait()
    {
      handled, stopped := 0, false;
      while !stopped && handled < |events|
        invariant handled <= |events| && log == History(events, handled)
        invariant forall i :: 0 <= i < handled - 1 ==> !Ends(events[i])
        invariant stopped ==> handled > 0 && Ends(events[handled - 1]) && currentClient.None? && restartTimer.None?
        invariant !stopped ==> AtWait() && (handled > 0 ==> !Ends(events[handled - 1]))
        decreases |events| - handled
      {
        assert Allowed(policy, events, handled);
        stopped := Turn(events[handled]);
        handled := handled + 1;
      }
    }
  }

  // ----- what the story implies -----

  lemma WaitInvariant(p: Policy, log: Story)
    ensures StateOf(p, log) != Starting
    ensures StateOf(p, log) == Healthy <==> Serving(log)
    ensures StateOf(p, log) == Healthy ==> Failures(log) == 0 && TimerOf(p, log).None?
    ensures StateOf(p, log) == Restarting ==>
              1 <= Failures(log) < p.maxFailures && TimerOf(p, log) == Some(NthBackoff(p, Failures(log) - 1))
    ensures StateOf(p, log) == Down && TimerOf(p, log).Some? ==>
              Failures(log) >= p.maxFailures && TimerOf(p, log) == Some(p.downRetry)
    ensures StateOf(p, log) == Down && TimerOf(p, log).None? ==> log.Then? && log.latest == NotProvisioned
  {
  }

  // ----- over whole runs -----

  /** What happened since the last successful start, oldest first. */
  function Recent(log: Story): seq<Happening> {
    if log == Nothing || log.latest.Started? then [] else Recent(log.before) + [log.latest]
  }

  /** The count behind `Failures`, before it saturates, is that of the anomalies since the last successful start. */
  lemma {:induction false} FailuresCountAnomalies(log: Story)
    ensures Anomalies(log) == multiset(Recent(log))[Anomaly]
  {
    if log != Nothing && !log.latest.Started? {
      FailuresCountAnomalies(log.before);
      var recent, latest := Recent(log.before), log.latest;
      assert Recent(log) == recent + [latest];
      assert Anomalies(log) == Anomalies(log.before) + (if latest == Anomaly then 1 else 0);
    }
  }

  /** A provision failure is final: no event that can happen afterwards changes anything. */
  lemma {:induction false} ProvisionFailureIsForever(p: Policy, events: seq<Event>, n: nat, m: nat)
    requires n <= m <= |events| && Possible(p, events)
    requires History(events, n).Then? && History(events, n).latest == NotProvisioned
    ensures History(events, m) == History(events, n)
    ensures forall start :: AcquireReply(p, History(events, m), start) == Failure(IsDown)
    decreases m
  {
    if m > n {
      ProvisionFailureIsForever(p, events, n, m - 1);
      assert Allowed(p, events, m - 1);
    }
  }

  /** A failure reported of a server that is up takes it away: it is started again after the first pause of the table,
      or after the slow one if no failure is tolerated, and until then nobody is served. */
  lemma ReportedFailureStopsService(p: Policy, events: seq<Event>, n: nat, start: StartResult)
    requires n < |events| && events[n].ReportFailure? && StateOf(p, History(events, n)) == Healthy
    ensures var after := History(events, n + 1);
            && StateOf(p, after) == (if p.maxFailures <= 1 then Down else Restarting)
            && TimerOf(p, after) == Some(if p.maxFailures <= 1 then p.downRetry else p.backoff[0])
            && AcquireReply(p, after, start).Failure?
  {
    WaitInvariant(p, History(events, n));
    assert History(events, n + 1) == Grow(History(events, n), events[n]);
  }

  /** A client is handed out exactly when, after the call, a server is up with no anomaly seen since its start. */
  lemma ServedClientIsLatest(p: Policy, log: Story, start: StartResult)
    ensures var after := Grow(log, Acquire(start));
            match AcquireReply(p, log, start)
            case Success(c) => Serving(after) && after.latest.client == c
            case Failure(_) => !Serving(after)
  {
  }

  function Crashing(log: Story, k: nat): Story {
    if k == 0 then log else Then(Crashing(log, k - 1), Anomaly)
  }

  /** Under the real policy a server that keeps failing is retried after 1, 2, 4 and 8 seconds, then every
      30 seconds: the last backoff slot, 16 seconds, is never used. */
  lemma RetrySchedule(log: Story, k: nat)
    requires 0 < k && Anomalies(log) == 0
    ensures TimerOf(DEFAULT_REAL, Crashing(log, k)) ==
            Some(if k == 1 then 1 else if k == 2 then 2 else if k == 3 then 4 else if k == 4 then 8 else 30)
  {
    CrashesCount(log, k);
  }

  /** Under any policy the pauses before `Down` follow the backoff table slot by slot. */
  lemma PausesFollowTheTable(p: Policy, log: Story, k: nat)
    requires Anomalies(log) == 0 && 0 < k < p.maxFailures
    ensures TimerOf(p, Crashing(log, k)) == Some(p.backoff[if k <= 5 then k - 1 else 4])
    ensures StateOf(p, Crashing(log, k)) == Restarting
  {
    CrashesCount(log, k);
  }

  lemma {:induction false} CrashesCount(log: Story, k: nat)
    requires Anomalies(log) == 0
    ensures Anomalies(Crashing(log, k)) == k
  {
    if k > 0 {
      CrashesCount(log, k - 1);
    }
  }
}
