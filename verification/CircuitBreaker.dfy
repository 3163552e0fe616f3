/**
 The per-backend circuit breaker: two Lua scripts over a Redis hash, called
 in any order by any replica.  Its answers have a closed form over the history.
 */
module CircuitBreaker {
  import opened Common

  datatype Phase = Closed | Open | HalfOpen

  /** The hash fields; a field that was never set is None. */
  datatype State = State(phase: Option<Phase>, failures: Option<int>, openedAt: Option<int>)

  const Fresh := State(None, None, None)

  datatype Event = Allow(now: int) | Record(ok: bool, now: int)

  /** None stands for a Lua error: arithmetic on a missing `opened_at`. */
  function AllowStep(s: State, now: int, cooldown: int): (State, Option<bool>) {
    match s.phase
    case Some(Open) =>
      if s.openedAt.None? then (s, None)
      else if now - s.openedAt.value >= cooldown then (s.(phase := Some(HalfOpen)), Some(true))
      else (s, Some(false))
    case _ => (s, Some(true)) // missing or closed; half-open lets every probe through
  }

  function RecordStep(s: State, ok: bool, now: int, threshold: int): State {
    if ok then s.(phase := Some(Closed), failures := Some(0))
    else
      var failures := (if s.failures.Some? then s.failures.value else 0) + 1;
      if s.phase == Some(HalfOpen) || failures >= threshold
      then State(Some(Open), Some(failures), Some(now))
      else s.(failures := Some(failures))
  }

  function Step(s: State, e: Event, threshold: int, cooldown: int): State {
    match e
    case Allow(now) => AllowStep(s, now, cooldown).0
    case Record(ok, now) => RecordStep(s, ok, now, threshold)
  }

  function Run(history: seq<Event>, threshold: int, cooldown: int): State {
    if history == [] then Fresh
    else Step(Run(Front(history), threshold, cooldown), Last(history), threshold, cooldown)
  }

  /** The breaker of one backend; its methods are the two scripts. */
  class Breaker {
    const threshold: int
    const cooldown: int
    var phase: Option<Phase>
    var failures: Option<int>
    var openedAt: Option<int>

    function View(): State
      reads this
    {
      State(phase, failures, openedAt)
    }

    constructor (threshold: int, cooldown: int)
      ensures this.threshold == threshold && this.cooldown == cooldown && View() == Fresh
    {
      this.threshold, this.cooldown := threshold, cooldown;
      phase, failures, openedAt := None, None, None;
    }

    method Allow(now: int) returns (answer: Option<bool>)
      modifies this`phase
      ensures (View(), answer) == AllowStep(old(View()), now, cooldown)
    {
      if phase.None? || phase == Some(Closed) {
        return Some(true);
      }
      if phase == Some(Open) {
        if openedAt.None? {
          return None;
        }
        if now - openedAt.value >= cooldown {
          phase := Some(HalfOpen);
          return Some(true);
        }
        return Some(false);
      }
      return Some(true);
    }

    /** Returns the stored phase, which is missing until a success or a trip has set it. */
    method Record(ok: bool, now: int) returns (stored: Option<Phase>)
      modifies this
      ensures View() == RecordStep(old(View()), ok, now, threshold)
      ensures stored == phase
    {
      var seen := if phase.None? then Closed else phase.value;
      if ok {
        phase, failures := Some(Closed), Some(0);
      } else {
        var count := (if failures.Some? then failures.value else 0) + 1;
        failures := Some(count);
        if seen == HalfOpen || count >= threshold {
          phase, openedAt := Some(Open), Some(now);
        }
      }
      return phase;
    }
  }

  // ----- the history, read without the state machine -----

  /** Consecutive failures since the last success. */
  function Trailing(history: seq<Event>): nat {
    if history == [] then 0
    else
      match Last(history)
      case Allow(_) => Trailing(Front(history))
      case Record(ok, _) => if ok then 0 else Trailing(Front(history)) + 1
  }

  /** Time of the last failure; only meaningful once there is one. */
  function LastFailure(history: seq<Event>): int {
    if history == [] then 0
    else if Last(history).Record? && !Last(history).ok then Last(history).now
    else LastFailure(Front(history))
  }

  predicate AnySuccess(history: seq<Event>) {
    history != [] && ((Last(history).Record? && Last(history).ok) || AnySuccess(Front(history)))
  }

  /** Some allow since the last record already found the cooldown over. */
  predicate ProbedSince(history: seq<Event>, cooldown: int) {
    history != [] && Last(history).Allow?
    && (Last(history).now - LastFailure(history) >= cooldown || ProbedSince(Front(history), cooldown))
  }

  /** A threshold below one trips on the first failure, like a threshold of one. */
  function Effective(threshold: int): nat {
    if threshold < 1 then 1 else threshold
  }

  predicate AnyRecord(history: seq<Event>) {
    history != [] && (Last(history).Record? || AnyRecord(Front(history)))
  }

  /** Time of the last failure that met or exceeded the threshold: `opened_at` outlives a success. */
  function LastTrip(history: seq<Event>, threshold: int): Option<int> {
    if history == [] then None
    else if Last(history).Record? && !Last(history).ok && Trailing(history) >= Effective(threshold)
    then Some(Last(history).now)
    else LastTrip(Front(history), threshold)
  }

  /** The state that a history leads to, field by field. */
  function ClosedForm(history: seq<Event>, threshold: int, cooldown: int): State {
    State(
      if Trailing(history) >= Effective(threshold) then Some(if ProbedSince(history, cooldown) then HalfOpen else Open)
      else if AnySuccess(history) then Some(Closed)
      else None,
      if AnyRecord(history) then Some(Trailing(history)) else None,
      LastTrip(history, threshold))
  }

  lemma {:induction false} FailuresAreRecords(history: seq<Event>)
    requires Trailing(history) > 0
    ensures AnyRecord(history)
  {
    if Last(history).Allow? {
      FailuresAreRecords(Front(history));
    }
  }

  /** While tripped, the last trip is the last failure. */
  lemma {:induction false} TrippedAtLastFailure(history: seq<Event>, threshold: int)
    requires Trailing(history) >= Effective(threshold)
    ensures LastTrip(history, threshold) == Some(LastFailure(history))
  {
    if Last(history).Allow? {
      TrippedAtLastFailure(Front(history), threshold);
    }
  }

  /** Every interleaving of allow and record, by any clocks, leads to the closed form. */
  lemma {:induction false} RunHasClosedForm(history: seq<Event>, threshold: int, cooldown: int)
    ensures Run(history, threshold, cooldown) == ClosedForm(history, threshold, cooldown)
  {
    if history != [] {
      RunHasClosedForm(Front(history), threshold, cooldown);
      if Trailing(Front(history)) > 0 {
        FailuresAreRecords(Front(history));
      }
      if Trailing(Front(history)) >= Effective(threshold) {
        TrippedAtLastFailure(Front(history), threshold);
      }
    }
  }

  /**
   The breaker admits a call exactly when the trailing failures are below the threshold, or the
   cooldown since the last failure is over now or was already over at an earlier probe.  The
   script never fails on a missing field.
   */
  lemma AllowExactly(history: seq<Event>, now: int, threshold: int, cooldown: int)
    ensures AllowStep(Run(history, threshold, cooldown), now, cooldown).1
         == Some(|| Trailing(history) < Effective(threshold)
                 || now - LastFailure(history) >= cooldown
                 || ProbedSince(history, cooldown))
  {
    RunHasClosedForm(history, threshold, cooldown);
    if Trailing(history) >= Effective(threshold) {
      TrippedAtLastFailure(history, threshold);
    }
  }

  predicate Ordered(history: seq<Event>) {
    forall i, j :: 0 <= i <= j < |history| ==> history[i].now <= history[j].now
  }

  lemma {:induction false} ProbedMeansCooled(history: seq<Event>, now: int, cooldown: int)
    requires forall i :: 0 <= i < |history| ==> history[i].now <= now
    requires ProbedSince(history, cooldown)
    ensures now - LastFailure(history) >= cooldown
  {
    if Last(history).now - LastFailure(history) < cooldown {
      ProbedMeansCooled(Front(history), now, cooldown);
    }
  }

  /** Under a nondecreasing clock earlier probes add nothing: only the time since the last failure counts. */
  lemma AllowUnderOneClock(history: seq<Event>, now: int, threshold: int, cooldown: int)
    requires Ordered(history + [Allow(now)])
    ensures AllowStep(Run(history, threshold, cooldown), now, cooldown).1
         == Some(Trailing(history) < Effective(threshold) || now - LastFailure(history) >= cooldown)
  {
    AllowExactly(history, now, threshold, cooldown);
    var all := history + [Allow(now)];
    assert all[|history|] == Allow(now);
    forall i | 0 <= i < |history| ensures history[i].now <= now {
      assert all[i] == history[i];
    }
    if ProbedSince(history, cooldown) {
      ProbedMeansCooled(history, now, cooldown);
    }
  }

  /** In reachable states the failure count alone decides a trip; the half-open test adds nothing. */
  lemma HalfOpenTestRedundant(history: seq<Event>, threshold: int, cooldown: int)
    ensures var s := Run(history, threshold, cooldown);
            s.phase == Some(HalfOpen) ==> s.failures.Some? && s.failures.value + 1 >= threshold
  {
    RunHasClosedForm(history, threshold, cooldown);
    if Trailing(history) > 0 {
      FailuresAreRecords(history);
    }
  }

  /** The breaker is half-open exactly when it is tripped and a probe since has found the cooldown over. */
  lemma HalfOpenExactly(history: seq<Event>, threshold: int, cooldown: int)
    ensures Run(history, threshold, cooldown).phase == Some(HalfOpen)
            <==> Trailing(history) >= Effective(threshold) && ProbedSince(history, cooldown)
  {
    RunHasClosedForm(history, threshold, cooldown);
  }

  function Failures(n: nat): seq<Event> {
    if n == 0 then [] else Failures(n - 1) + [Record(false, 0)]
  }

  lemma {:induction false} FailuresTrail(n: nat)
    ensures Trailing(Failures(n)) == n && LastFailure(Failures(n)) == 0
  {
    if n > 0 {
      FailuresTrail(n - 1);
      assert Front(Failures(n)) == Failures(n - 1);
    }
  }

  /** For every threshold and cooldown a run reaches the half-open state: enough failures, then a probe. */
  lemma HalfOpenIsReached(threshold: int, cooldown: int) returns (history: seq<Event>)
    ensures Run(history, threshold, cooldown).phase == Some(HalfOpen)
  {
    var failures := Failures(Effective(threshold));
    FailuresTrail(Effective(threshold));
    history := failures + [Allow(cooldown)];
    assert Front(history) == failures;
    HalfOpenExactly(history, threshold, cooldown);
  }

  /** While half-open, every caller is let through until the next failure is recorded. */
  lemma HalfOpenAdmitsManyProbes(history: seq<Event>, probes: seq<Event>, now: int, threshold: int, cooldown: int)
    requires Run(history, threshold, cooldown).phase == Some(HalfOpen)
    requires forall i :: 0 <= i < |probes| ==> probes[i].Allow?
    ensures AllowStep(Run(history + probes, threshold, cooldown), now, cooldown).1 == Some(true)
    ensures Run(history + probes, threshold, cooldown).phase == Some(HalfOpen)
    decreases |probes|
  {
    if probes == [] {
      assert history + probes == history;
    } else {
      HalfOpenAdmitsManyProbes(history, Front(probes), now, threshold, cooldown);
      assert Front(history + probes) == history + Front(probes);
    }
  }
}
