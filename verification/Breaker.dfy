/** The circuit breaker around a provider, with many calls outstanding at once. The call itself is cut out:
    a call is admitted or refused at its start and completed at its end, and anything may happen in between. */
module Breaker {
  import opened Types

  datatype Circuit = Circuit(failures: int, openedAt: Option<int>, probeInFlight: bool)

  const CLOSED := Circuit(0, None, false)

  datatype Settings = Settings(threshold: int, recovery: int)

  datatype Admission = Refused | Admitted(probe: bool)

  /** How the inner call ended; an exception other than a counted failure passes through uncounted. */
  datatype CallEnd = Answered | AnsweredUnknown | CallFailed | RaisedOther

  predicate Counts(end: CallEnd) { end.AnsweredUnknown? || end.CallFailed? }

  function Admit(c: Circuit, now: int, settings: Settings): Admission {
    if c.openedAt.None? then Admitted(false)
    else if now - c.openedAt.value < settings.recovery || c.probeInFlight then Refused
    else Admitted(true)
  }

  function AfterAdmission(c: Circuit, a: Admission): Circuit {
    if a == Admitted(true) then c.(probeInFlight := true) else c
  }

  function Complete(c: Circuit, probe: bool, end: CallEnd, now: int, settings: Settings): Circuit {
    var counted :=
      if Counts(end) then
        c.(failures := c.failures + 1,
           openedAt := if c.failures + 1 >= settings.threshold then Some(now) else c.openedAt)
      else if end.Answered? then c.(failures := 0, openedAt := None)
      else c;
    if probe then counted.(probeInFlight := false) else counted
  }

  // ----- All interleavings of starts and ends -----

  datatype Event = Start(now: int) | Finish(probe: bool, end: CallEnd, now: int)

  /** The circuit with its outstanding calls and the latest clock reading. */
  datatype Machine = Machine(circuit: Circuit, ordinary: nat, probes: nat, clock: int)

  /** Only outstanding calls end, and the monotonic clock does not run backwards. */
  predicate Enabled(m: Machine, e: Event) {
    && m.clock <= e.now
    && (e.Finish? ==> if e.probe then m.probes > 0 else m.ordinary > 0)
  }

  function Next(m: Machine, e: Event, settings: Settings): Machine
    requires Enabled(m, e)
  {
    match e
    case Start(now) =>
      var a := Admit(m.circuit, now, settings);
      Machine(AfterAdmission(m.circuit, a),
              if a == Admitted(false) then m.ordinary + 1 else m.ordinary,
              if a == Admitted(true) then m.probes + 1 else m.probes, now)
    case Finish(probe, end, now) =>
      Machine(Complete(m.circuit, probe, end, now, settings),
              if probe then m.ordinary else m.ordinary - 1,
              if probe then m.probes - 1 else m.probes, now)
  }

  function Init(es: seq<Event>): seq<Event>
    requires es != []
  {
    es[..|es| - 1]
  }

  function Last(es: seq<Event>): Event
    requires es != []
  {
    es[|es| - 1]
  }

  predicate Happens(m: Machine, es: seq<Event>, settings: Settings)
    decreases |es|, 0
  {
    es == [] || (Happens(m, Init(es), settings) && Enabled(After(m, Init(es), settings), Last(es)))
  }

  function After(m: Machine, es: seq<Event>, settings: Settings): Machine
    requires Happens(m, es, settings)
    decreases |es|, 1
  {
    if es == [] then m else Next(After(m, Init(es), settings), Last(es), settings)
  }

  // ----- The state invariant -----

  /** Counted failures and unknowns completed since the last success, read off the history alone. */
  function FailuresSinceSuccess(es: seq<Event>): nat
    decreases |es|
  {
    if es == [] then 0
    else if Last(es).Finish? && Last(es).end.Answered? then 0
    else (if Last(es).Finish? && Counts(Last(es).end) then 1 else 0) + FailuresSinceSuccess(Init(es))
  }

  /** In every interleaving: a probe is marked in flight exactly while one probe is outstanding, the failure
      count is the number of counted ends since the last success, and the circuit is open exactly from the
      threshold on. */
  lemma {:induction false} BreakerInvariant(es: seq<Event>, start: int, settings: Settings)
    requires settings.threshold >= 1
    requires Happens(Machine(CLOSED, 0, 0, start), es, settings)
    ensures var m := After(Machine(CLOSED, 0, 0, start), es, settings);
            && (m.circuit.probeInFlight <==> m.probes == 1) && m.probes <= 1
            && m.circuit.failures == FailuresSinceSuccess(es)
            && (m.circuit.openedAt.Some? <==> m.circuit.failures >= settings.threshold)
    decreases |es|
  {
    if es != [] { BreakerInvariant(Init(es), start, settings); }
  }

  /** When the last counted failure or unknown since the last success ended. */
  function LastCounted(es: seq<Event>): Option<int>
    decreases |es|
  {
    if es == [] then None
    else if Last(es).Finish? && Last(es).end.Answered? then None
    else if Last(es).Finish? && (Last(es).end.AnsweredUnknown? || Last(es).end.CallFailed?) then Some(Last(es).now)
    else LastCounted(Init(es))
  }

  lemma {:induction false} OpenedAtLastCounted(es: seq<Event>, start: int, settings: Settings)
    requires settings.threshold >= 1
    requires Happens(Machine(CLOSED, 0, 0, start), es, settings)
    ensures var c := After(Machine(CLOSED, 0, 0, start), es, settings).circuit;
            && (c.openedAt.Some? ==> c.openedAt == LastCounted(es))
            && (c.failures > 0 <==> LastCounted(es).Some?) && c.failures >= 0
    decreases |es|
  {
    if es != [] {
      OpenedAtLastCounted(Init(es), start, settings);
      BreakerInvariant(Init(es), start, settings);
    }
  }

  /** Who gets through, read off the history alone. Below the threshold every call does, as an ordinary one; from the
      threshold on only a probe does, exactly when no other is outstanding and a recovery timeout has passed since the
      last counted end. */
  lemma AdmissionIff(es: seq<Event>, start: int, now: int, settings: Settings)
    requires settings.threshold >= 1
    requires Happens(Machine(CLOSED, 0, 0, start), es, settings)
    ensures var m := After(Machine(CLOSED, 0, 0, start), es, settings);
            var a := Admit(m.circuit, now, settings);
            && (a == Admitted(false) <==> FailuresSinceSuccess(es) < settings.threshold)
            && (a == Admitted(true) <==> && FailuresSinceSuccess(es) >= settings.threshold
                                         && m.probes == 0 && LastCounted(es).Some? && now >= LastCounted(es).value + settings.recovery)
  {
    BreakerInvariant(es, start, settings);
    OpenedAtLastCounted(es, start, settings);
  }

  // ----- The call rate of an open circuit -----

  /** Start times of the calls that reach the provider. */
  function Starts(m: Machine, es: seq<Event>, settings: Settings): seq<int>
    requires Happens(m, es, settings)
    decreases |es|
  {
    if es == [] then []
    else
      var before := Starts(m, Init(es), settings);
      if Last(es).Start? && Admit(After(m, Init(es), settings).circuit, Last(es).now, settings).Admitted?
      then before + [Last(es).now] else before
  }

  /** No call succeeds, and every probe that ends is counted. Ordinary calls, admitted before the circuit opened,
      may also end in an uncounted exception. */
  predicate ProbesCounted(es: seq<Event>) {
    forall e | e in es :: e.Finish? ==> Counts(e.end) || (e.end.RaisedOther? && !e.probe)
  }

  predicate Open(m: Machine, settings: Settings) {
    m.circuit.openedAt.Some? && m.circuit.failures >= settings.threshold && m.circuit.openedAt.value <= m.clock
  }

  lemma {:induction false} OpenCircuitSpacing(m: Machine, es: seq<Event>, settings: Settings)
    requires Open(m, settings) && settings.recovery > 0
    requires Happens(m, es, settings) && ProbesCounted(es)
    ensures var t := After(m, es, settings);
            var starts := Starts(m, es, settings);
            && Open(t, settings) && m.circuit.openedAt.value <= t.circuit.openedAt.value
            && (forall i | 0 <= i < |starts| :: starts[i] <= t.clock)
            && (starts != [] ==> starts[0] >= m.circuit.openedAt.value + settings.recovery)
            && (forall i | 0 < i < |starts| :: starts[i] >= starts[i - 1] + settings.recovery)
            && (starts != [] ==> t.circuit.probeInFlight || t.circuit.openedAt.value >= starts[|starts| - 1])
    decreases |es|
  {
    if es != [] {
      assert forall e | e in Init(es) :: e in es;
      assert Last(es) in es;
      OpenCircuitSpacing(m, Init(es), settings);
    }
  }

  lemma {:induction false} SpacedOut(starts: seq<int>, from: int, gap: nat)
    requires starts != [] ==> starts[0] >= from + gap
    requires forall i | 0 < i < |starts| :: starts[i] >= starts[i - 1] + gap
    ensures starts != [] ==> starts[|starts| - 1] >= from + |starts| * gap
  {
    if |starts| > 1 {
      var init := starts[..|starts| - 1];
      SpacedOut(init, from, gap);
      assert |starts| * gap == |init| * gap + gap;
    }
  }

  lemma QuotientBound(n: nat, gap: nat, window: nat)
    requires gap > 0 && n * gap <= window
    ensures n <= window / gap
  {
    var q := window / gap;
    assert window == gap * q + window % gap && window % gap < gap;
    assert (q + 1) * gap == gap * q + gap;
    ScaleKeepsOrder(q + 1, n, gap);
  }

  lemma ScaleKeepsOrder(a: nat, b: nat, gap: nat)
    ensures a <= b ==> a * gap <= b * gap
  {
  }

  /** How many of the calls start by `limit`. */
  function StartedBy(starts: seq<int>, limit: int): (n: nat)
    ensures n <= |starts|
  {
    if starts == [] then 0
    else StartedBy(starts[..|starts| - 1], limit) + if starts[|starts| - 1] <= limit then 1 else 0
  }

  lemma {:induction false} SpacedStartsAreFew(starts: seq<int>, from: int, gap: nat, window: nat)
    requires starts != [] ==> starts[0] >= from + gap
    requires forall i | 0 < i < |starts| :: starts[i] >= starts[i - 1] + gap
    ensures StartedBy(starts, from + window) * gap <= window
  {
    if starts != [] {
      if starts[|starts| - 1] <= from + window {
        SpacedOut(starts, from, gap);
        ScaleKeepsOrder(StartedBy(starts, from + window), |starts|, gap);
      } else {
        SpacedStartsAreFew(starts[..|starts| - 1], from, gap, window);
      }
    }
  }

  /** After the circuit has opened at t0, as long as nothing succeeds and every ending probe is counted, calls
      start at least the recovery timeout apart, and at most floor(T / R) of them start within [t0, t0 + T]. */
  lemma CallRateBound(m: Machine, es: seq<Event>, settings: Settings, window: nat)
    requires Open(m, settings) && settings.recovery > 0
    requires Happens(m, es, settings) && ProbesCounted(es)
    ensures var starts := Starts(m, es, settings);
            && (forall i | 0 < i < |starts| :: starts[i] >= starts[i - 1] + settings.recovery)
            && StartedBy(starts, m.circuit.openedAt.value + window) <= window / settings.recovery
  {
    var starts := Starts(m, es, settings);
    OpenCircuitSpacing(m, es, settings);
    hide StartedBy, Happens, ProbesCounted, Open, After, Starts;
    SpacedStartsAreFew(starts, m.circuit.openedAt.value, settings.recovery, window);
    QuotientBound(StartedBy(starts, m.circuit.openedAt.value + window), settings.recovery, window);
  }

  /** When the gate opens after a probe that did not succeed: a recovery timeout after its end if that was counted,
      but already a recovery timeout after the old opening, which has passed, if it was not. */
  lemma GateAfterProbe(c: Circuit, end: CallEnd, ended: int, now: int, settings: Settings)
    requires c.openedAt.Some? && c.failures >= settings.threshold && c.probeInFlight
    requires !end.Answered? && ended <= now
    ensures Admit(Complete(c, true, end, ended, settings), now, settings).Admitted?
            <==> now >= (if Counts(end) then ended else c.openedAt.value) + settings.recovery
  {
  }

  /** So a probe that ends in an uncounted exception leaves the gate open at once. */
  lemma UncountedProbeReopensGate(c: Circuit, now: int, settings: Settings)
    requires Admit(c, now, settings) == Admitted(true)
    ensures Admit(Complete(AfterAdmission(c, Admitted(true)), true, RaisedOther, now, settings), now, settings) == Admitted(true)
  {
  }

  lemma HappensNext(m: Machine, es: seq<Event>, e: Event, settings: Settings)
    requires Happens(m, es, settings) && Enabled(After(m, es, settings), e)
    ensures Happens(m, es + [e], settings) && After(m, es + [e], settings) == Next(After(m, es, settings), e, settings)
    ensures Starts(m, es + [e], settings)
            == Starts(m, es, settings) + if e.Start? && Admit(After(m, es, settings).circuit, e.now, settings).Admitted? then [e.now] else []
  {
    assert Init(es + [e]) == es && Last(es + [e]) == e;
  }

  /** The condition on probes is needed: after any opening there is a run with a single uncounted probe end in which
      two calls start at the same instant. */
  lemma UncountedProbeBreaksSpacing(failures: int, since: int, settings: Settings)
    requires failures >= settings.threshold && settings.recovery > 0
    ensures var m := Machine(Circuit(failures, Some(since), false), 0, 0, since);
            var t := since + settings.recovery;
            var es := [Start(t), Finish(true, RaisedOther, t), Start(t)];
            Open(m, settings) && Happens(m, es, settings) && Starts(m, es, settings) == [t, t]
  {
    var m := Machine(Circuit(failures, Some(since), false), 0, 0, since);
    var t := since + settings.recovery;
    var none: seq<Event> := [];
    assert Happens(m, none, settings) && After(m, none, settings) == m && Starts(m, none, settings) == [];
    hide Happens, After, Starts;
    var one := none + [Start(t)];
    HappensNext(m, none, Start(t), settings);
    var two := one + [Finish(true, RaisedOther, t)];
    HappensNext(m, one, Finish(true, RaisedOther, t), settings);
    HappensNext(m, two, Start(t), settings);
    assert two + [Start(t)] == [Start(t), Finish(true, RaisedOther, t), Start(t)];
  }

  // ----- The breaker object -----

  datatype Operation = Availability | Hold | Confirm | Release

  class CircuitState {
    var failureCount: int
    var openedAt: Option<int>
    var probeInFlight: bool

    constructor ()
      ensures Value() == CLOSED
    {
      failureCount, openedAt, probeInFlight := 0, None, false;
    }

    function Value(): Circuit
      reads this
    {
      Circuit(failureCount, openedAt, probeInFlight)
    }
  }

  /** One circuit per operation: a healthy read must not close a broken hold circuit. */
  class CircuitBreakerProvider {
    const settings: Settings
    const availability: CircuitState
    const hold: CircuitState
    const confirm: CircuitState
    const release: CircuitState

    constructor (settings: Settings)
      ensures this.settings == settings
      ensures Separate() && forall op :: fresh(State(op)) && State(op).Value() == CLOSED
    {
      this.settings := settings;
      availability := new CircuitState();
      hold := new CircuitState();
      confirm := new CircuitState();
      release := new CircuitState();
    }

    predicate Separate() {
      availability != hold && availability != confirm && availability != release
      && hold != confirm && hold != release && confirm != release
    }

    function State(op: Operation): CircuitState {
      match op
      case Availability => availability
      case Hold => hold
      case Confirm => confirm
      case Release => release
    }

    /** Everything the breaker does before the inner call. */
    method Start(op: Operation, now: int) returns (admission: Admission)
      requires Separate()
      modifies State(op)
      ensures admission == Admit(old(State(op).Value()), now, settings)
      ensures old(State(op).openedAt).None? ==> admission == Admitted(false)
      ensures old(State(op).openedAt).Some? ==>
                admission == if now < old(State(op).openedAt).value + settings.recovery || old(State(op).probeInFlight)
                             then Refused else Admitted(true)
      ensures State(op).Value() == AfterAdmission(old(State(op).Value()), admission)
      ensures forall other | other != op :: State(other).Value() == old(State(other).Value())
    {
      var state := State(op);
      if state.openedAt.Some? {
        if now - state.openedAt.value < settings.recovery {
          return Refused;
        }
        if state.probeInFlight {
          return Refused;
        }
        state.probeInFlight := true;
        return Admitted(true);
      }
      return Admitted(false);
    }

    /** Everything the breaker does after the inner call. */
    method Finish(op: Operation, probe: bool, end: CallEnd, now: int)
      requires Separate()
      modifies State(op)
      ensures State(op).Value() == Complete(old(State(op).Value()), probe, end, now, settings)
      ensures match end
              case Answered => State(op).failureCount == 0 && State(op).openedAt == None
              case RaisedOther => State(op).failureCount == old(State(op).failureCount) && State(op).openedAt == old(State(op).openedAt)
              case _ =>
                && State(op).failureCount == old(State(op).failureCount) + 1
                && State(op).openedAt == if State(op).failureCount >= settings.threshold then Some(now) else old(State(op).openedAt)
      ensures State(op).probeInFlight == (!probe && old(State(op).probeInFlight))
      ensures forall other | other != op :: State(other).Value() == old(State(other).Value())
    {
      var state := State(op);
      match end {
        case CallFailed =>
          state.failureCount := state.failureCount + 1;
          if state.failureCount >= settings.threshold { state.openedAt := Some(now); }
        case AnsweredUnknown =>
          state.failureCount := state.failureCount + 1;
          if state.failureCount >= settings.threshold { state.openedAt := Some(now); }
        case Answered =>
          state.failureCount := 0;
          state.openedAt := None;
        case RaisedOther =>
      }
      if probe { state.probeInFlight := false; }
    }
  }
}
