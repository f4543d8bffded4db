/**
  The monotonic operation deadline, the execution deadline that is threaded
  through every loop, and the session deadline shared by consecutive requests.
  Time is an input: `gaps(i)` milliseconds pass before the i-th call, so the
  clock is any nondecreasing one.
 */
module Deadline {
  import opened Wrappers

  const MAX_OPERATION_DEADLINE_MS: nat := 60_000
  const DEADLINE_CHECK_INTERVAL_UNITS: nat := 1_024

  datatype DeadlineError = ClockRegression | DeadlineExceeded | CheckpointGap | WorkRegression | ArithmeticOverflow

  /** Why an accounting call stopped the request: the deadline, or the completed-unit counter itself. */
  datatype Fault = Expired(error: DeadlineError) | CounterOverflow

  datatype FailureKind = ClientInput | Integrity | DeadlineFailure | ResourceLimit

  function KindOf(fault: Fault): FailureKind {
    if fault.Expired? then DeadlineFailure else ClientInput
  }

  // ---------- specification ----------

  datatype Mono = Mono(deadlineMs: nat, lastNowMs: nat, completedUnits: nat)

  function Checkpoint(m: Mono, now: nat, units: nat): (Mono, Outcome<DeadlineError>) {
    if now < m.lastNowMs then (m, Fail(ClockRegression))
    else
      var seen := m.(lastNowMs := now);
      if units < m.completedUnits then (seen, Fail(WorkRegression))
      else if units - m.completedUnits > DEADLINE_CHECK_INTERVAL_UNITS then (seen, Fail(CheckpointGap))
      else
        var done := seen.(completedUnits := units);
        if now >= m.deadlineMs then (done, Fail(DeadlineExceeded)) else (done, Pass)
  }

  datatype Exec = Exec(mono: Mono, completed: nat, lastCheckpoint: nat)

  /** `checkpoint`, `before_allocation` and `before_materialization` all read the clock and check. */
  function Touch(x: Exec, now: nat): (Exec, Outcome<Fault>) {
    var (mono, outcome) := Checkpoint(x.mono, now, x.completed);
    if outcome.Fail? then (x.(mono := mono), Fail(Expired(outcome.error)))
    else (Exec(mono, x.completed, x.completed), Pass)
  }

  function Advance(x: Exec, now: nat, units: nat): (Exec, Outcome<Fault>) {
    if x.completed + units > U64_MAX then (x, Fail(CounterOverflow))
    else
      var charged := x.(completed := x.completed + units);
      if charged.completed - charged.lastCheckpoint >= DEADLINE_CHECK_INTERVAL_UNITS then Touch(charged, now)
      else (charged, Pass)
  }

  /** The state every accepted call leaves behind. */
  predicate Ready(x: Exec) {
    && x.mono.completedUnits == x.lastCheckpoint <= x.completed
    && x.completed - x.lastCheckpoint < DEADLINE_CHECK_INTERVAL_UNITS
  }

  // ---------- runs ----------

  /** One accounting call at time `now`: a single charged unit, or a check around an allocation. */
  datatype Event = Charge(now: nat) | Guard(now: nat)

  function Step(x: Exec, ev: Event): (Exec, Outcome<Fault>) {
    match ev
    case Charge(now) => Advance(x, now, 1)
    case Guard(now) => Touch(x, now)
  }

  /** Runs until the first fault; the returned state is the one the fault leaves. */
  function Run(x: Exec, evs: seq<Event>): (Exec, Outcome<Fault>)
    decreases |evs|
  {
    if evs == [] then (x, Pass)
    else
      var (y, outcome) := Step(x, evs[0]);
      if outcome.Fail? then (y, outcome) else Run(y, evs[1..])
  }

  predicate ClockFrom(now: nat, evs: seq<Event>) {
    && (forall i :: 0 <= i < |evs| ==> now <= evs[i].now)
    && (forall i, j :: 0 <= i < j < |evs| ==> evs[i].now <= evs[j].now)
  }

  /** A step under a nondecreasing clock either keeps the state ready or reports expiry, and says which. */
  lemma StepIsReady(x: Exec, ev: Event)
    requires Ready(x) && x.mono.lastNowMs <= ev.now && x.completed < U64_MAX
    ensures var (y, outcome) := Step(x, ev);
      && y.mono.deadlineMs == x.mono.deadlineMs
      && y.mono.lastNowMs <= ev.now
      && x.completed <= y.completed <= x.completed + 1
      && (outcome.Pass? ==> Ready(y))
      && (outcome.Fail? ==> outcome.error == Expired(DeadlineExceeded) && ev.now >= x.mono.deadlineMs)
      && (outcome.Pass? && ev.now >= x.mono.deadlineMs ==> y.lastCheckpoint == x.lastCheckpoint)
  {
  }

  /** With a nondecreasing clock and unit charges, expiry is the only fault a run can meet. */
  lemma {:induction false} RunOnlyExpires(x: Exec, evs: seq<Event>)
    requires Ready(x) && ClockFrom(x.mono.lastNowMs, evs)
    requires x.completed + |evs| <= U64_MAX
    ensures var (y, outcome) := Run(x, evs);
      && y.mono.deadlineMs == x.mono.deadlineMs
      && (outcome.Pass? ==> Ready(y))
      && (outcome.Fail? ==> outcome.error == Expired(DeadlineExceeded))
      && (outcome.Fail? ==> exists i :: 0 <= i < |evs| && evs[i].now >= x.mono.deadlineMs)
    decreases |evs|
  {
    if evs != [] {
      StepIsReady(x, evs[0]);
      var (y, outcome) := Step(x, evs[0]);
      if outcome.Pass? {
        var rest := evs[1..];
        RunOnlyExpires(y, rest);
        if Run(y, rest).1.Fail? {
          var i :| 0 <= i < |rest| && rest[i].now >= y.mono.deadlineMs;
          assert evs[i + 1] == rest[i];
        }
      }
    }
  }

  lemma {:induction false} NoCheckpointAfterExpiry(x: Exec, evs: seq<Event>)
    requires Ready(x) && ClockFrom(x.mono.lastNowMs, evs)
    requires x.completed + |evs| <= U64_MAX
    requires forall i :: 0 <= i < |evs| ==> evs[i].now >= x.mono.deadlineMs
    ensures var (y, outcome) := Run(x, evs);
      && x.completed <= y.completed
      && (outcome.Pass? ==> y.completed - x.lastCheckpoint < DEADLINE_CHECK_INTERVAL_UNITS)
      && (outcome.Fail? ==> y.completed - x.lastCheckpoint <= DEADLINE_CHECK_INTERVAL_UNITS)
    decreases |evs|
  {
    if evs != [] {
      StepIsReady(x, evs[0]);
      var (y, outcome) := Step(x, evs[0]);
      if outcome.Pass? {
        NoCheckpointAfterExpiry(y, evs[1..]);
      }
    }
  }

  /**
    Once the clock has passed the deadline, a run accepts at most 1023 further
    units; the call that is refused may raise the counter by one more.
   */
  lemma ChargedAfterExpiry(x: Exec, before: seq<Event>, after: seq<Event>)
    requires Ready(x) && ClockFrom(x.mono.lastNowMs, before + after)
    requires x.completed + |before| + |after| <= U64_MAX
    requires Run(x, before).1.Pass?
    requires forall i :: 0 <= i < |after| ==> after[i].now >= x.mono.deadlineMs
    ensures var at := Run(x, before).0;
      var (y, outcome) := Run(at, after);
      && Run(x, before + after) == (y, outcome)
      && (outcome.Pass? ==> y.completed - at.completed <= 1023)
      && (outcome.Fail? ==> y.completed - at.completed <= 1024)
  {
    RunSplits(x, before, after);
    NoCheckpointAfterExpiry(Run(x, before).0, after);
  }

  lemma {:induction false} RunSplits(x: Exec, before: seq<Event>, after: seq<Event>)
    requires Ready(x) && ClockFrom(x.mono.lastNowMs, before + after)
    requires x.completed + |before| + |after| <= U64_MAX
    requires Run(x, before).1.Pass?
    ensures var at := Run(x, before).0;
      && Run(x, before + after) == Run(at, after)
      && Ready(at) && at.mono.deadlineMs == x.mono.deadlineMs
      && ClockFrom(at.mono.lastNowMs, after)
      && at.completed <= x.completed + |before|
    decreases |before|
  {
    var all := before + after;
    if before == [] {
      assert all == after;
    } else {
      assert all[0] == before[0];
      assert all[1..] == before[1..] + after;
      StepIsReady(x, before[0]);
      RunSplits(Step(x, before[0]).0, before[1..], after);
    }
  }

  // ---------- the two classes ----------

  class MonotonicDeadline {
    const deadlineMs: nat
    var lastNowMs: nat
    var completedUnits: nat

    function View(): Mono
      reads this
    {
      Mono(deadlineMs, lastNowMs, completedUnits)
    }

    constructor (deadline: nat, now: nat)
      ensures View() == Mono(deadline, now, 0)
    {
      deadlineMs, lastNowMs, completedUnits := deadline, now, 0;
    }

    static method New(now: nat, ownerRemainingMs: nat) returns (r: Result<MonotonicDeadline, DeadlineError>)
      ensures r.Success? ==> fresh(r.value)
      ensures r.Success? ==> r.value.View() == Mono(now + Min(ownerRemainingMs, MAX_OPERATION_DEADLINE_MS), now, 0)
      ensures r.Failure? <==> now + Min(ownerRemainingMs, MAX_OPERATION_DEADLINE_MS) > U64_MAX
    {
      var deadline := now + Min(ownerRemainingMs, MAX_OPERATION_DEADLINE_MS);
      if deadline > U64_MAX {
        return Failure(ArithmeticOverflow);
      }
      var made := new MonotonicDeadline(deadline, now);
      return Success(made);
    }

    method ObserveClock(now: nat) returns (r: Outcome<DeadlineError>)
      modifies this`lastNowMs
      ensures r == if now < old(lastNowMs) then Fail(ClockRegression) else Pass
      ensures lastNowMs == if now < old(lastNowMs) then old(lastNowMs) else now
    {
      if now < lastNowMs {
        return Fail(ClockRegression);
      }
      lastNowMs := now;
      return Pass;
    }

    method CheckpointAt(now: nat, units: nat) returns (r: Outcome<DeadlineError>)
      modifies this
      ensures (View(), r) == Checkpoint(old(View()), now, units)
      ensures now < old(lastNowMs) ==> r == Fail(ClockRegression) && View() == old(View())
      ensures old(lastNowMs) <= now ==> lastNowMs == now
      ensures old(lastNowMs) <= now && units < old(completedUnits) ==> r == Fail(WorkRegression)
      ensures old(lastNowMs) <= now && units > old(completedUnits) + 1024 ==> r == Fail(CheckpointGap)
      ensures old(lastNowMs) <= now && old(completedUnits) <= units <= old(completedUnits) + 1024 ==>
                completedUnits == units && r == if now < deadlineMs then Pass else Fail(DeadlineExceeded)
      ensures completedUnits == old(completedUnits) || completedUnits == units
    {
      r := ObserveClock(now);
      if r.Fail? {
        return;
      }
      if units < completedUnits {
        return Fail(WorkRegression);
      }
      if units - completedUnits > DEADLINE_CHECK_INTERVAL_UNITS {
        return Fail(CheckpointGap);
      }
      completedUnits := units;
      if now >= deadlineMs {
        return Fail(DeadlineExceeded);
      }
      return Pass;
    }
  }

  /** The clock at the k-th reading. */
  function Elapsed(gaps: nat -> nat, k: nat): nat {
    if k == 0 then 0 else Elapsed(gaps, k - 1) + gaps(k - 1)
  }

  class ExecutionDeadline {
    const gaps: nat -> nat
    const mono: MonotonicDeadline
    var nowMs: nat
    var calls: nat
    var completedUnits: nat
    var lastCheckpointUnits: nat

    function View(): Exec
      reads this, mono
    {
      Exec(mono.View(), completedUnits, lastCheckpointUnits)
    }

    /** The last accepted call left the accountant ready, and no reading lies in the future. */
    ghost predicate Valid()
      reads this, mono
    {
      Ready(View()) && mono.lastNowMs <= nowMs == Elapsed(gaps, calls)
    }

    /** The clock, as far as it was read, has reached the deadline. */
    ghost predicate Expired()
      reads this
    {
      mono.deadlineMs <= nowMs == Elapsed(gaps, calls)
    }

    /** The clock stays below the deadline at the first `k` readings. */
    ghost predicate InTime(k: nat)
    {
      forall i: nat :: i <= k ==> Elapsed(gaps, i) < mono.deadlineMs
    }

    constructor (gaps: nat -> nat, mono: MonotonicDeadline)
      requires mono.View() == Mono(mono.deadlineMs, 0, 0)
      ensures this.gaps == gaps && this.mono == mono && Valid() && calls == 0
      ensures View() == Exec(mono.View(), 0, 0)
    {
      this.gaps, this.mono := gaps, mono;
      nowMs, calls, completedUnits, lastCheckpointUnits := 0, 0, 0, 0;
    }

    /** An execution deadline starts its own clock at zero, so its construction never overflows. */
    static method New(gaps: nat -> nat, remainingMs: nat) returns (r: Result<ExecutionDeadline, FailureKind>)
      ensures r.Success? && fresh(r.value) && fresh(r.value.mono)
      ensures r.value.gaps == gaps && r.value.Valid() && r.value.calls == 0
      ensures r.value.View() == Exec(Mono(Min(remainingMs, MAX_OPERATION_DEADLINE_MS), 0, 0), 0, 0)
    {
      var mono := MonotonicDeadline.New(0, remainingMs);
      if mono.Failure? {
        return Failure(DeadlineFailure);
      }
      var made := new ExecutionDeadline(gaps, mono.value);
      return Success(made);
    }

    /** Time passes between two calls. */
    method Tick()
      modifies this`nowMs, this`calls
      ensures nowMs == old(nowMs) + gaps(old(calls)) && calls == old(calls) + 1
    {
      nowMs, calls := nowMs + gaps(calls), calls + 1;
    }

    /** `checkpoint`, `before_allocation` and `before_materialization`. */
    method GuardNow() returns (r: Outcome<Fault>)
      modifies this, mono
      ensures nowMs == old(nowMs) + gaps(old(calls)) && calls == old(calls) + 1
      ensures (View(), r) == Touch(old(View()), nowMs)
      ensures completedUnits == old(completedUnits)
      ensures old(Valid()) && r.Pass? ==> Valid()
      ensures old(Valid()) ==> (r.Pass? <==> nowMs < mono.deadlineMs)
      ensures old(Valid()) && r.Fail? ==> r.error == Fault.Expired(DeadlineExceeded) && Expired()
    {
      Tick();
      var checked := mono.CheckpointAt(nowMs, completedUnits);
      if checked.Fail? {
        return Fail(Fault.Expired(checked.error));
      }
      lastCheckpointUnits := completedUnits;
      return Pass;
    }

    method AdvanceBy(units: nat) returns (r: Outcome<Fault>)
      requires lastCheckpointUnits <= completedUnits
      modifies this, mono
      ensures nowMs == old(nowMs) + gaps(old(calls)) && calls == old(calls) + 1
      ensures (View(), r) == Advance(old(View()), nowMs, units)
      ensures r.Pass? ==> completedUnits == old(completedUnits) + units
      ensures old(Valid()) && r.Pass? && units <= 1 ==> Valid()
      ensures old(Valid()) && r.Fail? && units <= 1 ==>
        if old(completedUnits) + units > U64_MAX then r.error == CounterOverflow
        else r.error == Fault.Expired(DeadlineExceeded) && Expired()
    {
      if completedUnits + units > U64_MAX {
        Tick();
        return Fail(CounterOverflow);
      }
      completedUnits := completedUnits + units;
      if completedUnits - lastCheckpointUnits >= DEADLINE_CHECK_INTERVAL_UNITS {
        r := GuardNow();
      } else {
        Tick();
        r := Pass;
      }
    }
  }

  // ---------- the session deadline ----------

  const NANOS_PER_MS: nat := 1_000_000

  datatype Session = Session(ownerRemainingMs: Option<nat>, deadlineNs: Option<nat>)

  datatype Candidate = Candidate(ownerRemainingMs: nat, absoluteNs: nat, nativeRemainingMs: nat)

  /** `preview_bounded_session_deadline`; `horizonNs` is the last instant the platform can represent. */
  function Preview(s: Session, ownerRemainingMs: nat, nowNs: nat, horizonNs: nat): Result<Candidate, FailureKind> {
    if s.ownerRemainingMs.Some? && ownerRemainingMs > s.ownerRemainingMs.value then Failure(ClientInput)
    else
      var proposed := nowNs + Min(ownerRemainingMs, MAX_OPERATION_DEADLINE_MS) * NANOS_PER_MS;
      if proposed > horizonNs then Failure(ClientInput)
      else
        var absolute: nat := if s.deadlineNs.Some? then Min(s.deadlineNs.value, proposed) else proposed;
        var left: nat := if absolute <= nowNs then 0 else (absolute - nowNs) / NANOS_PER_MS;
        if left > U64_MAX then Failure(ClientInput)
        else Success(Candidate(ownerRemainingMs, absolute, left))
  }

  /** `b` is the smaller of the two. */
  predicate IsLesser(b: nat, x: nat, y: nat) {
    b <= x && b <= y && (b == x || b == y)
  }

  /**
    A candidate keeps the budget it was asked for. Its deadline is the earlier of
    the session's and of the arrival plus the budget, at most a minute of it, and
    what is left of it is counted in whole milliseconds.
   */
  ghost predicate IsCandidate(s: Session, ownerRemainingMs: nat, nowNs: nat, c: Candidate) {
    && c.ownerRemainingMs == ownerRemainingMs
    && (exists granted: nat :: IsLesser(granted, ownerRemainingMs, 60_000)
          && var proposed := nowNs + granted * 1_000_000;
             if s.deadlineNs.Some? then IsLesser(c.absoluteNs, s.deadlineNs.value, proposed) else c.absoluteNs == proposed)
    && (if c.absoluteNs <= nowNs then c.nativeRemainingMs == 0
        else c.nativeRemainingMs * 1_000_000 <= c.absoluteNs - nowNs < c.nativeRemainingMs * 1_000_000 + 1_000_000)
  }

  /** A request is refused for a budget that grows or an instant the platform cannot hold; any other has exactly one candidate. */
  lemma PreviewMeans(s: Session, ownerRemainingMs: nat, nowNs: nat, horizonNs: nat, c: Candidate)
    ensures var r := Preview(s, ownerRemainingMs, nowNs, horizonNs);
      var grows := s.ownerRemainingMs.Some? && ownerRemainingMs > s.ownerRemainingMs.value;
      var beyond := exists granted: nat :: IsLesser(granted, ownerRemainingMs, 60_000) && nowNs + granted * 1_000_000 > horizonNs;
      && (grows || beyond ==> r == Failure(ClientInput))
      && (r.Success? && r.value == c <==> !grows && !beyond && IsCandidate(s, ownerRemainingMs, nowNs, c))
      && (r.Failure? ==> r.error == ClientInput && (grows || beyond))
  {
    var granted := Min(ownerRemainingMs, MAX_OPERATION_DEADLINE_MS);
    assert IsLesser(granted, ownerRemainingMs, 60_000);
    assert forall other: nat :: IsLesser(other, ownerRemainingMs, 60_000) ==> other == granted;
    var r := Preview(s, ownerRemainingMs, nowNs, horizonNs);
  }

  function Commit(c: Candidate): Session {
    Session(Some(c.ownerRemainingMs), Some(c.absoluteNs))
  }

  /** One request: its budget, its arrival time, and whether everything before the commit accepted it. */
  datatype Request = Request(ownerRemainingMs: nat, nowNs: nat, admitted: bool)

  function Handle(s: Session, q: Request, horizonNs: nat): Session {
    var c := Preview(s, q.ownerRemainingMs, q.nowNs, horizonNs);
    if c.Success? && q.admitted then Commit(c.value) else s
  }

  function HandleAll(s: Session, qs: seq<Request>, horizonNs: nat): Session
    decreases |qs|
  {
    if qs == [] then s else HandleAll(Handle(s, qs[0], horizonNs), qs[1..], horizonNs)
  }

  predicate NoLater(a: Session, b: Session) {
    && (b.ownerRemainingMs.Some? ==> a.ownerRemainingMs.Some? && a.ownerRemainingMs.value <= b.ownerRemainingMs.value)
    && (b.deadlineNs.Some? ==> a.deadlineNs.Some? && a.deadlineNs.value <= b.deadlineNs.value)
  }

  /**
    Over any sequence of requests the accepted owner budget and the absolute
    session deadline never increase; a request that is not accepted changes
    neither, and an accepted one is bounded by its own budget and arrival time.
   */
  lemma {:induction false} SessionOnlyTightens(s: Session, qs: seq<Request>, horizonNs: nat)
    ensures NoLater(HandleAll(s, qs, horizonNs), s)
    ensures (forall i :: 0 <= i < |qs| ==> !qs[i].admitted) ==> HandleAll(s, qs, horizonNs) == s
    ensures forall i :: 0 <= i < |qs| && qs[i].admitted
              && Preview(HandleAll(s, qs[..i], horizonNs), qs[i].ownerRemainingMs, qs[i].nowNs, horizonNs).Success?
              ==> var last := HandleAll(s, qs, horizonNs);
                last.deadlineNs.Some? && last.ownerRemainingMs.Some?
                && last.ownerRemainingMs.value <= qs[i].ownerRemainingMs
                && last.deadlineNs.value
                   <= qs[i].nowNs + Min(qs[i].ownerRemainingMs, MAX_OPERATION_DEADLINE_MS) * NANOS_PER_MS
    decreases |qs|
  {
    if qs != [] {
      var t := Handle(s, qs[0], horizonNs);
      SessionOnlyTightens(t, qs[1..], horizonNs);
      forall i | 0 <= i < |qs| && qs[i].admitted
        && Preview(HandleAll(s, qs[..i], horizonNs), qs[i].ownerRemainingMs, qs[i].nowNs, horizonNs).Success?
        ensures var last := HandleAll(s, qs, horizonNs);
          last.deadlineNs.Some? && last.ownerRemainingMs.Some?
          && last.ownerRemainingMs.value <= qs[i].ownerRemainingMs
          && last.deadlineNs.value
             <= qs[i].nowNs + Min(qs[i].ownerRemainingMs, MAX_OPERATION_DEADLINE_MS) * NANOS_PER_MS
      {
        if i == 0 {
          assert qs[..0] == [];
        } else {
          assert qs[..i][1..] == qs[1..][..i - 1];
          assert qs[i] == qs[1..][i - 1];
          assert HandleAll(s, qs[..i], horizonNs) == HandleAll(t, qs[1..][..i - 1], horizonNs);
        }
      }
    }
  }

  /** The clock has reached the deadline of a candidate at the k-th reading of the operation. */
  predicate LateAt(c: Candidate, gaps: nat -> nat, k: nat) {
    Elapsed(gaps, k) >= Min(c.nativeRemainingMs, MAX_OPERATION_DEADLINE_MS)
  }

  /** Why a request is not opened: its budget, its deadline before or after admission, or admission itself. */
  function Refusal(s: Session, ownerRemainingMs: nat, nowNs: nat, horizonNs: nat, gaps: nat -> nat, admissible: bool)
    : Option<FailureKind>
  {
    var c := Preview(s, ownerRemainingMs, nowNs, horizonNs);
    if c.Failure? then Some(c.error)
    else if LateAt(c.value, gaps, 1) then Some(DeadlineFailure)
    else if !admissible then Some(ClientInput)
    else if LateAt(c.value, gaps, 2) then Some(DeadlineFailure)
    else None
  }

  /** The server fields behind the session deadline, and the request preamble that updates them. */
  class BoundedSession {
    var ownerRemainingMs: Option<nat>
    var deadlineNs: Option<nat>

    function View(): Session
      reads this
    {
      Session(ownerRemainingMs, deadlineNs)
    }

    constructor ()
      ensures View() == Session(None, None)
    {
      ownerRemainingMs, deadlineNs := None, None;
    }

    method PreviewDeadline(ownerRemaining: nat, nowNs: nat, horizonNs: nat)
      returns (r: Result<Candidate, FailureKind>)
      ensures r == Preview(View(), ownerRemaining, nowNs, horizonNs)
    {
      if ownerRemainingMs.Some? && ownerRemaining > ownerRemainingMs.value {
        return Failure(ClientInput);
      }
      var native := Min(ownerRemaining, MAX_OPERATION_DEADLINE_MS);
      var proposed := nowNs + native * NANOS_PER_MS;
      if proposed > horizonNs {
        return Failure(ClientInput);
      }
      var absolute := proposed;
      if deadlineNs.Some? {
        absolute := Min(deadlineNs.value, proposed);
      }
      var left := if absolute <= nowNs then 0 else (absolute - nowNs) / NANOS_PER_MS;
      if left > U64_MAX {
        return Failure(ClientInput);
      }
      return Success(Candidate(ownerRemaining, absolute, left));
    }

    method CommitDeadline(c: Candidate)
      modifies this
      ensures View() == Commit(c)
    {
      ownerRemainingMs, deadlineNs := Some(c.ownerRemainingMs), Some(c.absoluteNs);
    }

    /** Preview, the guards and the admission in between, then commit. */
    method Open(ownerRemaining: nat, nowNs: nat, horizonNs: nat, gaps: nat -> nat, admissible: bool)
      returns (r: Result<ExecutionDeadline, FailureKind>)
      modifies this
      ensures View() == Handle(old(View()), Request(ownerRemaining, nowNs, r.Success?), horizonNs)
      ensures r.Failure? ==> View() == old(View())
      ensures r.Success? ==> fresh(r.value) && fresh(r.value.mono) && admissible && r.value.gaps == gaps
      ensures r.Success? ==> r.value.Valid() && r.value.completedUnits == 0
      ensures r.Success? ==>
        r.value.calls == 2 && Elapsed(gaps, 1) <= Elapsed(gaps, 2) < r.value.mono.deadlineMs <= 60_000
        && exists c ::
             IsCandidate(old(View()), ownerRemaining, nowNs, c) && View() == Session(Some(ownerRemaining), Some(c.absoluteNs))
             && IsLesser(r.value.mono.deadlineMs, c.nativeRemainingMs, 60_000)
      ensures var refusal := Refusal(old(View()), ownerRemaining, nowNs, horizonNs, gaps, admissible);
        if refusal.None? then r.Success? else r == Failure(refusal.value)
    {
      var candidate :- PreviewDeadline(ownerRemaining, nowNs, horizonNs);
      PreviewMeans(View(), ownerRemaining, nowNs, horizonNs, candidate);
      var made := ExecutionDeadline.New(gaps, candidate.nativeRemainingMs);
      var deadline := made.value;
      hide Preview, IsCandidate;
      var guarded := deadline.GuardNow();
      assert deadline.nowMs == Elapsed(gaps, 1);
      if guarded.Fail? {
        return Failure(KindOf(guarded.error));
      }
      if !admissible {
        return Failure(ClientInput);
      }
      guarded := deadline.GuardNow();
      assert deadline.nowMs == Elapsed(gaps, 2);
      if guarded.Fail? {
        return Failure(KindOf(guarded.error));
      }
      CommitDeadline(candidate);
      return Success(deadline);
    }
  }
}
