/** The middleware as a protocol: any number of requests act on one table, statement by
    statement, with crashes, takeovers and sweeps at any moment. */
module IdempotencyProtocol {
  import opened IdempotencyStore

  /** One run of a handler: what it wrote and the headers it left. */
  datatype Execution = Execution(slot: Slot, hash: string, ops: seq<WriterOp>, headers: Headers)
  {
    /** Worth replaying: the body was captured whole and the status is the caller's own outcome. */
    predicate IsStorable() {
      var c := Captured(ops);
      !c.overflow && c.Status() < 500 && c.Status() != 429
    }

    function StoredResponse(): Response {
      Response(Captured(ops).Status(), Storable(headers), Captured(ops).buf)
    }
  }

  datatype Outcome = Executed | Replayed(response: Response) | Mismatch | StillRunning | Failed

  /** Where one request is between its statements. The times are those it computed before the
      statement it is about to send. */
  datatype Phase =
    | Claiming(expiresAt: int)
    | Reading(expiresAt: int)
    | Reclaiming(expiresAt: int)
    | Observed
    | TakingOver(expiresAt: int, staleBefore: int)
    | Executing(since: int)
    | Done(outcome: Outcome)

  datatype Request = Request(slot: Slot, hash: string, phase: Phase)

  /** `log` remembers every finished execution, stored or not. */
  datatype State = State(rows: Rows, requests: map<nat, Request>, now: int, log: set<Execution>)

  ghost predicate Init(s: State) {
    s.rows == map[] && s.requests == map[] && s.log == {}
  }

  function Moved(s: State, id: nat, phase: Phase): State
    requires id in s.requests
  {
    s.(requests := s.requests[id := s.requests[id].(phase := phase)])
  }

  datatype Step =
    | Arrive(id: nat, slot: Slot, hash: string)
    | ClaimStep(id: nat)
    | ReadStep(id: nat)
    | PrepareStep(id: nat)
    | TakeOverStep(id: nat)
    | FinishStep(id: nat, ops: seq<WriterOp>, headers: Headers)
    | CrashStep(id: nat)
    | SweepStep
    | TickStep(to: int)

  predicate Enabled(s: State, step: Step) {
    match step
    case Arrive(id, _, _) => id !in s.requests
    case ClaimStep(id) => id in s.requests && (s.requests[id].phase.Claiming? || s.requests[id].phase.Reclaiming?)
    case ReadStep(id) => id in s.requests && s.requests[id].phase.Reading?
    case PrepareStep(id) => id in s.requests && s.requests[id].phase.Observed?
    case TakeOverStep(id) => id in s.requests && s.requests[id].phase.TakingOver?
    case FinishStep(id, _, _) => id in s.requests && s.requests[id].phase.Executing?
    case CrashStep(id) => id in s.requests && !s.requests[id].phase.Done?
    case SweepStep => true
    case TickStep(to) => s.now <= to
  }

  /** The first claim, and the one retry after the row vanished. */
  function DoClaim(s: State, id: nat): State
    requires Enabled(s, ClaimStep(id))
  {
    var r := s.requests[id];
    if r.slot !in s.rows then
      Moved(s.(rows := Claim(s.rows, r.slot, r.hash, r.phase.expiresAt, s.now)), id, Executing(s.now))
    else if r.phase.Claiming? then
      Moved(s, id, Reading(r.phase.expiresAt))
    else
      Moved(s, id, Done(Failed))
  }

  function DoRead(s: State, id: nat): State
    requires Enabled(s, ReadStep(id))
  {
    var r := s.requests[id];
    if r.slot !in s.rows then Moved(s, id, Reclaiming(r.phase.expiresAt))
    else if s.rows[r.slot].hash != r.hash then Moved(s, id, Done(Mismatch))
    else
      match s.rows[r.slot].progress
      case Completed(response) => Moved(s, id, Done(Replayed(response)))
      case InFlight => Moved(s, id, Observed)
  }

  function DoTakeOver(s: State, id: nat): State
    requires Enabled(s, TakeOverStep(id))
  {
    var r := s.requests[id];
    if CanTakeOver(s.rows, r.slot, r.hash, r.phase.staleBefore) then
      Moved(s.(rows := TakeOver(s.rows, r.slot, r.hash, r.phase.expiresAt, r.phase.staleBefore, s.now)), id, Executing(s.now))
    else
      Moved(s, id, Done(StillRunning))
  }

  function DoFinish(s: State, id: nat, ops: seq<WriterOp>, headers: Headers): State
    requires Enabled(s, FinishStep(id, ops, headers))
  {
    var r := s.requests[id];
    var e := Execution(r.slot, r.hash, ops, headers);
    var rows := if e.IsStorable() then Complete(s.rows, r.slot, r.hash, e.StoredResponse(), s.now)
                else Vacate(s.rows, r.slot, r.hash);
    Moved(s.(rows := rows, log := s.log + {e}), id, Done(Executed))
  }

  function Apply(s: State, step: Step): State
    requires Enabled(s, step)
  {
    match step
    case Arrive(id, slot, hash) =>
      s.(requests := s.requests[id := Request(slot, hash, Claiming(s.now + IDEMPOTENCY_TTL))])
    case ClaimStep(id) => DoClaim(s, id)
    case ReadStep(id) => DoRead(s, id)
    case PrepareStep(id) => Moved(s, id, TakingOver(s.now + IDEMPOTENCY_TTL, s.now - IN_FLIGHT_TIMEOUT))
    case TakeOverStep(id) => DoTakeOver(s, id)
    case FinishStep(id, ops, headers) => DoFinish(s, id, ops, headers)
    case CrashStep(id) => Moved(s, id, Done(Failed))
    case SweepStep => s.(rows := DeleteExpired(s.rows, s.now))
    case TickStep(to) => s.(now := to)
  }

  /** A run: the states a sequence of steps passes through, from the empty table. */
  ghost predicate IsRun(run: seq<State>, steps: seq<Step>) {
    && |run| == |steps| + 1 && Init(run[0])
    && forall k | 0 <= k < |steps| :: Enabled(run[k], steps[k]) && run[k + 1] == Apply(run[k], steps[k])
  }

  /*********************** One request at a time ***********************/

  /** An outcome worth keeping: a body of at most 1 MiB and a first status that is neither a failure of
      the server's own nor a refusal for now. The caller's own errors are kept. */
  predicate Keepable(ops: seq<WriterOp>) {
    |Sent(ops)| <= 1048576 && FirstStatus(ops) < 500 && FirstStatus(ops) != 429
  }

  /** What is stored is decided by what the handler wrote, and it is all of that. */
  lemma StorableIff(e: Execution)
    ensures e.IsStorable() <==> Keepable(e.ops)
    ensures e.IsStorable() ==> e.StoredResponse() == Response(FirstStatus(e.ops), Storable(e.headers), Sent(e.ops))
  {
    CaptureIsWhole(e.ops);
    CaptureStatusIsFirst(e.ops);
  }

  /** Runs the handler behind a capturing writer and stores or discards what it produced: the row it
      runs for is completed with its first status, its unblocked headers and its whole body, or gone. */
  method ExecuteAndStore(store: Store, slot: Slot, hash: string, ops: seq<WriterOp>, headers: Headers, finished: int)
    modifies store
    ensures var e := Execution(slot, hash, ops, headers);
            store.rows == if e.IsStorable() then Complete(old(store.rows), slot, hash, e.StoredResponse(), finished)
                          else Vacate(old(store.rows), slot, hash)
    ensures OnlySlot(old(store.rows), store.rows, slot)
    ensures if !Running(old(store.rows), slot, hash) then store.rows == old(store.rows)
            else if Keepable(ops) then
              slot in store.rows && store.rows[slot].hash == hash
              && store.rows[slot].progress == Completed(Response(FirstStatus(ops), Storable(headers), Sent(ops)))
            else slot !in store.rows
  {
    var rec := new CaptureWriter();
    for i := 0 to |ops|
      invariant rec.Valid() && rec.ops == ops[..i] && fresh(rec)
      invariant store.rows == old(store.rows)
    {
      assert ops[..i + 1] == ops[..i] + [ops[i]];
      match ops[i]
      case SetStatus(code) => rec.WriteHeader(code);
      case Send(bytes) => rec.Write(bytes);
    }
    assert ops[..|ops|] == ops;
    StorableIff(Execution(slot, hash, ops, headers));
    CaptureStatusIsFirst(ops);
    if rec.overflow {
      store.VacateRow(slot, hash);
      return;
    }
    var status := rec.Status();
    if status >= 500 || status == 429 {
      store.VacateRow(slot, hash);
      return;
    }
    var kept := StorableHeaders(headers);
    store.CompleteRow(slot, hash, Response(status, kept, rec.buf), finished);
  }

  /** What an execution leaves in its slot. */
  function Settled(rows: Rows, e: Execution, expiresAt: int, finished: int): Rows {
    if e.IsStorable() then rows[e.slot := Row(e.hash, Completed(e.StoredResponse()), expiresAt, finished)] else rows - {e.slot}
  }

  /** The decision sequence of the middleware, undisturbed: a first sighting executes and settles, a
      repeat replays, a different request under the same key is refused, a running one is in the
      way until it has been silent for a minute. A row lives for a day. */
  method Handle(store: Store, slot: Slot, hash: string, now: int, ops: seq<WriterOp>, headers: Headers, finished: int)
    returns (outcome: Outcome)
    modifies store
    ensures var rows, e := old(store.rows), Execution(slot, hash, ops, headers);
            if slot !in rows || (Running(rows, slot, hash) && rows[slot].updatedAt < now - 60 * 1000) then
              outcome == Executed && store.rows == Settled(rows, e, now + 24 * 60 * 60 * 1000, finished)
            else
              && store.rows == rows
              && outcome == if rows[slot].hash != hash then Mismatch
                            else if rows[slot].progress.Completed? then Replayed(rows[slot].progress.response)
                            else StillRunning
  {
    var claimed := store.TryClaim(slot, hash, now + IDEMPOTENCY_TTL, now);
    if claimed {
      ExecuteAndStore(store, slot, hash, ops, headers, finished);
      return Executed;
    }
    var existing := store.Get(slot);
    if existing.value.hash != hash {
      return Mismatch;
    }
    if existing.value.progress.Completed? {
      return Replayed(existing.value.progress.response);
    }
    var taken := store.TryTakeOver(slot, hash, now + IDEMPOTENCY_TTL, now - IN_FLIGHT_TIMEOUT, now);
    if taken {
      ExecuteAndStore(store, slot, hash, ops, headers, finished);
      return Executed;
    }
    return StillRunning;
  }

  /** A request and its retry: whatever the retry's handler would have done, a first answer worth
      keeping is what it gets, and only it; any other is earned again. */
  method HandleTwice(store: Store, slot: Slot, hash: string, again: string, now: int, later: int,
                     ops: seq<WriterOp>, headers: Headers, ops': seq<WriterOp>, headers': Headers)
    returns (first: Outcome, second: Outcome)
    requires slot !in store.rows
    modifies store
    ensures first == Executed
    ensures second == if !Keepable(ops) then Executed
                      else if again == hash then Replayed(Response(FirstStatus(ops), Storable(headers), Sent(ops)))
                      else Mismatch
  {
    StorableIff(Execution(slot, hash, ops, headers));
    first := Handle(store, slot, hash, now, ops, headers, now);
    second := Handle(store, slot, again, later, ops', headers', later);
  }

  /*********************** Replays are faithful ***********************/

  /** Some finished execution of this slot and this fingerprint produced exactly this response. */
  ghost predicate Witnessed(log: set<Execution>, slot: Slot, hash: string, response: Response) {
    exists e :: e in log && e.slot == slot && e.hash == hash && e.IsStorable() && response == e.StoredResponse()
  }

  ghost predicate Faithful(s: State) {
    && (forall slot | slot in s.rows && s.rows[slot].progress.Completed? ::
          Witnessed(s.log, slot, s.rows[slot].hash, s.rows[slot].progress.response))
    && (forall id | id in s.requests && s.requests[id].phase.Done? && s.requests[id].phase.outcome.Replayed? ::
          Witnessed(s.log, s.requests[id].slot, s.requests[id].hash, s.requests[id].phase.outcome.response))
  }

  lemma FaithfulStep(s: State, step: Step)
    requires Faithful(s) && Enabled(s, step)
    ensures Faithful(Apply(s, step))
  {
    var t := Apply(s, step);
    assert s.log <= t.log;
    if step.FinishStep? {
      var r := s.requests[step.id];
      var e := Execution(r.slot, r.hash, step.ops, step.headers);
      assert e in t.log;
    }
  }

  lemma {:induction false} FaithfulAlways(run: seq<State>, steps: seq<Step>, i: nat)
    requires IsRun(run, steps) && i < |run|
    ensures Faithful(run[i])
  {
    if i > 0 {
      FaithfulAlways(run, steps, i - 1);
      FaithfulStep(run[i - 1], steps[i - 1]);
    }
  }

  /** In every run a replay answers with what one execution of the same key and the same request
      produced: its first status, its whole body of at most the bound, and the headers it left when it
      returned, less the blocked ones; and that status was below 500 and not 429. It is the final
      status the client saw unless the handler wrote an informational one first. */
  lemma ReplayFidelity(run: seq<State>, steps: seq<Step>, i: nat, id: nat)
    requires IsRun(run, steps) && i < |run|
    requires id in run[i].requests && run[i].requests[id].phase.Done? && run[i].requests[id].phase.outcome.Replayed?
    ensures var r := run[i].requests[id];
            exists e :: e in run[i].log && e.slot == r.slot && e.hash == r.hash
                        && FirstStatus(e.ops) < 500 && FirstStatus(e.ops) != 429 && |Sent(e.ops)| <= MAX_CAPTURED_BODY
                        && r.phase.outcome.response == Response(FirstStatus(e.ops), Storable(e.headers), Sent(e.ops))
                        && (FirstStatus(e.ops) == FinalStatus(e.ops) <==> !Informational(FirstStatus(e.ops)))
  {
    FaithfulAlways(run, steps, i);
    var r := run[i].requests[id];
    var e :| e in run[i].log && e.slot == r.slot && e.hash == r.hash && e.IsStorable()
             && r.phase.outcome.response == e.StoredResponse();
    CaptureIsWhole(e.ops);
    CaptureStatusIsFirst(e.ops);
    FinalIsNotInformational(e.ops);
  }

  /** A completed row is not touched by anything but the sweep, and by the sweep only once it
      has expired: later completions, vacates and takeovers of its slot are no-ops. */
  lemma CompletedRowIsFrozen(s: State, step: Step, t: State, slot: Slot)
    requires Enabled(s, step) && t == Apply(s, step) && slot in s.rows && s.rows[slot].progress.Completed?
    ensures if slot in t.rows then t.rows[slot] == s.rows[slot] else step == SweepStep && s.rows[slot].expiresAt < s.now
  {
  }

  /** While a row is completed no request of its slot begins to execute. */
  lemma NoExecutionAfterCompletion(s: State, step: Step, id: nat)
    requires Enabled(s, step) && Live(Apply(s, step), id)
    requires var slot := Apply(s, step).requests[id].slot; slot in s.rows && s.rows[slot].progress.Completed?
    ensures Live(s, id)
  {
  }

  /** The first storable completion wins: once a row is completed it keeps that answer, in every
      later state of every run, for as long as it has not expired. */
  lemma {:induction false} FirstCompletionWins(run: seq<State>, steps: seq<Step>, i: nat, j: nat, slot: Slot)
    requires IsRun(run, steps) && i <= j < |run|
    requires slot in run[i].rows && run[i].rows[slot].progress.Completed?
    ensures run[j].now <= run[i].rows[slot].expiresAt ==> slot in run[j].rows && run[j].rows[slot] == run[i].rows[slot]
    ensures run[i].now <= run[j].now
  {
    if i < j {
      FirstCompletionWins(run, steps, i, j - 1, slot);
      FrozenStep(run[j - 1], steps[j - 1], run[j], slot, run[i].rows[slot]);
    }
  }

  lemma FrozenStep(s: State, step: Step, t: State, slot: Slot, row: Row)
    requires Enabled(s, step) && t == Apply(s, step) && row.progress.Completed?
    requires s.now <= row.expiresAt ==> slot in s.rows && s.rows[slot] == row
    ensures s.now <= t.now
    ensures t.now <= row.expiresAt ==> slot in t.rows && t.rows[slot] == row
  {
    if t.now <= row.expiresAt {
      CompletedRowIsFrozen(s, step, t, slot);
    }
  }

  /*********************** At most one live execution ***********************/

  ghost predicate Live(s: State, id: nat) {
    id in s.requests && s.requests[id].phase.Executing?
  }

  /** The timing assumption: whoever still executes started at most the timeout ago. A crashed
      request no longer executes. */
  ghost predicate Timely(s: State) {
    forall id | Live(s, id) :: s.now <= s.requests[id].phase.since + IN_FLIGHT_TIMEOUT
  }

  /** A claim or takeover reaches the table before the expiry it carries comes within the
      timeout: within 23 hours and 59 minutes of computing it. */
  ghost predicate Prompt(s: State, step: Step)
    requires Enabled(s, step)
  {
    step.ClaimStep? || step.TakeOverStep? ==> s.now + IN_FLIGHT_TIMEOUT <= s.requests[step.id].phase.expiresAt
  }

  ghost predicate Owns(s: State, id: nat)
    requires Live(s, id)
  {
    var r := s.requests[id];
    && r.slot in s.rows
    && s.rows[r.slot].progress.InFlight? && s.rows[r.slot].hash == r.hash
    && s.rows[r.slot].updatedAt == r.phase.since
    && r.phase.since + IN_FLIGHT_TIMEOUT <= s.rows[r.slot].expiresAt
  }

  ghost predicate OneLive(s: State) {
    forall a, b | Live(s, a) && Live(s, b) && s.requests[a].slot == s.requests[b].slot :: a == b
  }

  ghost predicate Exclusive(s: State) {
    && OneLive(s)
    && (forall id | Live(s, id) :: Owns(s, id))
    && (forall id | id in s.requests && s.requests[id].phase.TakingOver? ::
          s.requests[id].phase.staleBefore <= s.now - IN_FLIGHT_TIMEOUT)
  }

  lemma NoLiveOnFreeSlot(s: State, id: nat, slot: Slot)
    requires Exclusive(s) && Live(s, id) && slot !in s.rows
    ensures s.requests[id].slot != slot
  {
    assert Owns(s, id);
  }

  lemma LiveRowsPresent(s: State)
    requires Exclusive(s)
    ensures forall a | Live(s, a) :: s.requests[a].slot in s.rows
  {
    forall a | Live(s, a) ensures s.requests[a].slot in s.rows {
      assert Owns(s, a);
    }
  }

  /** A takeover never succeeds against a live, timely execution. */
  lemma NoTakeOverOfLive(s: State, id: nat, slot: Slot, hash: string, staleBefore: int)
    requires Exclusive(s) && Timely(s) && Live(s, id) && s.requests[id].slot == slot
    requires staleBefore <= s.now - IN_FLIGHT_TIMEOUT
    ensures !CanTakeOver(s.rows, slot, hash, staleBefore)
  {
    assert Owns(s, id);
  }

  lemma StartExclusive(s: State, id: nat, rows: Rows, t: State)
    requires Exclusive(s) && id in s.requests && !Live(s, id)
    requires t == Moved(s.(rows := rows), id, Executing(s.now))
    requires var slot := s.requests[id].slot;
             && slot in rows && rows[slot].progress.InFlight? && rows[slot].hash == s.requests[id].hash
             && rows[slot].updatedAt == s.now && s.now + IN_FLIGHT_TIMEOUT <= rows[slot].expiresAt
             && (forall other | other in s.rows && other != slot :: other in rows && rows[other] == s.rows[other])
             && forall a | Live(s, a) :: s.requests[a].slot != slot
    ensures Exclusive(t)
  {
    forall a | Live(t, a) ensures Owns(t, a) {
      if a != id {
        assert Live(s, a) && Owns(s, a);
      }
    }
    forall a, b | Live(t, a) && Live(t, b) && t.requests[a].slot == t.requests[b].slot ensures a == b {
      if a != id && b != id {
        assert Live(s, a) && Live(s, b);
      } else if a != id {
        assert Live(s, a);
      } else if b != id {
        assert Live(s, b);
      }
    }
  }

  /** A request leaves, or keeps out of, execution; the rows of the other live ones are kept. */
  lemma StopExclusive(s: State, id: nat, rows: Rows, log: set<Execution>, phase: Phase, t: State)
    requires Exclusive(s) && id in s.requests && !phase.Executing?
    requires phase.TakingOver? ==> phase.staleBefore <= s.now - IN_FLIGHT_TIMEOUT
    requires t == Moved(s.(rows := rows, log := log), id, phase)
    requires forall a | Live(s, a) && a != id :: s.requests[a].slot in rows && rows[s.requests[a].slot] == s.rows[s.requests[a].slot]
    ensures Exclusive(t)
  {
    forall a | Live(t, a) ensures Owns(t, a) {
      assert Live(s, a) && Owns(s, a);
    }
    forall a, b | Live(t, a) && Live(t, b) && t.requests[a].slot == t.requests[b].slot ensures a == b {
      assert Live(s, a) && Live(s, b);
    }
  }

  lemma FinishExclusive(s: State, step: Step)
    requires Exclusive(s) && step.FinishStep? && Enabled(s, step)
    ensures Exclusive(Apply(s, step))
  {
    var t, r := Apply(s, step), s.requests[step.id];
    assert Live(s, step.id);
    forall a | Live(s, a) && a != step.id ensures s.requests[a].slot in t.rows && t.rows[s.requests[a].slot] == s.rows[s.requests[a].slot] {
      assert Owns(s, a);
      assert s.requests[a].slot != r.slot;
    }
    StopExclusive(s, step.id, t.rows, t.log, Done(Executed), t);
  }

  lemma ClaimExclusive(s: State, step: Step)
    requires Exclusive(s) && step.ClaimStep? && Enabled(s, step) && Prompt(s, step)
    ensures Exclusive(Apply(s, step))
  {
    var t, r := Apply(s, step), s.requests[step.id];
    if r.slot !in s.rows {
      forall a | Live(s, a) ensures s.requests[a].slot != r.slot {
        NoLiveOnFreeSlot(s, a, r.slot);
      }
      StartExclusive(s, step.id, t.rows, t);
    } else {
      LiveRowsPresent(s);
      StopExclusive(s, step.id, s.rows, s.log, t.requests[step.id].phase, t);
    }
  }

  lemma TakeOverExclusive(s: State, step: Step)
    requires Exclusive(s) && Timely(s) && step.TakeOverStep? && Enabled(s, step) && Prompt(s, step)
    ensures Exclusive(Apply(s, step))
  {
    var t, r := Apply(s, step), s.requests[step.id];
    if CanTakeOver(s.rows, r.slot, r.hash, r.phase.staleBefore) {
      forall a | Live(s, a) ensures s.requests[a].slot != r.slot {
        if s.requests[a].slot == r.slot {
          NoTakeOverOfLive(s, a, r.slot, r.hash, r.phase.staleBefore);
        }
      }
      StartExclusive(s, step.id, t.rows, t);
    } else {
      LiveRowsPresent(s);
      StopExclusive(s, step.id, s.rows, s.log, Done(StillRunning), t);
    }
  }

  lemma ExclusiveStep(s: State, step: Step)
    requires Exclusive(s) && Timely(s) && Enabled(s, step) && Prompt(s, step)
    ensures Exclusive(Apply(s, step))
  {
    var t := Apply(s, step);
    match step
    case ClaimStep(_) => ClaimExclusive(s, step);
    case TakeOverStep(_) => TakeOverExclusive(s, step);
    case FinishStep(_, _, _) => FinishExclusive(s, step);
    case ReadStep(id) =>
      LiveRowsPresent(s);
      StopExclusive(s, id, s.rows, s.log, t.requests[id].phase, t);
    case PrepareStep(id) =>
      LiveRowsPresent(s);
      StopExclusive(s, id, s.rows, s.log, t.requests[id].phase, t);
    case CrashStep(id) =>
      LiveRowsPresent(s);
      StopExclusive(s, id, s.rows, s.log, Done(Failed), t);
    case _ =>
      forall a | Live(t, a) ensures Live(s, a) && Owns(t, a) {
        assert Live(s, a) && Owns(s, a);
      }
  }

  /** In every run in which surviving executions keep to the timeout, no key ever has two live
      executions, whatever crashes, takeovers, vacates and sweeps occur. */
  lemma {:induction false} AtMostOneLive(run: seq<State>, steps: seq<Step>, i: nat)
    requires IsRun(run, steps) && i < |run|
    requires forall k | 0 <= k < |steps| :: Prompt(run[k], steps[k])
    requires forall k | 0 <= k < |run| :: Timely(run[k])
    ensures Exclusive(run[i])
    ensures forall a, b | Live(run[i], a) && Live(run[i], b) && run[i].requests[a].slot == run[i].requests[b].slot :: a == b
  {
    if i > 0 {
      AtMostOneLive(run, steps, i - 1);
      ExclusiveStep(run[i - 1], steps[i - 1]);
    }
  }

  /** The timeout is exact: a retry of the same request that reads the row now takes it over if
      and only if the live execution started more than the timeout ago. */
  lemma TakeOverIffOverdue(s: State, live: nat, retry: nat)
    requires Exclusive(s) && Live(s, live) && retry in s.requests
    requires s.requests[retry].slot == s.requests[live].slot && s.requests[retry].hash == s.requests[live].hash
    requires s.requests[retry].phase.TakingOver? && s.requests[retry].phase.staleBefore == s.now - IN_FLIGHT_TIMEOUT
    ensures var t := Apply(s, TakeOverStep(retry));
            Live(t, live) && Live(t, retry) <==> s.now > s.requests[live].phase.since + 60 * 1000
  {
    assert Owns(s, live);
  }

  /*********************** Retries are answered ***********************/

  /** What a request finds when it reads its row: the stored answer if that is of the same request,
      a refusal if it is of another, and otherwise a running execution. */
  lemma ReadAnswers(s: State, id: nat)
    requires Enabled(s, ReadStep(id)) && s.requests[id].slot in s.rows
    ensures var r, row := s.requests[id], s.rows[s.requests[id].slot];
            Apply(s, ReadStep(id)).requests[id].phase
            == if row.hash != r.hash then Done(Mismatch)
               else if row.progress.Completed? then Done(Replayed(row.progress.response)) else Observed
  {
  }

  /** In every run a retry that reads its row after an execution of the same request was stored, and
      before that row expires, is answered with what was stored. */
  lemma RetryIsReplayed(run: seq<State>, steps: seq<Step>, i: nat, j: nat, id: nat)
    requires IsRun(run, steps) && i <= j < |steps| && steps[j] == ReadStep(id)
    requires var slot, rows := run[j].requests[id].slot, run[i].rows;
             && slot in rows && rows[slot].progress.Completed? && rows[slot].hash == run[j].requests[id].hash
             && run[j].now <= rows[slot].expiresAt
    ensures run[j + 1].requests[id].phase == Done(Replayed(run[i].rows[run[j].requests[id].slot].progress.response))
  {
    FirstCompletionWins(run, steps, i, j, run[j].requests[id].slot);
    ReadAnswers(run[j], id);
  }

  /** When the execution that owns its row finishes, the row holds its answer, or the slot is free for a
      retry to execute. */
  lemma FinishSettles(s: State, id: nat, ops: seq<WriterOp>, headers: Headers)
    requires Live(s, id) && Owns(s, id)
    ensures var t, slot := Apply(s, FinishStep(id, ops, headers)), s.requests[id].slot;
            && t.requests[id].phase == Done(Executed) && Execution(slot, s.requests[id].hash, ops, headers) in t.log
            && if Keepable(ops) then
                 && slot in t.rows && t.rows[slot].hash == s.requests[id].hash && t.rows[slot].expiresAt == s.rows[slot].expiresAt
                 && t.rows[slot].progress == Completed(Response(FirstStatus(ops), Storable(headers), Sent(ops)))
               else slot !in t.rows
  {
    StorableIff(Execution(s.requests[id].slot, s.requests[id].hash, ops, headers));
  }

  /** A claim executes exactly when the slot is free: its row is then in flight for a day. */
  lemma ClaimExecutesIff(s: State, id: nat)
    requires Enabled(s, ClaimStep(id))
    ensures var t, r := Apply(s, ClaimStep(id)), s.requests[id];
            && (Live(t, id) <==> r.slot !in s.rows)
            && (Live(t, id) ==> r.slot in t.rows && t.rows[r.slot] == IdempotencyStore.Row(r.hash, InFlight, r.phase.expiresAt, s.now))
            && (!Live(t, id) ==> t.rows == s.rows && t.requests[id].phase == if r.phase.Claiming? then Reading(r.phase.expiresAt) else Done(Failed))
  {
  }

  /** The times a request carries: a row is to live for a day from when it was asked for, and only an
      execution silent for more than a minute is taken over. */
  lemma TimesCarried(s: State, id: nat, slot: Slot, hash: string)
    ensures Enabled(s, Arrive(id, slot, hash)) ==>
              Apply(s, Arrive(id, slot, hash)).requests[id] == Request(slot, hash, Claiming(s.now + 24 * 60 * 60 * 1000))
    ensures Enabled(s, PrepareStep(id)) ==>
              Apply(s, PrepareStep(id)).requests[id].phase == TakingOver(s.now + 24 * 60 * 60 * 1000, s.now - 60 * 1000)
  {
  }
}
