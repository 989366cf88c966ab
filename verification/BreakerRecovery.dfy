// How a key's breaker closes and opens again over every interleaving of every gateway's steps: what shuts
// it, what a success undoes, and what the gate answers between (src/lib/breaker.ts:76-187).
module BreakerRecovery {
  import opened Options
  import opened KvStore
  import opened Breaker
  import opened SelectKey
  import opened Gateways
  import opened BreakerRuns

  // ── What shuts a closed key, and nothing else ────────────────────────────────────────────────

  // Whoever asks, whatever its clock says.
  ghost predicate AlwaysClosed(st: Store, id: string) { forall at: int :: Acquire(st, id, at).1 == Closed }

  // A failure that trips, or a rate limit.
  predicate Shuts(st: Store, op: Op, id: string) { Trips(st, op, id) || (op.LimitRate? && op.id == id) }

  ghost predicate NoneShuts(cfg: Config, st: Store, ops: seq<Op>, id: string) {
    forall n :: 0 <= n < |ops| ==> !Shuts(Run(cfg, st, ops[..n]), ops[n], id)
  }

  lemma {:induction false} ClosedMeans(st: Store, id: string)
    ensures AlwaysClosed(st, id) <==> OpenUntil(id) !in st.nums
  {
    assert OpenUntil(id) in st.nums ==> Acquire(st, id, 0).1 != Closed;
  }

  // A step that neither shuts the key nor reports a success on it leaves its open key as it is.
  lemma {:induction false} OpenKept(cfg: Config, st: Store, op: Op, id: string)
    requires !op.Pass? && !Shuts(st, op, id) && op != Succeed(id)
    ensures Apply(cfg, st, op).now == st.now && SameAt(st, Apply(cfg, st, op), OpenUntil(id))
  {
    if op.Pick? { PickFrame(cfg, st, op); }
    else if !IsBreakerOp(op) { AdmissionFrame(cfg, st, op); }
    else if op.id != id { BreakerOpFrame(cfg, st, op); }
    else if op.Fail? { TripCools(Del(st, Probe(id)), id, op.nowMs); TripCools(Strike(Del(st, Probe(id)), id), id, op.nowMs); }
  }

  lemma {:induction false} TripOpens(st: Store, id: string, isProbe: bool, nowMs: int)
    requires ServerFailure(st, id, isProbe, nowMs).1 > 0
    ensures var (after, cd) := ServerFailure(st, id, isProbe, nowMs);
            && after.now == st.now && Probe(id) !in after.nums && OpenUntil(id) in after.nums
            && after.nums[OpenUntil(id)] == Cell(nowMs + cd * 1000, Some(st.now + OPEN_KEY_TTL_SECONDS * 1000))
  {
  }

  lemma {:induction false} LimitOpens(st: Store, id: string, seconds: nat, nowMs: int)
    ensures var after := RateLimit(st, id, seconds, nowMs);
            && after.now == st.now && Probe(id) !in after.nums && OpenUntil(id) in after.nums
            && after.nums[OpenUntil(id)] == Cell(nowMs + seconds * 1000, Some(st.now + OPEN_KEY_TTL_SECONDS * 1000))
  {
  }

  lemma {:induction false} ShutStep(cfg: Config, st: Store, op: Op, id: string)
    requires AlwaysClosed(st, id)
    ensures AlwaysClosed(Apply(cfg, st, op), id) <==> !Shuts(st, op, id)
  {
    ClosedMeans(st, id);
    ClosedMeans(Apply(cfg, st, op), id);
    if Trips(st, op, id) { TripOpens(st, id, op.isProbe, op.nowMs); }
    else if !Shuts(st, op, id) && !op.Pass? && op != Succeed(id) { OpenKept(cfg, st, op, id); }
  }

  lemma {:induction false} NoneShutsSooner(cfg: Config, st: Store, ops: seq<Op>, id: string, n: nat)
    requires n <= |ops| && NoneShuts(cfg, st, ops, id)
    ensures NoneShuts(cfg, st, ops[..n], id)
  {
    forall m | 0 <= m < n ensures !Shuts(Run(cfg, st, ops[..n][..m]), ops[..n][m], id) {
      assert ops[..n][..m] == ops[..m] && !Shuts(Run(cfg, st, ops[..m]), ops[m], id);
    }
  }

  lemma {:induction false} ClosedRun(cfg: Config, st: Store, ops: seq<Op>, id: string)
    requires AlwaysClosed(st, id) && NoneShuts(cfg, st, ops, id)
    ensures AlwaysClosed(Run(cfg, st, ops), id)
    decreases |ops|
  {
    if ops != [] {
      var n := |ops| - 1;
      NoneShutsSooner(cfg, st, ops, id, n);
      ClosedRun(cfg, st, ops[..n], id);
      ShutStep(cfg, Run(cfg, st, ops[..n]), ops[n], id);
    }
  }

  lemma {:induction false} ShutBetween(cfg: Config, st: Store, ops: seq<Op>, id: string, n: nat)
    requires n < |ops| && AlwaysClosed(Run(cfg, st, ops[..n]), id) && AlwaysClosed(Run(cfg, st, ops[..n + 1]), id)
    ensures !Shuts(Run(cfg, st, ops[..n]), ops[n], id)
  {
    assert ops[..n + 1][..n] == ops[..n];
    ShutStep(cfg, Run(cfg, st, ops[..n]), ops[n], id);
  }

  // Over every run: a closed key stays closed all along if and only if no failure trips it and no rate
  // limit is reported on it.
  lemma {:induction false} ClosedUntilShut(cfg: Config, st: Store, ops: seq<Op>, id: string)
    requires AlwaysClosed(st, id)
    ensures (forall n :: 0 <= n <= |ops| ==> AlwaysClosed(Run(cfg, st, ops[..n]), id)) <==> NoneShuts(cfg, st, ops, id)
  {
    if NoneShuts(cfg, st, ops, id) {
      forall n | 0 <= n <= |ops| ensures AlwaysClosed(Run(cfg, st, ops[..n]), id) {
        NoneShutsSooner(cfg, st, ops, id, n);
        ClosedRun(cfg, st, ops[..n], id);
      }
    }
    if forall n :: 0 <= n <= |ops| ==> AlwaysClosed(Run(cfg, st, ops[..n]), id) {
      forall n | 0 <= n < |ops| ensures !Shuts(Run(cfg, st, ops[..n]), ops[n], id) {
        assert AlwaysClosed(Run(cfg, st, ops[..n]), id) && AlwaysClosed(Run(cfg, st, ops[..n + 1]), id);
        ShutBetween(cfg, st, ops, id, n);
      }
    }
  }

  // A success closes the breaker, whatever it was: from then on, until a failure trips it or a rate limit
  // is reported, every gateway is answered "closed", and a pick that goes to the key takes no probe slot.
  lemma {:induction false} SuccessCloses(cfg: Config, st: Store, ops: seq<Op>, id: string, op: Op)
    requires NoneShuts(cfg, Success(st, id), ops, id)
    ensures var later := Run(cfg, Success(st, id), ops);
            && AlwaysClosed(later, id)
            && (op.Pick? && Picked(cfg, later, op).Some? && Picked(cfg, later, op).value.0 == id ==>
                  Picked(cfg, later, op).value.1 == Closed)
  {
    ClosedMeans(Success(st, id), id);
    ClosedRun(cfg, Success(st, id), ops, id);
    var later := Run(cfg, Success(st, id), ops);
    ClosedMeans(later, id);
    if op.Pick? && Picked(cfg, later, op).Some? { PickedGate(cfg, later, op); }
  }

  // ── What the gate answers while a key is shut ────────────────────────────────────────────────

  // Shut at one time, to reopen at an instant; forgotten once the store's clock reaches `until`.
  ghost predicate ShutTill(st: Store, id: string, reopen: int, until: int) {
    if st.now < until then OpenUntil(id) in st.nums && st.nums[OpenUntil(id)] == Cell(reopen, Some(until))
    else OpenUntil(id) !in st.nums
  }

  // No success, rate limit or failure that trips.
  ghost predicate LeftAlone(cfg: Config, st: Store, ops: seq<Op>, id: string) {
    NoneShuts(cfg, st, ops, id) && Succeed(id) !in ops
  }

  lemma {:induction false} ShutRun(cfg: Config, st: Store, ops: seq<Op>, id: string, reopen: int, until: int)
    requires ShutTill(st, id, reopen, until) && LeftAlone(cfg, st, ops, id)
    ensures ShutTill(Run(cfg, st, ops), id, reopen, until)
    decreases |ops|
  {
    if ops != [] {
      var n := |ops| - 1;
      NoneShutsSooner(cfg, st, ops, id, n);
      ShutRun(cfg, st, ops[..n], id, reopen, until);
      assert !Shuts(Run(cfg, st, ops[..n]), ops[n], id) && ops[n] in ops;
      if !ops[n].Pass? { OpenKept(cfg, Run(cfg, st, ops[..n]), ops[n], id); }
    }
  }

  // What every gateway is told: nothing before the reopening instant by its own clock; then the probe slot
  // when it is free; and that the key is closed once the store has forgotten.
  ghost predicate Answers(st: Store, id: string, reopen: int, until: int) {
    forall at: int :: Acquire(st, id, at).1 ==
      if st.now >= until then Closed
      else if at < reopen || Probe(id) in st.nums then Open
      else ProbeSlot
  }

  lemma {:induction false} AnswersOf(st: Store, id: string, reopen: int, until: int)
    requires ShutTill(st, id, reopen, until)
    ensures Answers(st, id, reopen, until)
  {
  }

  // After a trip, until the next report that matters.
  lemma {:induction false} AfterTrip(cfg: Config, st: Store, id: string, isProbe: bool, nowMs: int, ops: seq<Op>)
    requires ServerFailure(st, id, isProbe, nowMs).1 > 0 && LeftAlone(cfg, ServerFailure(st, id, isProbe, nowMs).0, ops, id)
    ensures var (tripped, cd) := ServerFailure(st, id, isProbe, nowMs);
            Answers(Run(cfg, tripped, ops), id, nowMs + cd * 1000, st.now + OPEN_KEY_TTL_SECONDS * 1000)
  {
    TripOpens(st, id, isProbe, nowMs);
    var (tripped, cd) := ServerFailure(st, id, isProbe, nowMs);
    ShutRun(cfg, tripped, ops, id, nowMs + cd * 1000, st.now + OPEN_KEY_TTL_SECONDS * 1000);
    AnswersOf(Run(cfg, tripped, ops), id, nowMs + cd * 1000, st.now + OPEN_KEY_TTL_SECONDS * 1000);
  }

  // After a rate limit, likewise: nobody is let through for `seconds`.
  lemma {:induction false} AfterRateLimit(cfg: Config, st: Store, id: string, seconds: nat, nowMs: int, ops: seq<Op>)
    requires LeftAlone(cfg, RateLimit(st, id, seconds, nowMs), ops, id)
    ensures Answers(Run(cfg, RateLimit(st, id, seconds, nowMs), ops), id, nowMs + seconds * 1000, st.now + OPEN_KEY_TTL_SECONDS * 1000)
  {
    LimitOpens(st, id, seconds, nowMs);
    var limited := RateLimit(st, id, seconds, nowMs);
    ShutRun(cfg, limited, ops, id, nowMs + seconds * 1000, st.now + OPEN_KEY_TTL_SECONDS * 1000);
    AnswersOf(Run(cfg, limited, ops), id, nowMs + seconds * 1000, st.now + OPEN_KEY_TTL_SECONDS * 1000);
  }

  // Picks are answered as gateways are.
  lemma {:induction false} PicksAreAnswered(cfg: Config, st: Store, op: Op, id: string, reopen: int, until: int)
    requires Answers(st, id, reopen, until) && LetThrough(cfg, st, op, id)
    ensures st.now < until ==> op.nowMs >= reopen && Probe(id) !in st.nums && Claims(cfg, st, op, id)
  {
    LetThroughSays(cfg, st, op, id);
    if st.now < until { assert Acquire(st, id, op.nowMs).1 != Closed && OpenUntil(id) in st.nums; }
  }

  // ── The probe slot ───────────────────────────────────────────────────────────────────────────

  // Claimed once, and held to an instant of the store's clock; free from then on.
  ghost predicate HeldTill(st: Store, id: string, until: int) {
    if st.now < until then Probe(id) in st.nums && st.nums[Probe(id)].expiresAt == Some(until) else Probe(id) !in st.nums
  }

  ghost predicate NoClaim(cfg: Config, st: Store, ops: seq<Op>, id: string) {
    forall n :: 0 <= n < |ops| ==> !Claims(cfg, Run(cfg, st, ops[..n]), ops[n], id)
  }

  lemma {:induction false} SlotKept(cfg: Config, st: Store, op: Op, id: string)
    requires !op.Pass? && !Reports(op, id) && !Claims(cfg, st, op, id)
    ensures Apply(cfg, st, op).now == st.now && SameAt(st, Apply(cfg, st, op), Probe(id))
  {
    if op.Pick? {
      PickFrame(cfg, st, op);
      if Picked(cfg, st, op).Some? && Picked(cfg, st, op).value.0 == id { PickedGate(cfg, st, op); PickHolds(cfg, st, op, id); }
    } else if !IsBreakerOp(op) {
      AdmissionFrame(cfg, st, op);
    } else if op.id != id {
      BreakerOpFrame(cfg, st, op);
    }
  }

  lemma {:induction false} SlotTimeline(cfg: Config, st: Store, ops: seq<Op>, id: string, until: int)
    requires HeldTill(st, id, until) && NoReport(ops, id) && NoClaim(cfg, st, ops, id)
    ensures HeldTill(Run(cfg, st, ops), id, until)
    decreases |ops|
  {
    if ops != [] {
      var n := |ops| - 1;
      var early := ops[..n];
      forall m | 0 <= m < n ensures !Claims(cfg, Run(cfg, st, early[..m]), early[m], id) {
        assert early[..m] == ops[..m] && !Claims(cfg, Run(cfg, st, ops[..m]), ops[m], id);
      }
      SlotTimeline(cfg, st, early, id, until);
      assert !Claims(cfg, Run(cfg, st, early), ops[n], id);
      if !ops[n].Pass? { SlotKept(cfg, Run(cfg, st, early), ops[n], id); }
    }
  }

  // A probe that never reports: its slot is free again when its time is out, and not before.
  lemma {:induction false} ClaimTimesOut(cfg: Config, st: Store, id: string, nowMs: nat, ops: seq<Op>)
    requires Acquire(st, id, nowMs).1 == ProbeSlot
    requires NoReport(ops, id) && NoClaim(cfg, Acquire(st, id, nowMs).0, ops, id)
    ensures var later := Run(cfg, Acquire(st, id, nowMs).0, ops);
            Probe(id) in later.nums <==> later.now < st.now + PROBE_TTL_SECONDS * 1000
  {
    SlotTimeline(cfg, Acquire(st, id, nowMs).0, ops, id, st.now + PROBE_TTL_SECONDS * 1000);
  }
}
