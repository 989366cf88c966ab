// What the breaker keeps over every interleaving of every gateway's steps, the request path's picks
// among them, each gateway on its own clock.
module BreakerRuns {
  import opened Options
  import opened KvStore
  import opened Breaker
  import opened SelectKey
  import opened Gateways

  // ── Half-open discipline ─────────────────────────────────────────────────────────────────────

  // Neither a success nor a rate limit on this key.
  ghost predicate KeepsOpen(ops: seq<Op>, id: string) {
    forall n :: 0 <= n < |ops| ==> ops[n] != Succeed(id) && !(ops[n].LimitRate? && ops[n].id == id)
  }

  // A trip's reopening time, by the clock of the gateway that reported it; how long the store keeps
  // it, by the store's; and its cooldown.
  datatype Trap = Trap(reopen: int, until: int, cd: int) {
    predicate Fits(now: int) {
      0 < cd <= MAX_COOLDOWN_SECONDS && until <= now + OPEN_KEY_TTL_SECONDS * 1000
    }
  }

  predicate Trips(st: Store, op: Op, id: string) {
    op.Fail? && op.id == id && ServerFailure(st, id, op.isProbe, op.nowMs).1 > 0
  }

  // The next trip's cooldown is longer, but for the cap; the clock of a gateway whose report trips may
  // lag by that much. A report that does not trip writes no reopening time.
  predicate KeepsUp(reopen: int, cd: int, st: Store, op: Op, id: string) {
    Trips(st, op, id) ==> op.nowMs + NextCooldown(cd) * 1000 >= reopen
  }

  ghost predicate AllKeepUp(reopen: int, cd: int, cfg: Config, st: Store, ops: seq<Op>, id: string) {
    forall n :: 0 <= n < |ops| ==> KeepsUp(reopen, cd, Run(cfg, st, ops[..n]), ops[n], id)
  }

  // Until then the open key is there and does not reopen early, and the cooldown is there and no
  // shorter.
  ghost predicate Guarded(st: Store, id: string, t: Trap) {
    st.now < t.until ==>
      && OpenUntil(id) in st.nums && st.nums[OpenUntil(id)].value >= t.reopen
      && st.nums[OpenUntil(id)].expiresAt.Some? && st.nums[OpenUntil(id)].expiresAt.value >= t.until
      && Cooldown(id) in st.nums && st.nums[Cooldown(id)].value >= t.cd
      && st.nums[Cooldown(id)].expiresAt.Some? && st.nums[Cooldown(id)].expiresAt.value >= t.until
  }

  lemma {:induction false} GuardFrame(st: Store, st': Store, id: string, t: Trap)
    requires Guarded(st, id, t) && st'.now == st.now
    requires SameAt(st, st', OpenUntil(id)) && SameAt(st, st', Cooldown(id))
    ensures Guarded(st', id, t)
  {
  }

  lemma {:induction false} GuardTrip(st: Store, id: string, t: Trap, nowMs: int)
    requires Guarded(st, id, t) && t.Fits(st.now) && nowMs + NextCooldown(t.cd) * 1000 >= t.reopen
    ensures Guarded(Trip(st, id, nowMs).0, id, t)
  {
  }

  lemma {:induction false} GuardFail(st: Store, id: string, t: Trap, isProbe: bool, nowMs: int)
    requires Guarded(st, id, t) && t.Fits(st.now)
    requires ServerFailure(st, id, isProbe, nowMs).1 > 0 ==> nowMs + NextCooldown(t.cd) * 1000 >= t.reopen
    ensures Guarded(ServerFailure(st, id, isProbe, nowMs).0, id, t)
  {
    var st0 := Del(st, Probe(id));
    GuardFrame(st, st0, id, t);
    var st1 := if isProbe then st0 else Strike(st0, id);
    GuardFrame(st0, st1, id, t);
    TripCools(st1, id, nowMs);
    if ServerFailure(st, id, isProbe, nowMs).1 > 0 { GuardTrip(st1, id, t, nowMs); }
  }

  lemma {:induction false} TripCools(st: Store, id: string, nowMs: int)
    ensures Trip(st, id, nowMs).1 > 0
  {
  }

  lemma {:induction false} GuardStep(cfg: Config, st: Store, op: Op, id: string, t: Trap)
    requires Guarded(st, id, t) && t.Fits(st.now)
    requires op != Succeed(id) && !(op.LimitRate? && op.id == id) && KeepsUp(t.reopen, t.cd, st, op, id)
    ensures Guarded(Apply(cfg, st, op), id, t) && t.Fits(Apply(cfg, st, op).now)
  {
    if op.Pass? {
    } else if op.Pick? {
      PickFrame(cfg, st, op);
      GuardFrame(st, Apply(cfg, st, op), id, t);
    } else if !IsBreakerOp(op) {
      AdmissionFrame(cfg, st, op);
      GuardFrame(st, Apply(cfg, st, op), id, t);
    } else if op.id != id {
      BreakerOpFrame(cfg, st, op);
      GuardFrame(st, Apply(cfg, st, op), id, t);
    } else if op.Fail? {
      GuardFail(st, id, t, op.isProbe, op.nowMs);
    } else {
      GuardFrame(st, Apply(cfg, st, op), id, t);
    }
  }

  lemma {:induction false} GuardRun(cfg: Config, st: Store, ops: seq<Op>, id: string, t: Trap)
    requires Guarded(st, id, t) && t.Fits(st.now) && KeepsOpen(ops, id) && AllKeepUp(t.reopen, t.cd, cfg, st, ops, id)
    ensures Guarded(Run(cfg, st, ops), id, t) && t.Fits(Run(cfg, st, ops).now)
    decreases |ops|
  {
    if ops != [] {
      var n := |ops| - 1;
      var early, op := ops[..n], ops[n];
      KeepUpSooner(t, cfg, st, ops, id);
      assert KeepsUp(t.reopen, t.cd, Run(cfg, st, early), op, id);
      GuardRun(cfg, st, early, id, t);
      GuardStep(cfg, Run(cfg, st, early), op, id, t);
    }
  }

  lemma {:induction false} KeepUpSooner(t: Trap, cfg: Config, st: Store, ops: seq<Op>, id: string)
    requires ops != [] && AllKeepUp(t.reopen, t.cd, cfg, st, ops, id)
    ensures AllKeepUp(t.reopen, t.cd, cfg, st, ops[..|ops| - 1], id)
  {
    var early := ops[..|ops| - 1];
    forall m | 0 <= m < |early| ensures KeepsUp(t.reopen, t.cd, Run(cfg, st, early[..m]), early[m], id) {
      assert early[..m] == ops[..m] && KeepsUp(t.reopen, t.cd, Run(cfg, st, ops[..m]), ops[m], id);
    }
  }

  // A gateway asks about the key, by itself or in a pick, and is let through.
  predicate LetThrough(cfg: Config, st: Store, op: Op, id: string) {
    || (op.AskGate? && op.id == id && Acquire(st, id, op.nowMs).1 != Open)
    || (op.Pick? && Picked(cfg, st, op).Some? && Picked(cfg, st, op).value.0 == id)
  }

  // It is let through to hold the key's probe slot.
  predicate Claims(cfg: Config, st: Store, op: Op, id: string) {
    || (op.AskGate? && op.id == id && Acquire(st, id, op.nowMs).1 == ProbeSlot)
    || (op.Pick? && Picked(cfg, st, op) == Some((id, ProbeSlot)))
  }

  // What being let through says of the key.
  lemma {:induction false} LetThroughSays(cfg: Config, st: Store, op: Op, id: string)
    requires LetThrough(cfg, st, op, id)
    ensures OpenUntil(id) in st.nums ==>
      st.nums[OpenUntil(id)].value <= op.nowMs && Probe(id) !in st.nums && Claims(cfg, st, op, id)
  {
    if op.Pick? { WinnerIsFirst(st, Candidates(cfg, op.ids), WantOf(cfg, op)); PickedGate(cfg, st, op); }
  }

  lemma {:induction false} PickedGate(cfg: Config, st: Store, op: Op)
    requires op.Pick? && Picked(cfg, st, op).Some?
    ensures var (id, gate) := Picked(cfg, st, op).value;
            GateLets(st, id, op.nowMs) && gate == GateOf(st, id)
  {
    SelectFromFirst(st, Candidates(cfg, op.ids), 0, WantOf(cfg, op));
  }

  // After a trip reported at `nowMs` with cooldown cd, and until a success or a rate limit on the
  // key, no request is let through at a time before nowMs + cd, nor ever but as the probe, until the
  // open key's deadline - while no gateway whose report trips the key again lags by more than the next
  // cooldown adds.
  lemma {:induction false} OpenAfterTrip(cfg: Config, st: Store, id: string, isProbe: bool, nowMs: nat, ops: seq<Op>, op: Op)
    requires ServerFailure(st, id, isProbe, nowMs).1 > 0 && KeepsOpen(ops, id)
    requires var (tripped, cd) := ServerFailure(st, id, isProbe, nowMs); AllKeepUp(nowMs + cd * 1000, cd, cfg, tripped, ops, id)
    ensures var (tripped, cd) := ServerFailure(st, id, isProbe, nowMs);
            var later := Run(cfg, tripped, ops);
            later.now < st.now + OPEN_KEY_TTL_SECONDS * 1000 && LetThrough(cfg, later, op, id) ==>
              op.nowMs >= nowMs + cd * 1000 && Claims(cfg, later, op, id)
  {
    var (tripped, cd) := ServerFailure(st, id, isProbe, nowMs);
    var t := Trap(nowMs + cd * 1000, st.now + OPEN_KEY_TTL_SECONDS * 1000, cd);
    GuardRun(cfg, tripped, ops, id, t);
    var later := Run(cfg, tripped, ops);
    if LetThrough(cfg, later, op, id) { LetThroughSays(cfg, later, op, id); }
  }

  // That allowance is exact: after a trip whose cooldown is remembered, one more, reported by a probe
  // at another gateway's time, keeps every request out that long exactly when that gateway does not
  // lag by more. At the cap it may not lag at all.
  lemma {:induction false} LagAllowed(st: Store, id: string, t: Trap, nowMs: int)
    requires t.cd > 0 && Get(st, Cooldown(id)) == Some(t.cd)
    ensures (forall at: int :: at < t.reopen ==> Acquire(ServerFailure(st, id, true, nowMs).0, id, at).1 == Open)
      <==> nowMs + NextCooldown(t.cd) * 1000 >= t.reopen
  {
    var after := ServerFailure(st, id, true, nowMs).0;
    var reopens := nowMs + NextCooldown(t.cd) * 1000;
    assert Get(after, OpenUntil(id)) == Some(reopens) && Probe(id) !in after.nums;
    assert Acquire(after, id, reopens).1 == ProbeSlot;
  }

  // ── One probe at a time ──────────────────────────────────────────────────────────────────────

  // A report on this key: what releases its probe slot early.
  predicate Reports(op: Op, id: string) {
    (op.Fail? || op.Succeed? || op.LimitRate? || op.AuthRelease?) && op.id == id
  }

  ghost predicate NoReport(ops: seq<Op>, id: string) {
    forall n :: 0 <= n < |ops| ==> !Reports(ops[n], id)
  }

  ghost predicate SlotHeld(st: Store, id: string, until: int) {
    st.now < until ==>
      && Probe(id) in st.nums && st.nums[Probe(id)].expiresAt.Some? && st.nums[Probe(id)].expiresAt.value >= until
  }

  // While the slot is held, a pick cannot take it; nor can any step but a report release it.
  lemma {:induction false} SlotStep(cfg: Config, st: Store, op: Op, id: string, until: int)
    requires SlotHeld(st, id, until) && !Reports(op, id) && until <= st.now + PROBE_TTL_SECONDS * 1000
    ensures SlotHeld(Apply(cfg, st, op), id, until) && until <= Apply(cfg, st, op).now + PROBE_TTL_SECONDS * 1000
  {
    if op.Pass? {
    } else if op.Pick? {
      PickFrame(cfg, st, op);
      if Picked(cfg, st, op).Some? && Picked(cfg, st, op).value.0 == id { PickHolds(cfg, st, op, id); }
      else { assert SameAt(st, Apply(cfg, st, op), Probe(id)); }
    } else if !IsBreakerOp(op) {
      AdmissionFrame(cfg, st, op);
      assert SameAt(st, Apply(cfg, st, op), Probe(id));
    } else if op.id != id {
      BreakerOpFrame(cfg, st, op);
      assert SameAt(st, Apply(cfg, st, op), Probe(id));
    }
  }

  // A pick that goes to the key leaves its slot as it was, or claims it for its whole time.
  lemma {:induction false} PickHolds(cfg: Config, st: Store, op: Op, id: string)
    requires op.Pick? && Picked(cfg, st, op).Some? && Picked(cfg, st, op).value.0 == id
    ensures if OpenUntil(id) in st.nums then SlotHeld(Apply(cfg, st, op), id, st.now + PROBE_TTL_SECONDS * 1000)
            else SameAt(st, Apply(cfg, st, op), Probe(id))
  {
    var cs, w := Candidates(cfg, op.ids), WantOf(cfg, op);
    SelectFromFirst(st, cs, 0, w);
    ReserveProbe(st, cs[Select(st, cs, w).1.value.index], w);
  }

  lemma {:induction false} ReserveProbe(st: Store, c: Candidate, w: Want)
    ensures SameAt(if OpenUntil(c.id) in st.nums then SetEx(st, Probe(c.id), 1, PROBE_TTL_SECONDS) else st,
                   Reserve(st, c, w), Probe(c.id)) && Reserve(st, c, w).now == st.now
  {
  }

  lemma {:induction false} SlotRun(cfg: Config, st: Store, ops: seq<Op>, id: string, until: int)
    requires SlotHeld(st, id, until) && NoReport(ops, id) && until <= st.now + PROBE_TTL_SECONDS * 1000
    ensures SlotHeld(Run(cfg, st, ops), id, until) && until <= Run(cfg, st, ops).now + PROBE_TTL_SECONDS * 1000
    decreases |ops|
  {
    if ops != [] {
      var n := |ops| - 1;
      SlotRun(cfg, st, ops[..n], id, until);
      SlotStep(cfg, Run(cfg, st, ops[..n]), ops[n], id, until);
    }
  }

  lemma {:induction false} ClaimHolds(cfg: Config, st: Store, op: Op, id: string)
    requires Claims(cfg, st, op, id)
    ensures OpenUntil(id) in st.nums && Probe(id) !in st.nums
    ensures SlotHeld(Apply(cfg, st, op), id, st.now + PROBE_TTL_SECONDS * 1000) && Apply(cfg, st, op).now == st.now
  {
    if op.Pick? {
      PickedGate(cfg, st, op);
      PickHolds(cfg, st, op, id);
      PickFrame(cfg, st, op);
    }
  }

  // Two claims of a key's probe slot, by whoever and however asked, with no report on the key between
  // them are at least PROBE_TTL_SECONDS apart.
  lemma {:induction false} ProbesApart(cfg: Config, st: Store, id: string, first: Op, ops: seq<Op>, second: Op)
    requires Claims(cfg, st, first, id) && NoReport(ops, id)
    requires Claims(cfg, Run(cfg, Apply(cfg, st, first), ops), second, id)
    ensures Run(cfg, Apply(cfg, st, first), ops).now >= st.now + PROBE_TTL_SECONDS * 1000
  {
    ClaimHolds(cfg, st, first, id);
    var st1 := Apply(cfg, st, first);
    SlotRun(cfg, st1, ops, id, st.now + PROBE_TTL_SECONDS * 1000);
    ClaimHolds(cfg, Run(cfg, st1, ops), second, id);
  }

  // ── Escalation ───────────────────────────────────────────────────────────────────────────────

  function Pow2(n: nat): nat { if n == 0 then 1 else 2 * Pow2(n - 1) }

  // The cooldown of the k-th trip in a row.
  function Curve(k: nat): int
    requires k >= 1
  {
    var raw := BASE_COOLDOWN_SECONDS * Pow2(k - 1);
    if MAX_COOLDOWN_SECONDS <= raw then MAX_COOLDOWN_SECONDS else raw
  }

  lemma {:induction false} CurveIsNext(k: nat)
    requires k >= 1
    ensures 0 < Curve(k) <= MAX_COOLDOWN_SECONDS
    ensures NextCooldown(Curve(k)) == Curve(k + 1)
    ensures NextCooldown(0) == Curve(1)
  {
    PowPositive(k - 1);
    assert Pow2(k) == 2 * Pow2(k - 1);
  }

  lemma {:induction false} PowPositive(n: nat)
    ensures Pow2(n) >= 1
  {
    if n > 0 { PowPositive(n - 1); }
  }

  // What one key's breaker should remember: trips since the last success, each within the cooldown
  // memory of the one before; and failures since the strike window firstAt.
  datatype Memory = Memory(trips: nat, lastTrip: int, failures: nat, firstAt: int)

  predicate Remembers(m: Memory, now: int) {
    m.trips > 0 && now < m.lastTrip + OPEN_KEY_TTL_SECONDS * 1000
  }

  predicate Counting(m: Memory, now: int) {
    m.failures > 0 && now < m.firstAt + STRIKE_WINDOW_SECONDS * 1000
  }

  function Tripped(m: Memory, now: int): Memory {
    Memory(if Remembers(m, now) then m.trips + 1 else 1, now, 0, now)
  }

  // A probe failure trips; so does the third failure of one window.
  function Failed(m: Memory, now: int, isProbe: bool): (Memory, bool) {
    if isProbe then (Tripped(m, now), true)
    else if !Counting(m, now) then (m.(failures := 1, firstAt := now), false)
    else if m.failures + 1 < STRIKE_THRESHOLD then (m.(failures := m.failures + 1), false)
    else (Tripped(m, now), true)
  }

  function Recall(m: Memory, id: string, op: Op, now: int): Memory {
    if op == Succeed(id) then Memory(0, now, 0, now)
    else if op.Fail? && op.id == id then Failed(m, now, op.isProbe).0
    else m
  }

  function RecallAll(cfg: Config, m: Memory, id: string, st: Store, ops: seq<Op>): Memory {
    if ops == [] then m
    else
      var n := |ops| - 1;
      Recall(RecallAll(cfg, m, id, st, ops[..n]), id, ops[n], Run(cfg, st, ops[..n]).now)
  }

  // The store holds exactly what the memory says.
  ghost predicate Stores(st: Store, id: string, m: Memory) {
    && m.failures < STRIKE_THRESHOLD
    && (if Remembers(m, st.now)
        then Cooldown(id) in st.nums
             && st.nums[Cooldown(id)] == Cell(Curve(m.trips), Some(m.lastTrip + OPEN_KEY_TTL_SECONDS * 1000))
        else Cooldown(id) !in st.nums)
    && (if Counting(m, st.now)
        then Strikes(id) in st.nums
             && st.nums[Strikes(id)] == Cell(m.failures, Some(m.firstAt + STRIKE_WINDOW_SECONDS * 1000))
        else Strikes(id) !in st.nums)
  }

  lemma {:induction false} TripStores(st: Store, id: string, m: Memory, nowMs: int)
    requires if Remembers(m, st.now)
             then Cooldown(id) in st.nums && st.nums[Cooldown(id)].value == Curve(m.trips)
             else Cooldown(id) !in st.nums
    ensures Trip(st, id, nowMs).1 == Curve(Tripped(m, st.now).trips)
    ensures Stores(Trip(st, id, nowMs).0, id, Tripped(m, st.now))
  {
    if m.trips >= 1 { CurveIsNext(m.trips); } else { CurveIsNext(1); }
  }

  // A strike that does not trip.
  lemma {:induction false} StrikeStores(st: Store, id: string, m: Memory)
    requires Stores(st, id, m)
    ensures Get(Strike(st, id), Strikes(id)) == Some(if Counting(m, st.now) then m.failures + 1 else 1)
    ensures !Failed(m, st.now, false).1 ==> Stores(Strike(st, id), id, Failed(m, st.now, false).0)
  {
  }

  lemma {:induction false} FailStores(st: Store, id: string, m: Memory, isProbe: bool, nowMs: int)
    requires Stores(st, id, m)
    ensures var (after, cd) := ServerFailure(st, id, isProbe, nowMs);
            var (m', trips) := Failed(m, st.now, isProbe);
            Stores(after, id, m') && cd == if trips then Curve(m'.trips) else 0
  {
    var st0 := Del(st, Probe(id));
    StoresFrame(st, st0, id, m);
    if isProbe {
      TripStores(st0, id, m, nowMs);
    } else {
      StrikeStores(st0, id, m);
      if Failed(m, st.now, false).1 { TripStores(Strike(st0, id), id, m, nowMs); }
    }
  }

  lemma {:induction false} StoresFrame(st: Store, st': Store, id: string, m: Memory)
    requires Stores(st, id, m) && st'.now == st.now
    requires SameAt(st, st', Cooldown(id)) && SameAt(st, st', Strikes(id))
    ensures Stores(st', id, m)
  {
  }

  lemma {:induction false} TickStores(st: Store, id: string, m: Memory, ms: nat)
    requires Stores(st, id, m)
    ensures Stores(Tick(st, ms), id, m)
  {
  }

  // Any other step leaves the key's strikes and cooldown alone, or clears both.
  lemma {:induction false} OtherStores(cfg: Config, st: Store, id: string, m: Memory, op: Op)
    requires Stores(st, id, m) && !(op.Fail? && op.id == id)
    ensures Stores(Apply(cfg, st, op), id, Recall(m, id, op, st.now))
  {
    if op.Pass? {
      TickStores(st, id, m, op.ms);
    } else if op == Succeed(id) {
    } else {
      if op.Pick? { PickFrame(cfg, st, op); }
      else if !IsBreakerOp(op) { AdmissionFrame(cfg, st, op); }
      else if op.id != id { BreakerOpFrame(cfg, st, op); }
      assert SameAt(st, Apply(cfg, st, op), Cooldown(id)) && SameAt(st, Apply(cfg, st, op), Strikes(id));
      StoresFrame(st, Apply(cfg, st, op), id, m);
    }
  }

  // Over every run the breaker is its memory: fewer than three strikes are ever stored, it trips
  // exactly on a probe failure or the third failure of a window, and the k-th trip in a row cools
  // for min(600, 10 * 2^(k-1)) seconds.
  lemma {:induction false} BreakerIsItsMemory(cfg: Config, st: Store, id: string, m: Memory, ops: seq<Op>)
    requires Stores(st, id, m)
    ensures Stores(Run(cfg, st, ops), id, RecallAll(cfg, m, id, st, ops))
    decreases |ops|
  {
    if ops != [] {
      var n := |ops| - 1;
      var before, mem := Run(cfg, st, ops[..n]), RecallAll(cfg, m, id, st, ops[..n]);
      BreakerIsItsMemory(cfg, st, id, m, ops[..n]);
      if ops[n].Fail? && ops[n].id == id {
        FailStores(before, id, mem, ops[n].isProbe, ops[n].nowMs);
      } else {
        OtherStores(cfg, before, id, mem, ops[n]);
      }
    }
  }

  // What the next failure answers, after any run from a store with nothing about the key in it.
  lemma {:induction false} NextFailureAnswers(cfg: Config, st: Store, id: string, ops: seq<Op>, isProbe: bool, nowMs: int)
    requires Cooldown(id) !in st.nums && Strikes(id) !in st.nums
    ensures var m := RecallAll(cfg, Memory(0, st.now, 0, st.now), id, st, ops);
            var now := Run(cfg, st, ops).now;
            var (m', trips) := Failed(m, now, isProbe);
            && ServerFailure(Run(cfg, st, ops), id, isProbe, nowMs).1 == (if trips then Curve(m'.trips) else 0)
            && (trips <==> isProbe || (Counting(m, now) && m.failures == STRIKE_THRESHOLD - 1))
  {
    var m0 := Memory(0, st.now, 0, st.now);
    BreakerIsItsMemory(cfg, st, id, m0, ops);
    FailStores(Run(cfg, st, ops), id, RecallAll(cfg, m0, id, st, ops), isProbe, nowMs);
  }
}
