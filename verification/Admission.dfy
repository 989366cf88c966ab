// Admission against per-key request and token budgets (src/lib/admission.ts, src/lib/rateWindow.ts).
// Each script is one atomic step on the shared store; any number of gateways interleave them.
module Admission {
  import opened KvStore

  const RPM_TPM_WINDOW_SECONDS := 60
  const WINDOW := RPM_TPM_WINDOW_SECONDS
  const WINDOW_MS := 60_000
  const MAX_USAGE_TOKENS := 10_000_000.0
  const MAX_SAFE_INTEGER := 9_007_199_254_740_991

  // ── The rate window ──────────────────────────────────────────────────────────────────────────

  function WindowIndex(nowMs: nat, window: nat): int
    requires window > 0
  {
    nowMs / (window * 1000)
  }

  // How much of the previous window is still in range.
  function Weight(nowMs: nat, window: nat): real
    requires window > 0
  {
    1.0 - (nowMs % (window * 1000)) as real / (window * 1000) as real
  }

  function Current(limit: Limit, id: string, nowMs: nat, window: nat): Key
    requires window > 0
  {
    Window(limit, id, WindowIndex(nowMs, window))
  }

  function Previous(limit: Limit, id: string, nowMs: nat, window: nat): Key
    requires window > 0
  {
    Window(limit, id, WindowIndex(nowMs, window) - 1)
  }

  function RateCount(st: Store, limit: Limit, id: string, nowMs: nat, window: nat): real
    requires window > 0
  {
    Get(st, Current(limit, id, nowMs, window)).GetOr(0) as real
    + Get(st, Previous(limit, id, nowMs, window)).GetOr(0) as real * Weight(nowMs, window)
  }

  // ── The scripts, as steps on the store ───────────────────────────────────────────────────────

  datatype Budget = Budget(rpm: int, tpm: int)

  function HasRoom(st: Store, id: string, b: Budget, reserve: int, nowMs: nat, window: nat): bool
    requires window > 0
  {
    && RateCount(st, Rpm, id, nowMs, window) + 1.0 <= b.rpm as real
    && RateCount(st, Tpm, id, nowMs, window) + reserve as real <= b.tpm as real
  }

  function Count(st: Store, k: Key, amount: int, window: nat): Store
    requires window > 0
  {
    Expire(IncrBy(st, k, amount), k, window * 2)
  }

  // ADMIT_LUA.
  function Admit(st: Store, id: string, b: Budget, reserve: int, nowMs: nat, window: nat): (Store, bool)
    requires window > 0
  {
    if !HasRoom(st, id, b, reserve, nowMs, window) then (st, false)
    else
      var st1 := Count(st, Current(Rpm, id, nowMs, window), 1, window);
      (Count(st1, Current(Tpm, id, nowMs, window), reserve, window), true)
  }

  function Min(a: int, b: int): int { if a <= b then a else b }

  // RECONCILE_LUA: give tokens back, never below zero.
  function Refund(st: Store, id: string, amount: int, nowMs: nat, window: nat): Store
    requires window > 0
  {
    var k := Current(Tpm, id, nowMs, window);
    var giveBack := Min(amount, Get(st, k).GetOr(0));
    if giveBack <= 0 then st else IncrBy(st, k, -giveBack)
  }

  // CHARGE_LUA: add tokens used beyond a reservation.
  function Charge(st: Store, id: string, extra: int, nowMs: nat, window: nat): Store
    requires window > 0
  {
    var k := Current(Tpm, id, nowMs, window);
    if extra <= 0 then st
    else
      var st1 := IncrBy(st, k, extra);
      if st1.nums[k].expiresAt.None? then Expire(st1, k, window * 2) else st1
  }

  // ADMIT_USER_LUA.
  function AdmitUser(st: Store, id: string, user: string, maxUsers: int, seconds: nat): (Store, bool) {
    var k := Users(id);
    if user in MembersOf(st, k) then (st, true)
    else if |MembersOf(st, k)| >= maxUsers then (st, false)
    else (ExpireSet(SetAdd(st, k, user), k, seconds), true)
  }

  // A usage figure as a provider reports it: a number, or something that is not one.
  datatype Report = Figure(tokens: real) | NotANumber
  datatype Mode = RefundOnly | TwoWay

  function Ceil(x: real): int { -((-x).Floor) }

  predicate Usable(actual: Report) {
    actual.Figure? && 0.0 <= actual.tokens <= MAX_USAGE_TOKENS
  }

  // reconcileTpm.
  function Reconcile(st: Store, mode: Mode, id: string, reserved: real, actual: Report, nowMs: nat): Store {
    if !Usable(actual) then st
    else
      var giveBack := (reserved - actual.tokens).Floor;
      if giveBack > 0 then Refund(st, id, giveBack, nowMs, RPM_TPM_WINDOW_SECONDS)
      else if mode != TwoWay then st
      else
        var excess := Ceil(actual.tokens - reserved);
        if excess <= 0 || excess > MAX_SAFE_INTEGER then st else Charge(st, id, excess, nowMs, RPM_TPM_WINDOW_SECONDS)
  }

  function Max(a: int, b: int): int { if a >= b then a else b }

  // What admitKey books for a reservation.
  function Booked(reserve: real): int { Max(1, Ceil(reserve)) }

  // ── The in-process twins, command by command ─────────────────────────────────────────────────

  method RateCountScript(kv: Kv, limit: Limit, id: string, nowMs: nat, window: nat) returns (count: real)
    requires window > 0
    modifies kv`nums
    ensures kv.State() == old(kv.State()) && count == RateCount(kv.State(), limit, id, nowMs, window)
  {
    var cur := kv.GetNum(Current(limit, id, nowMs, window));
    var prev := kv.GetNum(Previous(limit, id, nowMs, window));
    count := cur.GetOr(0) as real + prev.GetOr(0) as real * Weight(nowMs, window);
  }

  method AdmitScript(kv: Kv, id: string, b: Budget, reserve: int, nowMs: nat, window: nat) returns (admitted: bool)
    requires window > 0
    modifies kv`nums
    ensures (kv.State(), admitted) == Admit(old(kv.State()), id, b, reserve, nowMs, window)
  {
    var rpm := RateCountScript(kv, Rpm, id, nowMs, window);
    if rpm + 1.0 > b.rpm as real { return false; }
    var tpm := RateCountScript(kv, Tpm, id, nowMs, window);
    if tpm + reserve as real > b.tpm as real { return false; }
    var rcur, tcur := Current(Rpm, id, nowMs, window), Current(Tpm, id, nowMs, window);
    var _ := kv.IncrNum(rcur, 1);
    kv.ExpireNum(rcur, window * 2);
    var _ := kv.IncrNum(tcur, reserve);
    kv.ExpireNum(tcur, window * 2);
    return true;
  }

  method RefundScript(kv: Kv, id: string, amount: int, nowMs: nat, window: nat) returns (held: int)
    requires window > 0
    modifies kv`nums
    ensures kv.State() == Refund(old(kv.State()), id, amount, nowMs, window)
    ensures held == Get(kv.State(), Current(Tpm, id, nowMs, window)).GetOr(0)
  {
    var cur := Current(Tpm, id, nowMs, window);
    var v := kv.GetNum(cur);
    held := v.GetOr(0);
    var giveBack := amount;
    if giveBack > held { giveBack := held; }
    if giveBack <= 0 { return; }
    held := kv.IncrNum(cur, -giveBack);
  }

  method ChargeScript(kv: Kv, id: string, extra: int, nowMs: nat, window: nat) returns (total: int)
    requires window > 0
    modifies kv`nums
    ensures kv.State() == Charge(old(kv.State()), id, extra, nowMs, window)
    ensures total == Get(kv.State(), Current(Tpm, id, nowMs, window)).GetOr(0)
  {
    var cur := Current(Tpm, id, nowMs, window);
    if extra <= 0 {
      var v := kv.GetNum(cur);
      return v.GetOr(0);
    }
    total := kv.IncrNum(cur, extra);
    var bare := kv.HasNoDeadline(cur);
    if bare { kv.ExpireNum(cur, window * 2); }
  }

  method AdmitUserScript(kv: Kv, id: string, user: string, maxUsers: int, seconds: nat) returns (admitted: bool)
    requires seconds > 0
    modifies kv`sets
    ensures (kv.State(), admitted) == AdmitUser(old(kv.State()), id, user, maxUsers, seconds)
  {
    var k := Users(id);
    var members := kv.GetMembers(k);
    if user in members { return true; }
    if |members| >= maxUsers { return false; }
    kv.AddMember(k, user);
    kv.ExpireMembers(k, seconds);
    return true;
  }

  method ReconcileTpm(kv: Kv, mode: Mode, id: string, reserved: real, actual: Report, nowMs: nat)
    modifies kv`nums
    ensures kv.State() == Reconcile(old(kv.State()), mode, id, reserved, actual, nowMs)
  {
    if actual.NotANumber? || actual.tokens < 0.0 || actual.tokens > MAX_USAGE_TOKENS { return; }
    var giveBack := (reserved - actual.tokens).Floor;
    if giveBack > 0 {
      var _ := RefundScript(kv, id, giveBack, nowMs, RPM_TPM_WINDOW_SECONDS);
      return;
    }
    if mode != TwoWay { return; }
    var excess := Ceil(actual.tokens - reserved);
    if excess <= 0 || excess > MAX_SAFE_INTEGER { return; }
    var _ := ChargeScript(kv, id, excess, nowMs, RPM_TPM_WINDOW_SECONDS);
  }
}
