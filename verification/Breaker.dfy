// The circuit breaker of src/lib/breaker.ts: per-key resilience state in the shared store.
module Breaker {
  import opened Options
  import opened KvStore

  const STRIKE_THRESHOLD := 3
  const STRIKE_WINDOW_SECONDS := 300
  const BASE_COOLDOWN_SECONDS := 10
  const MAX_COOLDOWN_SECONDS := 600
  const PROBE_TTL_SECONDS := 30
  const AUTH_BAN_THRESHOLD := 2
  const AUTH_WINDOW_SECONDS := 300
  const OPEN_KEY_TTL_SECONDS := MAX_COOLDOWN_SECONDS * 4

  datatype Gate = Closed | Open | ProbeSlot

  function NextCooldown(current: int): int {
    var next := if current <= 0 then BASE_COOLDOWN_SECONDS else current * 2;
    if MAX_COOLDOWN_SECONDS <= next then MAX_COOLDOWN_SECONDS else next
  }

  // ── The scripts, as steps on the store. nowMs is the acting gateway's own clock ──────────────

  // ACQUIRE_LUA.
  function Acquire(st: Store, id: string, nowMs: int): (Store, Gate) {
    var open := Get(st, OpenUntil(id));
    if open.None? then (st, Closed)
    else if nowMs < open.value then (st, Open)
    else if Probe(id) in st.nums then (st, Open)
    else (SetEx(st, Probe(id), 1, PROBE_TTL_SECONDS), ProbeSlot)
  }

  function Trip(st: Store, id: string, nowMs: int): (Store, int) {
    var cd := NextCooldown(Get(st, Cooldown(id)).GetOr(0));
    var st1 := SetEx(st, Cooldown(id), cd, OPEN_KEY_TTL_SECONDS);
    var st2 := SetEx(st1, OpenUntil(id), nowMs + cd * 1000, OPEN_KEY_TTL_SECONDS);
    (Del(st2, Strikes(id)), cd)
  }

  // One more strike; its window opens with the first.
  function Strike(st: Store, id: string): Store {
    var st1 := IncrBy(st, Strikes(id), 1);
    if Get(st1, Strikes(id)) == Some(1) then Expire(st1, Strikes(id), STRIKE_WINDOW_SECONDS) else st1
  }

  // SERVER_FAILURE_LUA: the cooldown when the breaker (re)opened, or 0.
  function ServerFailure(st: Store, id: string, isProbe: bool, nowMs: int): (Store, int) {
    var st0 := Del(st, Probe(id));
    if isProbe then Trip(st0, id, nowMs)
    else
      var st1 := Strike(st0, id);
      if Get(st1, Strikes(id)).GetOr(0) >= STRIKE_THRESHOLD then Trip(st1, id, nowMs) else (st1, 0)
  }

  function Success(st: Store, id: string): Store {
    Del(Del(Del(Del(st, Strikes(id)), Cooldown(id)), OpenUntil(id)), Probe(id))
  }

  function RateLimit(st: Store, id: string, seconds: nat, nowMs: int): Store {
    Del(SetEx(st, OpenUntil(id), nowMs + seconds * 1000, OPEN_KEY_TTL_SECONDS), Probe(id))
  }

  // ── The in-process twins ─────────────────────────────────────────────────────────────────────

  method AcquireScript(kv: Kv, id: string, nowMs: int) returns (gate: Gate)
    modifies kv`nums
    ensures (kv.State(), gate) == Acquire(old(kv.State()), id, nowMs)
  {
    var open := kv.GetNum(OpenUntil(id));
    if open.None? { return Closed; }
    if nowMs < open.value { return Open; }
    var claimed := kv.GetNum(Probe(id));
    if claimed.Some? { return Open; }
    kv.SetNumEx(Probe(id), 1, PROBE_TTL_SECONDS);
    return ProbeSlot;
  }

  method TripScript(kv: Kv, id: string, nowMs: int) returns (cd: int)
    modifies kv`nums
    ensures (kv.State(), cd) == Trip(old(kv.State()), id, nowMs)
  {
    var current := kv.GetNum(Cooldown(id));
    cd := if current.GetOr(0) <= 0 then BASE_COOLDOWN_SECONDS else current.GetOr(0) * 2;
    if cd > MAX_COOLDOWN_SECONDS { cd := MAX_COOLDOWN_SECONDS; }
    kv.SetNumEx(Cooldown(id), cd, OPEN_KEY_TTL_SECONDS);
    kv.SetNumEx(OpenUntil(id), nowMs + cd * 1000, OPEN_KEY_TTL_SECONDS);
    kv.DelNum(Strikes(id));
  }

  method ServerFailureScript(kv: Kv, id: string, isProbe: bool, nowMs: int) returns (cd: int)
    modifies kv`nums
    ensures (kv.State(), cd) == ServerFailure(old(kv.State()), id, isProbe, nowMs)
  {
    kv.DelNum(Probe(id));
    if isProbe {
      cd := TripScript(kv, id, nowMs);
      return;
    }
    var strikes := kv.IncrNum(Strikes(id), 1);
    if strikes == 1 { kv.ExpireNum(Strikes(id), STRIKE_WINDOW_SECONDS); }
    if strikes >= STRIKE_THRESHOLD {
      cd := TripScript(kv, id, nowMs);
    } else {
      cd := 0;
    }
  }

  method OnSuccess(kv: Kv, id: string)
    modifies kv`nums
    ensures kv.State() == Success(old(kv.State()), id)
  {
    kv.DelNum(Strikes(id));
    kv.DelNum(Cooldown(id));
    kv.DelNum(OpenUntil(id));
    kv.DelNum(Probe(id));
  }

  method OnRateLimit(kv: Kv, id: string, seconds: nat, nowMs: int)
    modifies kv`nums
    ensures kv.State() == RateLimit(old(kv.State()), id, seconds, nowMs)
  {
    kv.SetNumEx(OpenUntil(id), nowMs + seconds * 1000, OPEN_KEY_TTL_SECONDS);
    kv.DelNum(Probe(id));
  }

  // Three separate commands: other gateways' steps may come between them.
  method OnAuthFailure(kv: Kv, id: string) returns (banned: bool, refusals: int)
    modifies kv`nums
    ensures refusals == Get(old(kv.State()), Auth(id)).GetOr(0) + 1 && banned == (refusals >= AUTH_BAN_THRESHOLD)
    ensures Get(kv.State(), Auth(id)) == Some(refusals) && Probe(id) !in kv.State().nums
    ensures refusals == 1 ==>
              kv.State().nums[Auth(id)].expiresAt == Some(kv.State().now + AUTH_WINDOW_SECONDS * 1000)
    ensures refusals != 1 && Auth(id) in old(kv.State()).nums ==>
              kv.State().nums[Auth(id)].expiresAt == old(kv.State()).nums[Auth(id)].expiresAt
    ensures forall k | k != Auth(id) && k != Probe(id) :: k in kv.State().nums <==> k in old(kv.State()).nums
    ensures forall k | k in old(kv.State()).nums && k != Auth(id) && k != Probe(id) ::
              kv.State().nums[k] == old(kv.State()).nums[k]
  {
    refusals := kv.IncrNum(Auth(id), 1);
    if refusals == 1 { kv.ExpireNum(Auth(id), AUTH_WINDOW_SECONDS); }
    kv.DelNum(Probe(id));
    banned := refusals >= AUTH_BAN_THRESHOLD;
  }
}
