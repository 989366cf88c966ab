// Every gateway's steps on the one store, in any order: admission, the breaker, and the request path
// that uses both.
module Gateways {
  import opened Options
  import opened KvStore
  import opened Admission
  import opened Breaker
  import opened SelectKey

  // The limits of each key, as every gateway has them, and how reconciling is set.
  datatype Config = Config(budget: string -> Budget, maxUsers: string -> int, userSeconds: nat, mode: Mode)

  // One atomic step. nowMs is the acting gateway's own clock. An auth failure is three steps: count,
  // open the window, release the probe.
  datatype Op =
    | Pass(ms: nat)
    | AskRoom(id: string, reserve: nat, nowMs: nat)
    | Settle(id: string, reserved: real, actual: Report, nowMs: nat)
    | AskUser(id: string, user: string)
    | Pick(ids: seq<string>, reserve: nat, user: string, nowMs: nat)
    | AskGate(id: string, nowMs: nat)
    | Fail(id: string, isProbe: bool, nowMs: nat)
    | Succeed(id: string)
    | LimitRate(id: string, seconds: nat, nowMs: nat)
    | AuthCount(id: string) | AuthWindow(id: string) | AuthRelease(id: string)

  predicate IsBreakerOp(op: Op) { !op.Pass? && !op.AskRoom? && !op.Settle? && !op.AskUser? && !op.Pick? }

  // Steps that may write a window's counters.
  predicate Counts(op: Op) { op.AskRoom? || op.Settle? || op.Pick? }

  function Cap(cfg: Config, id: string): int { Max(1, cfg.maxUsers(id)) }

  function Candidates(cfg: Config, ids: seq<string>): seq<Candidate> {
    seq(|ids|, i requires 0 <= i < |ids| => Candidate(ids[i], cfg.budget(ids[i]), Cap(cfg, ids[i])))
  }

  function WantOf(cfg: Config, op: Op): Want
    requires op.Pick?
  {
    Want(Max(1, op.reserve), op.user, op.nowMs, cfg.userSeconds)
  }

  function Apply(cfg: Config, st: Store, op: Op): Store {
    match op
    case Pass(ms) => Tick(st, ms)
    case AskRoom(id, reserve, nowMs) => Admit(st, id, cfg.budget(id), Max(1, reserve), nowMs, WINDOW).0
    case Settle(id, reserved, actual, nowMs) => Reconcile(st, cfg.mode, id, reserved, actual, nowMs)
    case AskUser(id, user) => if user == "" then st else AdmitUser(st, id, user, Cap(cfg, id), cfg.userSeconds).0
    case Pick(ids, _, _, _) => Select(st, Candidates(cfg, ids), WantOf(cfg, op)).0
    case AskGate(id, nowMs) => Acquire(st, id, nowMs).0
    case Fail(id, isProbe, nowMs) => ServerFailure(st, id, isProbe, nowMs).0
    case Succeed(id) => Success(st, id)
    case LimitRate(id, seconds, nowMs) => RateLimit(st, id, seconds, nowMs)
    case AuthCount(id) => IncrBy(st, Auth(id), 1)
    case AuthWindow(id) => Expire(st, Auth(id), AUTH_WINDOW_SECONDS)
    case AuthRelease(id) => Del(st, Probe(id))
  }

  function Run(cfg: Config, st: Store, ops: seq<Op>): Store {
    if ops == [] then st else Apply(cfg, Run(cfg, st, ops[..|ops| - 1]), ops[|ops| - 1])
  }

  // A step as a gateway takes it, on the in-process store: each is the script it stands for.
  method Perform(kv: Kv, cfg: Config, op: Op)
    requires cfg.userSeconds > 0
    modifies kv
    ensures kv.State() == Apply(cfg, old(kv.State()), op)
  {
    match op
    case Pass(ms) => kv.Wait(ms);
    case AskRoom(id, reserve, nowMs) => var _ := AdmitScript(kv, id, cfg.budget(id), Max(1, reserve), nowMs, WINDOW);
    case Settle(id, reserved, actual, nowMs) => ReconcileTpm(kv, cfg.mode, id, reserved, actual, nowMs);
    case AskUser(id, user) =>
      if user != "" { var _ := AdmitUserScript(kv, id, user, Cap(cfg, id), cfg.userSeconds); }
    case Pick(ids, _, _, _) => var _ := SelectScript(kv, Candidates(cfg, ids), WantOf(cfg, op));
    case AskGate(id, nowMs) => var _ := AcquireScript(kv, id, nowMs);
    case Fail(id, isProbe, nowMs) => var _ := ServerFailureScript(kv, id, isProbe, nowMs);
    case Succeed(id) => OnSuccess(kv, id);
    case LimitRate(id, seconds, nowMs) => OnRateLimit(kv, id, seconds, nowMs);
    case AuthCount(id) => var _ := kv.IncrNum(Auth(id), 1);
    case AuthWindow(id) => kv.ExpireNum(Auth(id), AUTH_WINDOW_SECONDS);
    case AuthRelease(id) => kv.DelNum(Probe(id));
  }

  // Which key a pick goes to, and through which gate.
  function Picked(cfg: Config, st: Store, op: Op): Option<(string, Gate)>
    requires op.Pick?
  {
    var won := Select(st, Candidates(cfg, op.ids), WantOf(cfg, op)).1;
    if won.Some? then Some((op.ids[won.value.index], won.value.gate)) else None
  }

  // ── What a step leaves alone ─────────────────────────────────────────────────────────────────

  predicate IsAdmissionKey(k: Key) { k.Window? || k.Users? }

  // A step of the breaker writes only that key's own breaker entries.
  ghost predicate BreakerWrites(st: Store, st': Store, id: string) {
    st'.now == st.now && forall k: Key :: IsAdmissionKey(k) || k.id != id ==> SameAt(st, st', k)
  }

  lemma {:induction false} BreakerOpFrame(cfg: Config, st: Store, op: Op)
    requires IsBreakerOp(op)
    ensures BreakerWrites(st, Apply(cfg, st, op), op.id)
  {
    if op.Fail? { FailureFrame(st, op.id, op.isProbe, op.nowMs); }
  }

  lemma {:induction false} FailureFrame(st: Store, id: string, isProbe: bool, nowMs: int)
    ensures BreakerWrites(st, ServerFailure(st, id, isProbe, nowMs).0, id)
  {
    var st0 := Del(st, Probe(id));
    TripFrame(st0, id, nowMs);
    StrikeFrame(st0, id);
    TripFrame(Strike(st0, id), id, nowMs);
    forall k: Key | IsAdmissionKey(k) || k.id != id ensures SameAt(st, ServerFailure(st, id, isProbe, nowMs).0, k) {
      assert SameAt(st, st0, k) && SameAt(st0, Strike(st0, id), k);
      assert SameAt(Strike(st0, id), Trip(Strike(st0, id), id, nowMs).0, k) && SameAt(st0, Trip(st0, id, nowMs).0, k);
    }
  }

  lemma {:induction false} TripFrame(st: Store, id: string, nowMs: int)
    ensures BreakerWrites(st, Trip(st, id, nowMs).0, id)
  {
  }

  lemma {:induction false} StrikeFrame(st: Store, id: string)
    ensures BreakerWrites(st, Strike(st, id), id)
  {
  }

  // Admission leaves the breaker's keys alone...
  ghost predicate AdmissionWrites(st: Store, st': Store) {
    st'.now == st.now && forall k: Key :: !IsAdmissionKey(k) ==> SameAt(st, st', k)
  }

  lemma {:induction false} AdmissionFrame(cfg: Config, st: Store, op: Op)
    requires op.AskRoom? || op.Settle? || op.AskUser?
    ensures AdmissionWrites(st, Apply(cfg, st, op))
  {
    match op {
      case AskRoom(id, reserve, nowMs) => AdmitFrame(st, id, cfg.budget(id), Max(1, reserve), nowMs);
      case Settle(id, reserved, actual, nowMs) => SettleFrame(st, cfg.mode, id, reserved, actual, nowMs);
      case AskUser(id, user) =>
    }
  }

  lemma {:induction false} AdmitFrame(st: Store, id: string, b: Budget, reserve: int, nowMs: nat)
    ensures AdmissionWrites(st, Admit(st, id, b, reserve, nowMs, WINDOW).0)
  {
  }

  lemma {:induction false} SettleFrame(st: Store, mode: Mode, id: string, reserved: real, actual: Report, nowMs: nat)
    ensures AdmissionWrites(st, Reconcile(st, mode, id, reserved, actual, nowMs))
  {
  }

  // ...but for a pick, which may claim its winner's probe slot.
  lemma {:induction false} PickFrame(cfg: Config, st: Store, op: Op)
    requires op.Pick?
    ensures var after := Apply(cfg, st, op);
            && after.now == st.now
            && (Picked(cfg, st, op).None? ==> after == st)
            && (forall k: Key :: !IsAdmissionKey(k) && !k.Probe? ==> SameAt(st, after, k))
            && (forall id :: !(Picked(cfg, st, op).Some? && Picked(cfg, st, op).value.0 == id) ==> SameAt(st, after, Probe(id)))
  {
    var cs, w, after := Candidates(cfg, op.ids), WantOf(cfg, op), Apply(cfg, st, op);
    WinnerIsFirst(st, cs, w);
    var won := Select(st, cs, w).1;
    if won.Some? {
      var id := op.ids[won.value.index];
      assert OnlyWrites(st, after, id);
      forall k: Key | (!IsAdmissionKey(k) && !k.Probe?) || (k.Probe? && k.id != id) ensures SameAt(st, after, k) {
        assert !Touches(k, id);
      }
    }
  }
}
