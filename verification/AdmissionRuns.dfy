// What admission keeps over every interleaving of every gateway's steps, and how long its counters
// live.
module AdmissionRuns {
  import opened Options
  import opened KvStore
  import opened Admission
  import opened Breaker
  import opened SelectKey
  import opened Gateways

  // ── Limits hold across gateways, whatever their clocks say ───────────────────────────────────

  ghost predicate CounterOk(cfg: Config, k: Key, cell: Cell<int>) {
    k.Window? ==>
      && 0 <= cell.value && cell.expiresAt.Some?
      && (k.limit == Rpm ==> cell.value <= cfg.budget(k.id).rpm)
      && (k.limit == Tpm && cfg.mode == RefundOnly ==> cell.value <= cfg.budget(k.id).tpm)
  }

  ghost predicate UsersOk(cfg: Config, k: Key, cell: Cell<set<string>>) {
    k.Users? ==> cell.expiresAt.Some? && |cell.value| <= Cap(cfg, k.id)
  }

  ghost predicate LimitsHold(cfg: Config, st: Store) {
    && (forall k | k in st.nums :: CounterOk(cfg, k, st.nums[k]))
    && (forall k | k in st.sets :: UsersOk(cfg, k, st.sets[k]))
  }

  lemma {:induction false} WeightInRange(nowMs: nat)
    ensures 0.0 <= Weight(nowMs, WINDOW) <= 1.0
  {
    var r := nowMs % WINDOW_MS;
    assert 0 <= r < WINDOW_MS;
    assert WINDOW * 1000 == WINDOW_MS;
    assert 0.0 <= r as real / WINDOW_MS as real < 1.0;
  }

  lemma {:induction false} Product(x: int, w: real)
    requires 0 <= x && 0.0 <= w
    ensures 0.0 <= x as real * w
  {
  }

  // Room by the weighted count is room in the current counter.
  lemma {:induction false} RoomInCurrent(cfg: Config, st: Store, limit: Limit, id: string, more: int, bound: int, nowMs: nat)
    requires LimitsHold(cfg, st)
    requires RateCount(st, limit, id, nowMs, WINDOW) + more as real <= bound as real
    ensures Get(st, Current(limit, id, nowMs, WINDOW)).GetOr(0) + more <= bound
  {
    var prev := Get(st, Previous(limit, id, nowMs, WINDOW)).GetOr(0);
    var cur := Get(st, Current(limit, id, nowMs, WINDOW)).GetOr(0);
    assert CounterOkAt(cfg, st, Previous(limit, id, nowMs, WINDOW));
    WeightInRange(nowMs);
    Product(prev, Weight(nowMs, WINDOW));
    assert (cur + more) as real <= bound as real;
  }

  ghost predicate CounterOkAt(cfg: Config, st: Store, k: Key) {
    k in st.nums ==> CounterOk(cfg, k, st.nums[k])
  }

  lemma {:induction false} AdmitKeeps(cfg: Config, st: Store, id: string, reserve: int, nowMs: nat)
    requires LimitsHold(cfg, st) && reserve >= 1
    ensures LimitsHold(cfg, Admit(st, id, cfg.budget(id), reserve, nowMs, WINDOW).0)
  {
    var b := cfg.budget(id);
    if HasRoom(st, id, b, reserve, nowMs, WINDOW) {
      RoomInCurrent(cfg, st, Rpm, id, 1, b.rpm, nowMs);
      RoomInCurrent(cfg, st, Tpm, id, reserve, b.tpm, nowMs);
      var rcur, tcur := Current(Rpm, id, nowMs, WINDOW), Current(Tpm, id, nowMs, WINDOW);
      assert CounterOkAt(cfg, st, rcur) && CounterOkAt(cfg, st, tcur);
      var st1 := Count(st, rcur, 1, WINDOW);
      var st2 := Count(st1, tcur, reserve, WINDOW);
      forall k | k in st2.nums ensures CounterOk(cfg, k, st2.nums[k]) {
        if k != rcur && k != tcur { assert st2.nums[k] == st.nums[k]; }
      }
    }
  }

  lemma {:induction false} RefundKeeps(cfg: Config, st: Store, id: string, amount: int, nowMs: nat)
    requires LimitsHold(cfg, st)
    ensures LimitsHold(cfg, Refund(st, id, amount, nowMs, WINDOW))
  {
    var after, cur := Refund(st, id, amount, nowMs, WINDOW), Current(Tpm, id, nowMs, WINDOW);
    forall k | k in after.nums ensures CounterOk(cfg, k, after.nums[k]) {
      if k != cur { assert after.nums[k] == st.nums[k]; }
    }
  }

  lemma {:induction false} ChargeKeeps(cfg: Config, st: Store, id: string, extra: int, nowMs: nat)
    requires LimitsHold(cfg, st) && cfg.mode == TwoWay
    ensures LimitsHold(cfg, Charge(st, id, extra, nowMs, WINDOW))
  {
    var after, cur := Charge(st, id, extra, nowMs, WINDOW), Current(Tpm, id, nowMs, WINDOW);
    assert CounterOkAt(cfg, st, cur);
    forall k | k in after.nums ensures CounterOk(cfg, k, after.nums[k]) {
      if k != cur { assert after.nums[k] == st.nums[k]; }
    }
  }

  lemma {:induction false} UserKeeps(cfg: Config, st: Store, id: string, user: string)
    requires LimitsHold(cfg, st)
    ensures LimitsHold(cfg, AdmitUser(st, id, user, Cap(cfg, id), cfg.userSeconds).0)
  {
    var (after, _) := AdmitUser(st, id, user, Cap(cfg, id), cfg.userSeconds);
    forall k | k in after.sets ensures UsersOk(cfg, k, after.sets[k]) {
      if k != Users(id) { assert after.sets[k] == st.sets[k]; }
    }
  }

  // A pick is an admission of its winner, after its user and its probe claim.
  lemma {:induction false} PickKeeps(cfg: Config, st: Store, ids: seq<string>, w: Want)
    requires LimitsHold(cfg, st) && w.reserve >= 1 && w.userSeconds == cfg.userSeconds
    ensures LimitsHold(cfg, Select(st, Candidates(cfg, ids), w).0)
  {
    var cs := Candidates(cfg, ids);
    SelectFromFirst(st, cs, 0, w);
    var won := Select(st, cs, w).1;
    if won.Some? {
      var c := cs[won.value.index];
      OneStepIsThree(st, c, w);
      var st1 := Acquire(st, c.id, w.nowMs).0;
      assert LimitsHold(cfg, st1);
      UserKeeps(cfg, st1, c.id, w.user);
      var st2 := if w.user == "" then st1 else AdmitUser(st1, c.id, w.user, c.maxUsers, w.userSeconds).0;
      AdmitKeeps(cfg, st2, c.id, w.reserve, w.nowMs);
    }
  }

  lemma {:induction false} BreakerOpKeeps(cfg: Config, st: Store, op: Op)
    requires LimitsHold(cfg, st) && IsBreakerOp(op)
    ensures LimitsHold(cfg, Apply(cfg, st, op))
  {
    BreakerOpFrame(cfg, st, op);
    var after := Apply(cfg, st, op);
    forall k | k in after.nums ensures CounterOk(cfg, k, after.nums[k]) {
      if k.Window? { assert SameAt(st, after, k); }
    }
    forall k | k in after.sets ensures UsersOk(cfg, k, after.sets[k]) {
      if k.Users? { assert SameAt(st, after, k); }
    }
  }

  lemma {:induction false} SettleKeeps(cfg: Config, st: Store, id: string, reserved: real, actual: Report, nowMs: nat)
    requires LimitsHold(cfg, st)
    ensures LimitsHold(cfg, Reconcile(st, cfg.mode, id, reserved, actual, nowMs))
  {
    if Usable(actual) {
      RefundKeeps(cfg, st, id, (reserved - actual.tokens).Floor, nowMs);
      if cfg.mode == TwoWay { ChargeKeeps(cfg, st, id, Ceil(actual.tokens - reserved), nowMs); }
    }
  }

  lemma {:induction false} StepKeepsLimits(cfg: Config, st: Store, op: Op)
    requires LimitsHold(cfg, st)
    ensures LimitsHold(cfg, Apply(cfg, st, op))
  {
    match op {
      case Pass(ms) =>
      case AskRoom(id, reserve, nowMs) => AdmitKeeps(cfg, st, id, Max(1, reserve), nowMs);
      case AskUser(id, user) => UserKeeps(cfg, st, id, user);
      case Settle(id, reserved, actual, nowMs) => SettleKeeps(cfg, st, id, reserved, actual, nowMs);
      case Pick(ids, reserve, user, nowMs) => PickKeeps(cfg, st, ids, WantOf(cfg, op));
      case _ => BreakerOpKeeps(cfg, st, op);
    }
  }

  // Over every interleaving, under any clocks: no request counter passes its limit, and no token
  // counter either while reconciling only refunds; no counter is negative or without a deadline;
  // no key serves more distinct users than its cap.
  lemma {:induction false} LimitsAlwaysHold(cfg: Config, st: Store, ops: seq<Op>)
    requires LimitsHold(cfg, st)
    ensures LimitsHold(cfg, Run(cfg, st, ops))
    decreases |ops|
  {
    if ops != [] {
      var n := |ops| - 1;
      LimitsAlwaysHold(cfg, st, ops[..n]);
      StepKeepsLimits(cfg, Run(cfg, st, ops[..n]), ops[n]);
    }
  }

  // An admitted user stays admitted while the key's window lasts, and a refusal changes nothing.
  lemma {:induction false} UserRule(st: Store, id: string, user: string, cap: int, seconds: nat)
    ensures var (after, ok) := AdmitUser(st, id, user, cap, seconds);
            && (ok <==> user in MembersOf(st, Users(id)) || |MembersOf(st, Users(id))| < cap)
            && (ok ==> AdmitUser(after, id, user, cap, seconds) == (after, true))
            && (!ok ==> after == st)
            && (forall other :: other != id ==> MembersOf(after, Users(other)) == MembersOf(st, Users(other)))
  {
  }

  // ── A counter outlives the window that reads it as "previous" ────────────────────────────────

  ghost predicate Outlives(st: Store) {
    forall k | k in st.nums && k.Window? ::
      st.nums[k].expiresAt.Some? && st.nums[k].expiresAt.value >= (k.index + 2) * WINDOW_MS
  }

  // What admission writes lives to the end of the following window exactly when its window had
  // begun by the store's own clock.
  lemma {:induction false} FreshDeadline(st: Store, limit: Limit, id: string, amount: int, nowMs: nat)
    ensures var k := Current(limit, id, nowMs, WINDOW);
            var cell := Count(st, k, amount, WINDOW).nums[k];
            cell.expiresAt.Some?
            && (cell.expiresAt.value >= (k.index + 2) * WINDOW_MS <==> k.index * WINDOW_MS <= st.now)
  {
  }

  predicate Begun(st: Store, nowMs: nat) { WindowIndex(nowMs, WINDOW) * WINDOW_MS <= st.now }

  // A step that gives a counter its deadline: an admission, a pick, or a charge where no counter was.
  predicate SetsDeadline(cfg: Config, st: Store, op: Op) {
    match op
    case AskRoom(id, reserve, nowMs) => HasRoom(st, id, cfg.budget(id), Max(1, reserve), nowMs, WINDOW)
    case Pick(_, _, _, _) => Picked(cfg, st, op).Some?
    case Settle(id, _, _, nowMs) =>
      var k := Current(Tpm, id, nowMs, WINDOW);
      k !in st.nums && k in Apply(cfg, st, op).nums
    case _ => false
  }

  // Whatever sets a deadline sets it in a window that has begun by the store's clock: a gateway may be
  // ahead of the store, but may not count across the start of a window.
  ghost predicate AllBegun(cfg: Config, st: Store, ops: seq<Op>) {
    forall n :: 0 <= n < |ops| ==> BegunIfSet(cfg, Run(cfg, st, ops[..n]), ops[n])
  }

  predicate BegunIfSet(cfg: Config, st: Store, op: Op) {
    Counts(op) && SetsDeadline(cfg, st, op) ==> Begun(st, op.nowMs)
  }

  lemma {:induction false} CountOutlives(st: Store, limit: Limit, id: string, amount: int, nowMs: nat)
    requires Outlives(st)
    ensures Outlives(Count(st, Current(limit, id, nowMs, WINDOW), amount, WINDOW)) <==> Begun(st, nowMs)
  {
    FreshDeadline(st, limit, id, amount, nowMs);
    var k := Current(limit, id, nowMs, WINDOW);
    var after := Count(st, k, amount, WINDOW);
    forall j | j in after.nums && j.Window? && j != k
      ensures after.nums[j].expiresAt.Some? && after.nums[j].expiresAt.value >= (j.index + 2) * WINDOW_MS
    {
      assert after.nums[j] == st.nums[j];
    }
    assert k in after.nums && k.Window?;
  }

  // Counting both counters; the second tells of both.
  lemma {:induction false} AdmitOutlives(st: Store, id: string, b: Budget, reserve: int, nowMs: nat)
    requires Outlives(st) && HasRoom(st, id, b, reserve, nowMs, WINDOW)
    ensures Outlives(Admit(st, id, b, reserve, nowMs, WINDOW).0) <==> Begun(st, nowMs)
  {
    var k := Current(Tpm, id, nowMs, WINDOW);
    var st1 := Count(st, Current(Rpm, id, nowMs, WINDOW), 1, WINDOW);
    CountOutlives(st, Rpm, id, 1, nowMs);
    if Begun(st, nowMs) { CountOutlives(st1, Tpm, id, reserve, nowMs); }
    FreshDeadline(st1, Tpm, id, reserve, nowMs);
    assert k in Count(st1, k, reserve, WINDOW).nums && k.Window?;
  }

  lemma {:induction false} SettleOutlives(cfg: Config, st: Store, op: Op)
    requires Outlives(st) && op.Settle?
    ensures Outlives(Apply(cfg, st, op)) <==> (SetsDeadline(cfg, st, op) ==> Begun(st, op.nowMs))
  {
    var k, after := Current(Tpm, op.id, op.nowMs, WINDOW), Apply(cfg, st, op);
    forall j | j in after.nums && j.Window? && j != k
      ensures after.nums[j].expiresAt.Some? && after.nums[j].expiresAt.value >= (j.index + 2) * WINDOW_MS
    {
      assert after.nums[j] == st.nums[j];
    }
    if k in st.nums { assert k in after.nums ==> after.nums[k].expiresAt == st.nums[k].expiresAt; }
    if SetsDeadline(cfg, st, op) {
      assert after.nums[k].expiresAt == Some(st.now + WINDOW * 2 * 1000);
      assert k in after.nums && k.Window?;
    }
  }

  lemma {:induction false} PickOutlives(cfg: Config, st: Store, op: Op)
    requires Outlives(st) && op.Pick?
    ensures Outlives(Apply(cfg, st, op)) <==> (SetsDeadline(cfg, st, op) ==> Begun(st, op.nowMs))
  {
    var cs, w := Candidates(cfg, op.ids), WantOf(cfg, op);
    SelectFromFirst(st, cs, 0, w);
    var won := Select(st, cs, w).1;
    if won.Some? {
      var c := cs[won.value.index];
      OneStepIsThree(st, c, w);
      var st2 := AskedFirst(st, c, w);
      AdmitOutlives(st2, c.id, c.budget, w.reserve, w.nowMs);
    }
  }

  // The gate and the user leave every window's counters alone.
  lemma {:induction false} AskedFirst(st: Store, c: Candidate, w: Want) returns (st2: Store)
    ensures var st1 := Acquire(st, c.id, w.nowMs).0;
            st2 == if w.user == "" then st1 else AdmitUser(st1, c.id, w.user, c.maxUsers, w.userSeconds).0
    ensures st2.now == st.now && (Outlives(st) ==> Outlives(st2))
    ensures Passes(st, c, w) ==> HasRoom(st2, c.id, c.budget, w.reserve, w.nowMs, WINDOW)
  {
    var st1 := Acquire(st, c.id, w.nowMs).0;
    st2 := if w.user == "" then st1 else AdmitUser(st1, c.id, w.user, c.maxUsers, w.userSeconds).0;
    SameRoom(st, st2, c, w);
  }

  lemma {:induction false} BreakerOpOutlives(cfg: Config, st: Store, op: Op)
    requires Outlives(st) && IsBreakerOp(op)
    ensures Outlives(Apply(cfg, st, op))
  {
    BreakerOpFrame(cfg, st, op);
    var after := Apply(cfg, st, op);
    forall k | k in after.nums && k.Window?
      ensures after.nums[k].expiresAt.Some? && after.nums[k].expiresAt.value >= (k.index + 2) * WINDOW_MS
    {
      assert SameAt(st, after, k);
    }
  }

  // Each step keeps every counter's life exactly when the window it gives a deadline in has begun.
  lemma {:induction false} StepOutlives(cfg: Config, st: Store, op: Op)
    requires Outlives(st)
    ensures Outlives(Apply(cfg, st, op)) <==> BegunIfSet(cfg, st, op)
  {
    match op {
      case Pass(ms) =>
      case AskUser(id, user) =>
      case AskRoom(id, reserve, nowMs) =>
        if SetsDeadline(cfg, st, op) { AdmitOutlives(st, id, cfg.budget(id), Max(1, reserve), nowMs); }
      case Settle(_, _, _, _) => SettleOutlives(cfg, st, op);
      case Pick(_, _, _, _) => PickOutlives(cfg, st, op);
      case _ => BreakerOpOutlives(cfg, st, op);
    }
  }

  lemma {:induction false} OutliveWhileBegun(cfg: Config, st: Store, ops: seq<Op>)
    requires Outlives(st) && AllBegun(cfg, st, ops)
    ensures Outlives(Run(cfg, st, ops))
    decreases |ops|
  {
    if ops != [] {
      var n := |ops| - 1;
      var early := ops[..n];
      BegunSooner(cfg, st, ops, n);
      OutliveWhileBegun(cfg, st, early);
      assert BegunIfSet(cfg, Run(cfg, st, early), ops[n]);
      StepOutlives(cfg, Run(cfg, st, early), ops[n]);
    }
  }

  lemma {:induction false} BegunSooner(cfg: Config, st: Store, ops: seq<Op>, n: nat)
    requires n <= |ops| && AllBegun(cfg, st, ops)
    ensures AllBegun(cfg, st, ops[..n])
  {
    var early := ops[..n];
    forall m | 0 <= m < n ensures BegunIfSet(cfg, Run(cfg, st, early[..m]), early[m]) {
      assert early[..m] == ops[..m] && BegunIfSet(cfg, Run(cfg, st, ops[..m]), ops[m]);
    }
  }

  lemma {:induction false} BegunIfOutlives(cfg: Config, st: Store, ops: seq<Op>, n: nat)
    requires n < |ops| && Outlives(Run(cfg, st, ops[..n])) && Outlives(Run(cfg, st, ops[..n + 1]))
    ensures BegunIfSet(cfg, Run(cfg, st, ops[..n]), ops[n])
  {
    assert ops[..n + 1][..n] == ops[..n];
    StepOutlives(cfg, Run(cfg, st, ops[..n]), ops[n]);
  }

  // Over every interleaving: at no point does a counter expire before the end of the window after its
  // own, where it is read as "previous", exactly when every deadline is set in a window that has begun.
  lemma {:induction false} CountersOutlive(cfg: Config, st: Store, ops: seq<Op>)
    requires Outlives(st)
    ensures (forall n :: 0 <= n <= |ops| ==> Outlives(Run(cfg, st, ops[..n]))) <==> AllBegun(cfg, st, ops)
  {
    if AllBegun(cfg, st, ops) {
      forall n | 0 <= n <= |ops| ensures Outlives(Run(cfg, st, ops[..n])) {
        BegunSooner(cfg, st, ops, n);
        OutliveWhileBegun(cfg, st, ops[..n]);
      }
    }
    if forall n :: 0 <= n <= |ops| ==> Outlives(Run(cfg, st, ops[..n])) {
      forall n | 0 <= n < |ops| ensures BegunIfSet(cfg, Run(cfg, st, ops[..n]), ops[n]) {
        assert Outlives(Run(cfg, st, ops[..n])) && Outlives(Run(cfg, st, ops[..n + 1]));
        BegunIfOutlives(cfg, st, ops, n);
      }
    }
  }
}
