// The token counter of one key in one window, against the requests that made it.
module AdmissionLedger {
  import opened Options
  import opened KvStore
  import opened Admission
  import opened Breaker
  import opened SelectKey
  import opened Gateways
  import opened AdmissionRuns

  // A request admitted in the window: what it reserved, and the usage reported when it ended.
  datatype Request = Request(reserved: int, report: Option<Report>)

  // What a request counts for: its reservation until it is settled, or when the report is unusable;
  // then its real usage, which refund-only reconciling never lets pass the reservation.
  function Cost(mode: Mode, r: Request): int {
    if r.report.None? || !Usable(r.report.value) then r.reserved
    else
      var used := Ceil(r.report.value.tokens);
      if mode == TwoWay then used else Min(used, r.reserved)
  }

  function Total(mode: Mode, ledger: seq<Request>): int {
    if ledger == [] then 0 else Total(mode, ledger[..|ledger| - 1]) + Cost(mode, ledger[|ledger| - 1])
  }

  // `over` and `under` are what settlements of requests booked elsewhere have asked to add to the
  // window's counter, and to take off it.
  datatype Ledger = Ledger(store: Store, requests: seq<Request>, over: int, under: int)

  // A step of some gateway, or a request of the window settled at a gateway's time.
  datatype Step = Do(op: Op) | Finish(i: nat, report: Report, nowMs: nat)

  function CounterKey(id: string, window: int): Key { Window(Tpm, id, window) }

  // What a step books on the key in the window: an admission, by itself or picked.
  function Books(cfg: Config, st: Store, op: Op, id: string, w: int): Option<int> {
    if op.AskRoom? && op.id == id && WindowIndex(op.nowMs, WINDOW) == w
       && HasRoom(st, id, cfg.budget(id), Max(1, op.reserve), op.nowMs, WINDOW)
    then Some(Max(1, op.reserve))
    else if op.Pick? && WindowIndex(op.nowMs, WINDOW) == w
            && Picked(cfg, st, op).Some? && Picked(cfg, st, op).value.0 == id
    then Some(Max(1, op.reserve))
    else None
  }

  // A settlement that reaches the window from a request not booked in it.
  predicate Strays(op: Op, id: string, w: int) {
    op.Settle? && op.id == id && WindowIndex(op.nowMs, WINDOW) == w
  }

  // What a settlement asks of its counter: to take tokens off, to add some, or neither.
  function Change(mode: Mode, reserved: real, actual: Report): int {
    if !Usable(actual) then 0
    else
      var giveBack := (reserved - actual.tokens).Floor;
      if giveBack > 0 then -giveBack
      else if mode != TwoWay then 0
      else
        var excess := Ceil(actual.tokens - reserved);
        if excess <= 0 || excess > MAX_SAFE_INTEGER then 0 else excess
  }

  // Requests are booked, and a stray charge that finds no counter makes one, once their window has
  // begun by the store's clock. Each gateway has its own clock.
  ghost predicate Allowed(cfg: Config, l: Ledger, id: string, w: int, step: Step) {
    match step
    case Do(op) =>
      && (Books(cfg, l.store, op, id, w).Some? ==> w * WINDOW_MS <= l.store.now)
      && (Strays(op, id, w) && SetsDeadline(cfg, l.store, op) ==> w * WINDOW_MS <= l.store.now)
    case Finish(i, _, nowMs) =>
      i < |l.requests| && l.requests[i].report.None? && WindowIndex(nowMs, WINDOW) == w
  }

  function Take(cfg: Config, id: string, w: int, l: Ledger, step: Step): Ledger {
    match step
    case Do(op) =>
      var booked := Books(cfg, l.store, op, id, w);
      var asked := if Strays(op, id, w) then Change(cfg.mode, op.reserved, op.actual) else 0;
      Ledger(Apply(cfg, l.store, op), if booked.Some? then l.requests + [Request(booked.value, None)] else l.requests,
             l.over + Max(0, asked), l.under + Max(0, -asked))
    case Finish(i, report, nowMs) =>
      if i >= |l.requests| then l
      else
        var r := l.requests[i];
        l.(store := Reconcile(l.store, cfg.mode, id, r.reserved as real, report, nowMs),
           requests := l.requests[i := r.(report := Some(report))])
  }

  function Counter(st: Store, id: string, w: int): int { Get(st, CounterKey(id, w)).GetOr(0) }

  // Until the end of the following window, the counter is the sum of what the requests count for, but
  // for what strays have asked of it; and it is there once a request is booked.
  ghost predicate Balanced(cfg: Config, id: string, w: int, l: Ledger) {
    && l.store.now < (w + 2) * WINDOW_MS
    && (forall i :: 0 <= i < |l.requests| ==> l.requests[i].reserved >= 1)
    && Even(Total(cfg.mode, l.requests), Counter(l.store, id, w), l.over, l.under)
    && (l.requests != [] ==> CounterKey(id, w) in l.store.nums)
    && LivesOn(l.store, CounterKey(id, w))
  }

  predicate Even(total: int, counter: int, over: int, under: int) {
    0 <= over && 0 <= under && 0 <= counter && total - under <= counter <= total + over
  }

  ghost predicate LivesOn(st: Store, k: Key) {
    k.Window? && k in st.nums ==> st.nums[k].expiresAt.Some? && st.nums[k].expiresAt.value >= (k.index + 2) * WINDOW_MS
  }

  lemma {:induction false} CeilBounds(x: real)
    ensures x <= Ceil(x) as real < x + 1.0
  {
  }

  lemma {:induction false} CeilNonNegative(x: real)
    requires 0.0 <= x
    ensures 0 <= Ceil(x)
  {
    CeilBounds(x);
  }

  lemma {:induction false} CostNonNegative(mode: Mode, r: Request)
    requires r.reserved >= 1
    ensures Cost(mode, r) >= 0
  {
    if r.report.Some? && Usable(r.report.value) { CeilNonNegative(r.report.value.tokens); }
  }

  lemma {:induction false} TotalAtLeast(mode: Mode, ledger: seq<Request>, i: nat)
    requires i < |ledger| && forall j :: 0 <= j < |ledger| ==> ledger[j].reserved >= 1
    ensures Total(mode, ledger) >= Cost(mode, ledger[i]) >= 0
  {
    var n := |ledger| - 1;
    CostNonNegative(mode, ledger[i]);
    CostNonNegative(mode, ledger[n]);
    if i < n {
      TotalAtLeast(mode, ledger[..n], i);
    } else if n > 0 {
      TotalAtLeast(mode, ledger[..n], 0);
    }
  }

  lemma {:induction false} TotalNonNegative(mode: Mode, ledger: seq<Request>)
    requires forall j :: 0 <= j < |ledger| ==> ledger[j].reserved >= 1
    ensures Total(mode, ledger) >= 0
  {
    if ledger != [] { TotalAtLeast(mode, ledger, 0); }
  }

  lemma {:induction false} TotalUpdate(mode: Mode, ledger: seq<Request>, i: nat, r: Request)
    requires i < |ledger|
    ensures Total(mode, ledger[i := r]) == Total(mode, ledger) - Cost(mode, ledger[i]) + Cost(mode, r)
  {
    var n := |ledger| - 1;
    if i == n {
      assert ledger[i := r][..n] == ledger[..n];
    } else {
      assert ledger[i := r][..n] == ledger[..n][i := r];
      TotalUpdate(mode, ledger[..n], i, r);
    }
  }

  lemma {:induction false} TotalMore(mode: Mode, ledger: seq<Request>, r: Request)
    ensures Total(mode, ledger + [r]) == Total(mode, ledger) + Cost(mode, r)
  {
    assert (ledger + [r])[..|ledger|] == ledger;
  }

  // Refunds and charges are whole tokens: the reservation less the usage rounded up.
  lemma {:induction false} WholeTokens(reserved: int, used: real)
    ensures (reserved as real - used).Floor == reserved - Ceil(used)
    ensures Ceil(used - reserved as real) == Ceil(used) - reserved
  {
    CeilBounds(used);
  }

  // The refund clamp never bites where no stray has taken tokens off: the window still holds the
  // whole reservation being settled.
  lemma {:induction false} ClampNeverBites(cfg: Config, id: string, w: int, l: Ledger, i: nat, report: Report)
    requires Balanced(cfg, id, w, l) && l.under == 0
    requires i < |l.requests| && l.requests[i].report.None? && Usable(report)
    ensures (l.requests[i].reserved as real - report.tokens).Floor <= Counter(l.store, id, w)
  {
    TotalAtLeast(cfg.mode, l.requests, i);
    WholeTokens(l.requests[i].reserved, report.tokens);
    CeilNonNegative(report.tokens);
  }

  // What the two counts of an admission leave in the window's token counter.
  lemma {:induction false} CountedKey(st: Store, id: string, reserve: int, nowMs: nat)
    requires WindowIndex(nowMs, WINDOW) * WINDOW_MS <= st.now
    ensures var k := Current(Tpm, id, nowMs, WINDOW);
            var after := Count(Count(st, Current(Rpm, id, nowMs, WINDOW), 1, WINDOW), k, reserve, WINDOW);
            Get(after, k).GetOr(0) == Get(st, k).GetOr(0) + reserve && LivesOn(after, k) && after.now == st.now
  {
    FreshDeadline(Count(st, Current(Rpm, id, nowMs, WINDOW), 1, WINDOW), Tpm, id, reserve, nowMs);
  }

  lemma {:induction false} Rebalanced(cfg: Config, id: string, w: int, l: Ledger, l': Ledger)
    requires Balanced(cfg, id, w, l) && l' == l.(store := l'.store) && l'.store.now == l.store.now
    requires SameAt(l.store, l'.store, CounterKey(id, w))
    ensures Balanced(cfg, id, w, l')
  {
  }

  lemma {:induction false} BookedBalances(cfg: Config, id: string, w: int, l: Ledger, st: Store, reserve: int)
    requires Balanced(cfg, id, w, l) && reserve >= 1 && st.now == l.store.now
    requires Counter(st, id, w) == Counter(l.store, id, w) + reserve && LivesOn(st, CounterKey(id, w))
    ensures Balanced(cfg, id, w, l.(store := st, requests := l.requests + [Request(reserve, None)]))
  {
    TotalMore(cfg.mode, l.requests, Request(reserve, None));
  }

  lemma {:induction false} AskBalances(cfg: Config, id: string, w: int, l: Ledger, op: Op)
    requires Balanced(cfg, id, w, l) && op.AskRoom? && Allowed(cfg, l, id, w, Do(op))
    ensures Balanced(cfg, id, w, Take(cfg, id, w, l, Do(op)))
  {
    var reserve := Max(1, op.reserve);
    if Books(cfg, l.store, op, id, w).Some? {
      CountedKey(l.store, id, reserve, op.nowMs);
      BookedBalances(cfg, id, w, l, Apply(cfg, l.store, op), reserve);
    } else {
      AdmitElsewhere(l.store, op.id, cfg.budget(op.id), reserve, op.nowMs, id, w);
      Rebalanced(cfg, id, w, l, Take(cfg, id, w, l, Do(op)));
    }
  }

  // An admission to another key, or counted in another window, or refused.
  lemma {:induction false} AdmitElsewhere(st: Store, id: string, b: Budget, reserve: int, nowMs: nat, other: string, w: int)
    requires id == other && WindowIndex(nowMs, WINDOW) == w ==> !HasRoom(st, id, b, reserve, nowMs, WINDOW)
    ensures var after := Admit(st, id, b, reserve, nowMs, WINDOW).0;
            after.now == st.now && SameAt(st, after, CounterKey(other, w))
  {
  }

  lemma {:induction false} PickBalances(cfg: Config, id: string, w: int, l: Ledger, op: Op)
    requires Balanced(cfg, id, w, l) && op.Pick? && Allowed(cfg, l, id, w, Do(op))
    ensures Balanced(cfg, id, w, Take(cfg, id, w, l, Do(op)))
  {
    var cs, want := Candidates(cfg, op.ids), WantOf(cfg, op);
    SelectFromFirst(l.store, cs, 0, want);
    var won := Select(l.store, cs, want).1;
    if won.Some? {
      var c := cs[won.value.index];
      ReserveCounts(l.store, c, want, id, w);
      if Books(cfg, l.store, op, id, w).Some? {
        BookedBalances(cfg, id, w, l, Apply(cfg, l.store, op), want.reserve);
      } else {
        Rebalanced(cfg, id, w, l, Take(cfg, id, w, l, Do(op)));
      }
    }
  }

  lemma {:induction false} ReserveCounts(st: Store, c: Candidate, want: Want, id: string, w: int)
    requires Passes(st, c, want)
    ensures Reserve(st, c, want).now == st.now
    ensures c.id == id && WindowIndex(want.nowMs, WINDOW) == w && w * WINDOW_MS <= st.now ==>
      && Get(Reserve(st, c, want), CounterKey(id, w)).GetOr(0) == Get(st, CounterKey(id, w)).GetOr(0) + want.reserve
      && LivesOn(Reserve(st, c, want), CounterKey(id, w))
    ensures c.id != id || WindowIndex(want.nowMs, WINDOW) != w ==> SameAt(st, Reserve(st, c, want), CounterKey(id, w))
  {
    var st1 := if OpenUntil(c.id) in st.nums then SetEx(st, Probe(c.id), 1, PROBE_TTL_SECONDS) else st;
    var st2 := AddUser(st1, c.id, want.user, want.userSeconds);
    assert st2.now == st.now && SameAt(st, st2, CounterKey(id, w));
    if w == WindowIndex(want.nowMs, WINDOW) && w * WINDOW_MS <= st.now { CountedKey(st2, c.id, want.reserve, want.nowMs); }
    CountElsewhere(st2, c.id, want.reserve, want.nowMs, id, w);
  }

  lemma {:induction false} CountElsewhere(st: Store, id: string, reserve: int, nowMs: nat, other: string, w: int)
    ensures var after := Count(Count(st, Current(Rpm, id, nowMs, WINDOW), 1, WINDOW), Current(Tpm, id, nowMs, WINDOW), reserve, WINDOW);
            after.now == st.now && (id != other || WindowIndex(nowMs, WINDOW) != w ==> SameAt(st, after, CounterKey(other, w)))
  {
  }

  // What settling a request of the ledger asks of the counter is the change in what it counts for.
  lemma {:induction false} ChangeIsCost(mode: Mode, r: Request, report: Report)
    requires r.report.None? && r.reserved >= 1
    ensures Cost(mode, r.(report := Some(report))) == Cost(mode, r) + Change(mode, r.reserved as real, report)
  {
    if Usable(report) {
      WholeTokens(r.reserved, report.tokens);
      CeilBounds(report.tokens);
    }
  }

  // A figure that is no number, negative or absurd changes nothing; any other that differs from a whole
  // reservation asks for something, where charges are made.
  lemma {:induction false} FiguresUsed(st: Store, id: string, reserved: int, figure: real, nowMs: nat)
    requires 0 < reserved <= MAX_SAFE_INTEGER
    ensures Reconcile(st, TwoWay, id, reserved as real, NotANumber, nowMs) == st
    ensures figure < 0.0 || figure > 10_000_000.0 ==> Reconcile(st, TwoWay, id, reserved as real, Figure(figure), nowMs) == st
    ensures 0.0 <= figure <= 10_000_000.0 ==>
      Change(TwoWay, reserved as real, Figure(figure)) == Ceil(figure) - reserved
  {
    if 0.0 <= figure <= 10_000_000.0 {
      WholeTokens(reserved, figure);
      CeilBounds(figure);
    }
  }

  // No settlement asks for more than its whole reservation back, nor adds more than its usage.
  lemma {:induction false} ChangeBounds(mode: Mode, reserved: real, actual: Report)
    requires reserved >= 0.0
    ensures -reserved.Floor <= Change(mode, reserved, actual)
    ensures Change(mode, reserved, actual) > 0 ==> Usable(actual) && Change(mode, reserved, actual) <= Ceil(actual.tokens)
  {
    if Usable(actual) { CeilBounds(actual.tokens - reserved); }
  }

  // Settling changes its counter by what it asks, but never below zero, and keeps the deadline or,
  // where it has none, sets one.
  lemma {:induction false} SettledCounter(st: Store, mode: Mode, id: string, reserved: real, report: Report, nowMs: nat)
    requires var k := Current(Tpm, id, nowMs, WINDOW);
             Get(st, k).GetOr(0) >= 0 && LivesOn(st, k) && (k in st.nums || k.index * WINDOW_MS <= st.now || Change(mode, reserved, report) <= 0)
    ensures var k := Current(Tpm, id, nowMs, WINDOW);
            var after := Reconcile(st, mode, id, reserved, report, nowMs);
            && after.now == st.now && LivesOn(after, k) && (k in st.nums ==> k in after.nums)
            && Get(after, k).GetOr(0) == Max(0, Get(st, k).GetOr(0) + Change(mode, reserved, report))
  {
  }

  lemma {:induction false} FinishBalances(cfg: Config, id: string, w: int, l: Ledger, i: nat, report: Report, nowMs: nat)
    requires Balanced(cfg, id, w, l) && Allowed(cfg, l, id, w, Finish(i, report, nowMs))
    ensures Balanced(cfg, id, w, Take(cfg, id, w, l, Finish(i, report, nowMs)))
  {
    var r := l.requests[i];
    var settled := r.(report := Some(report));
    TotalUpdate(cfg.mode, l.requests, i, settled);
    ChangeIsCost(cfg.mode, r, report);
    TotalNonNegative(cfg.mode, l.requests[i := settled]);
    SettledCounter(l.store, cfg.mode, id, r.reserved as real, report, nowMs);
  }

  // A settlement that strays in moves the counter by no more than it asks.
  lemma {:induction false} StrayBalances(cfg: Config, id: string, w: int, l: Ledger, op: Op)
    requires Balanced(cfg, id, w, l) && Strays(op, id, w) && Allowed(cfg, l, id, w, Do(op))
    ensures Balanced(cfg, id, w, Take(cfg, id, w, l, Do(op)))
  {
    TotalNonNegative(cfg.mode, l.requests);
    SettledCounter(l.store, cfg.mode, id, op.reserved, op.actual, op.nowMs);
  }

  // It moves it exactly when it adds tokens, or asks some back of a counter that has any.
  lemma {:induction false} StrayMoves(cfg: Config, id: string, w: int, l: Ledger, op: Op)
    requires Balanced(cfg, id, w, l) && Strays(op, id, w) && Allowed(cfg, l, id, w, Do(op))
    ensures var before, asked := Counter(l.store, id, w), Change(cfg.mode, op.reserved, op.actual);
            Counter(Apply(cfg, l.store, op), id, w) != before <==> asked > 0 || (asked < 0 && before > 0)
  {
    SettledCounter(l.store, cfg.mode, id, op.reserved, op.actual, op.nowMs);
  }

  // A step that books nothing here: about other keys, other windows, users or the breaker, or time
  // passing before the counter's last window is out. It leaves the counter alone.
  lemma {:induction false} OtherBalances(cfg: Config, id: string, w: int, l: Ledger, op: Op)
    requires Balanced(cfg, id, w, l) && !op.AskRoom? && !op.Pick? && !Strays(op, id, w)
    requires Apply(cfg, l.store, op).now < (w + 2) * WINDOW_MS
    ensures Balanced(cfg, id, w, Take(cfg, id, w, l, Do(op)))
  {
    if IsBreakerOp(op) { BreakerOpFrame(cfg, l.store, op); }
    if op.Settle? { SettleElsewhere(l.store, cfg.mode, op.id, op.reserved, op.actual, op.nowMs, CounterKey(id, w)); }
    if !op.Pass? { Rebalanced(cfg, id, w, l, Take(cfg, id, w, l, Do(op))); }
  }

  lemma {:induction false} SettleElsewhere(st: Store, mode: Mode, id: string, reserved: real, actual: Report, nowMs: nat, k: Key)
    requires k != Current(Tpm, id, nowMs, WINDOW)
    ensures var after := Reconcile(st, mode, id, reserved, actual, nowMs); after.now == st.now && SameAt(st, after, k)
  {
  }

  // A run of steps, each allowed when it comes, before the end of the following window.
  ghost predicate RunsIn(cfg: Config, id: string, w: int, l: Ledger, steps: seq<Step>, end: Ledger)
    decreases |steps|
  {
    if steps == [] then end == l
    else
      && Allowed(cfg, l, id, w, steps[0])
      && Take(cfg, id, w, l, steps[0]).store.now < (w + 2) * WINDOW_MS
      && RunsIn(cfg, id, w, Take(cfg, id, w, l, steps[0]), steps[1..], end)
  }

  lemma {:induction false} StepBalances(cfg: Config, id: string, w: int, l: Ledger, step: Step)
    requires Balanced(cfg, id, w, l) && Allowed(cfg, l, id, w, step)
    requires Take(cfg, id, w, l, step).store.now < (w + 2) * WINDOW_MS
    ensures Balanced(cfg, id, w, Take(cfg, id, w, l, step))
  {
    match step
    case Finish(i, report, nowMs) => FinishBalances(cfg, id, w, l, i, report, nowMs);
    case Do(op) =>
      if op.AskRoom? { AskBalances(cfg, id, w, l, op); }
      else if op.Pick? { PickBalances(cfg, id, w, l, op); }
      else if Strays(op, id, w) { StrayBalances(cfg, id, w, l, op); }
      else { OtherBalances(cfg, id, w, l, op); }
  }

  // However requests of all gateways interleave, by whatever clocks, the window's token counter is
  // outstanding reservations plus what the settled ones count for, but for what settlements of requests
  // booked elsewhere asked to add, and to take off.
  lemma {:induction false} WindowStaysBalanced(cfg: Config, id: string, w: int, l: Ledger, steps: seq<Step>, end: Ledger)
    requires Balanced(cfg, id, w, l) && RunsIn(cfg, id, w, l, steps, end)
    ensures Balanced(cfg, id, w, end)
    decreases |steps|
  {
    if steps != [] {
      StepBalances(cfg, id, w, l, steps[0]);
      WindowStaysBalanced(cfg, id, w, Take(cfg, id, w, l, steps[0]), steps[1..], end);
    }
  }

  // So where no settlement strays in, it is exactly that.
  lemma {:induction false} BalancedExactly(cfg: Config, id: string, w: int, l: Ledger, steps: seq<Step>, end: Ledger)
    requires Balanced(cfg, id, w, l) && l.over == l.under == 0
    requires RunsIn(cfg, id, w, l, steps, end) && NoStrays(id, w, steps)
    ensures Counter(end.store, id, w) == Total(cfg.mode, end.requests)
    decreases |steps|
  {
    if steps != [] {
      StepBalances(cfg, id, w, l, steps[0]);
      BalancedExactly(cfg, id, w, Take(cfg, id, w, l, steps[0]), steps[1..], end);
    }
  }

  predicate NoStrays(id: string, w: int, steps: seq<Step>) {
    forall n :: 0 <= n < |steps| ==> !(steps[n].Do? && Strays(steps[n].op, id, w))
  }

  // ── A reservation that is not a whole number of tokens ───────────────────────────────────────

  // Admit, then release in full: the counter is back where it was exactly when the reservation
  // asked for is a whole number of at least one token. (admitKey books it rounded up; the release
  // is computed from the number as given.)
  lemma {:induction false} ReleaseRestores(st: Store, mode: Mode, id: string, b: Budget, reserve: real, nowMs: nat)
    requires Admit(st, id, b, Booked(reserve), nowMs, WINDOW).1
    requires Get(st, Current(Tpm, id, nowMs, WINDOW)).GetOr(0) >= 0
    ensures var k := Current(Tpm, id, nowMs, WINDOW);
            var held := Admit(st, id, b, Booked(reserve), nowMs, WINDOW).0;
            var after := Reconcile(held, mode, id, reserve, Figure(0.0), nowMs);
            Get(after, k).GetOr(0) == Get(st, k).GetOr(0) <==> reserve >= 1.0 && reserve.Floor as real == reserve
  {
    CeilBounds(reserve);
    assert reserve - 0.0 == reserve;
    var k := Current(Tpm, id, nowMs, WINDOW);
    var held := Admit(st, id, b, Booked(reserve), nowMs, WINDOW).0;
    assert Get(held, k).GetOr(0) == Get(st, k).GetOr(0) + Booked(reserve);
  }
}
