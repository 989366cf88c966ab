// Picking the first usable key of a pool and reserving on it, in one step (src/lib/selectKey.ts).
module SelectKey {
  import opened Options
  import opened KvStore
  import opened Admission
  import opened Breaker

  // A key to try, with its limits. `maxUsers` is the cap as sent: whole, and at least 1.
  datatype Candidate = Candidate(id: string, budget: Budget, maxUsers: int)

  // What a request asks for. An empty user is no identity.
  datatype Want = Want(reserve: int, user: string, nowMs: nat, userSeconds: nat)

  datatype Winner = Winner(index: nat, gate: Gate)

  // ── One candidate ────────────────────────────────────────────────────────────────────────────

  // The breaker lets this caller through: it is closed, or half open with its probe slot free.
  predicate GateLets(st: Store, id: string, nowMs: int) {
    OpenUntil(id) in st.nums ==> st.nums[OpenUntil(id)].value <= nowMs && Probe(id) !in st.nums
  }

  predicate UserFits(st: Store, id: string, user: string, maxUsers: int) {
    user == "" || user in MembersOf(st, Users(id)) || |MembersOf(st, Users(id))| < maxUsers
  }

  // A candidate that passes the breaker, the user cap and both budgets.
  predicate Passes(st: Store, c: Candidate, w: Want) {
    && GateLets(st, c.id, w.nowMs)
    && UserFits(st, c.id, w.user, c.maxUsers)
    && HasRoom(st, c.id, c.budget, w.reserve, w.nowMs, WINDOW)
  }

  function AddUser(st: Store, id: string, user: string, seconds: nat): Store {
    if user == "" || user in MembersOf(st, Users(id)) then st
    else ExpireSet(SetAdd(st, Users(id), user), Users(id), seconds)
  }

  // What is written once a candidate has passed: the probe claim, the user, both counters.
  function Reserve(st: Store, c: Candidate, w: Want): Store {
    var st1 := if OpenUntil(c.id) in st.nums then SetEx(st, Probe(c.id), 1, PROBE_TTL_SECONDS) else st;
    var st2 := AddUser(st1, c.id, w.user, w.userSeconds);
    var st3 := Count(st2, Current(Rpm, c.id, w.nowMs, WINDOW), 1, WINDOW);
    Count(st3, Current(Tpm, c.id, w.nowMs, WINDOW), w.reserve, WINDOW)
  }

  function GateOf(st: Store, id: string): Gate { if OpenUntil(id) in st.nums then ProbeSlot else Closed }

  // SELECT_KEY_LUA, from candidate `from` on.
  function SelectFrom(st: Store, cs: seq<Candidate>, from: nat, w: Want): (r: (Store, Option<Winner>))
    ensures r.1.Some? ==> from <= r.1.value.index < |cs|
    decreases |cs| - from
  {
    if from >= |cs| then (st, None)
    else if Passes(st, cs[from], w) then (Reserve(st, cs[from], w), Some(Winner(from, GateOf(st, cs[from].id))))
    else SelectFrom(st, cs, from + 1, w)
  }

  function Select(st: Store, cs: seq<Candidate>, w: Want): (r: (Store, Option<Winner>))
    ensures r.1.Some? ==> r.1.value.index < |cs|
  {
    SelectFrom(st, cs, 0, w)
  }

  // ── What it answers ──────────────────────────────────────────────────────────────────────────

  predicate IsFirst(st: Store, cs: seq<Candidate>, w: Want, i: nat) {
    i < |cs| && Passes(st, cs[i], w) && forall j :: 0 <= j < i ==> !Passes(st, cs[j], w)
  }

  lemma {:induction false} SelectFromFirst(st: Store, cs: seq<Candidate>, from: nat, w: Want)
    requires from <= |cs| && forall j :: 0 <= j < from ==> !Passes(st, cs[j], w)
    ensures var (after, won) := SelectFrom(st, cs, from, w);
            && (won.None? ==> after == st && (forall j :: 0 <= j < |cs| ==> !Passes(st, cs[j], w)))
            && (won.Some? ==> IsFirst(st, cs, w, won.value.index))
            && (won.Some? ==> after == Reserve(st, cs[won.value.index], w))
            && (won.Some? ==> won.value.gate == GateOf(st, cs[won.value.index].id))
    decreases |cs| - from
  {
    if from < |cs| && !Passes(st, cs[from], w) { SelectFromFirst(st, cs, from + 1, w); }
  }

  // The keys a request can write on a candidate.
  predicate Touches(k: Key, id: string) {
    k == Probe(id) || (k.Window? && k.id == id) || k == Users(id)
  }

  predicate SameAt(st: Store, st': Store, k: Key) {
    && (k in st'.nums <==> k in st.nums) && (k in st.nums ==> st'.nums[k] == st.nums[k])
    && (k in st'.sets <==> k in st.sets) && (k in st.sets ==> st'.sets[k] == st.sets[k])
  }

  ghost predicate OnlyWrites(st: Store, st': Store, id: string) {
    st'.now == st.now && forall k: Key :: !Touches(k, id) ==> SameAt(st, st', k)
  }

  lemma {:induction false} ReserveWrites(st: Store, c: Candidate, w: Want)
    ensures OnlyWrites(st, Reserve(st, c, w), c.id)
  {
    var st1 := if OpenUntil(c.id) in st.nums then SetEx(st, Probe(c.id), 1, PROBE_TTL_SECONDS) else st;
    var st2 := AddUser(st1, c.id, w.user, w.userSeconds);
    var st3 := Count(st2, Current(Rpm, c.id, w.nowMs, WINDOW), 1, WINDOW);
    forall k: Key | !Touches(k, c.id) ensures SameAt(st, Reserve(st, c, w), k) {
      assert SameAt(st, st1, k) && SameAt(st1, st2, k) && SameAt(st2, st3, k);
    }
  }

  // The winner is the first candidate that passes everything, and there is none only when no
  // candidate does; nothing is written but the winner's own keys.
  lemma {:induction false} WinnerIsFirst(st: Store, cs: seq<Candidate>, w: Want)
    ensures var (after, won) := Select(st, cs, w);
            && (won.None? <==> forall j :: 0 <= j < |cs| ==> !Passes(st, cs[j], w))
            && (won.None? ==> after == st)
            && (won.Some? ==> IsFirst(st, cs, w, won.value.index))
            && (won.Some? ==> OnlyWrites(st, after, cs[won.value.index].id))
  {
    SelectFromFirst(st, cs, 0, w);
    var won := Select(st, cs, w).1;
    if won.Some? { ReserveWrites(st, cs[won.value.index], w); }
  }

  // One step does what the three separate ones did, asked in turn of a candidate that passes: the
  // gate, the user and the reservation all agree, and the store comes out the same.
  lemma {:induction false} OneStepIsThree(st: Store, c: Candidate, w: Want)
    requires Passes(st, c, w)
    ensures var (st1, gate) := Acquire(st, c.id, w.nowMs);
            var (st2, user) := if w.user == "" then (st1, true) else AdmitUser(st1, c.id, w.user, c.maxUsers, w.userSeconds);
            var (st3, room) := Admit(st2, c.id, c.budget, w.reserve, w.nowMs, WINDOW);
            gate == GateOf(st, c.id) && user && room && st3 == Reserve(st, c, w)
  {
    var st1 := Acquire(st, c.id, w.nowMs).0;
    SameRoom(st, st1, c, w);
    SameRoom(st, AddUser(st1, c.id, w.user, w.userSeconds), c, w);
  }

  lemma {:induction false} SameRoom(st: Store, st': Store, c: Candidate, w: Want)
    requires forall k: Key :: k.Window? ==> Get(st', k) == Get(st, k)
    ensures HasRoom(st', c.id, c.budget, w.reserve, w.nowMs, WINDOW) == HasRoom(st, c.id, c.budget, w.reserve, w.nowMs, WINDOW)
  {
  }

  // Conversely, a candidate refused by any of the three is refused here, and keeps no mark of it.
  lemma {:induction false} RefusedByOne(st: Store, c: Candidate, w: Want)
    ensures Passes(st, c, w) <==>
      && Acquire(st, c.id, w.nowMs).1 != Open
      && (w.user == "" || AdmitUser(st, c.id, w.user, c.maxUsers, w.userSeconds).1)
      && Admit(st, c.id, c.budget, w.reserve, w.nowMs, WINDOW).1
  {
  }

  // ── An estimate, and the exact count ─────────────────────────────────────────────────────────

  // A reservation is a number, or an estimate that can be counted exactly.
  datatype Tokens = Number(tokens: real) | Estimate(tokens: real, exact: real)

  // tokensFor: an estimate above some candidate's whole limit is counted at once.
  function TokensFor(t: Tokens, cs: seq<Candidate>): Tokens {
    if t.Estimate? && (exists i :: 0 <= i < |cs| && t.tokens > cs[i].budget.tpm as real) then Number(t.exact) else t
  }

  // selectAndReserve. Between its two passes other gateways may step: the second is taken from the
  // store as it is then, at the time it is then.
  function SelectTwice(st: Store, st': Store, cs: seq<Candidate>, t: Tokens, w: Want, w': Want): Option<Winner> {
    if cs == [] then None
    else
      var first := TokensFor(t, cs);
      var won := Select(st, cs, w.(reserve := Booked(first.tokens))).1;
      if won.Some? || first.Number? || first.exact >= first.tokens then won
      else Select(st', cs, w'.(reserve := Booked(first.exact))).1
  }

  lemma {:induction false} BookedGrows(a: real, b: real)
    requires a <= b
    ensures Booked(a) <= Booked(b)
  {
  }

  // Room for more tokens is room for fewer.
  lemma {:induction false} FewerPass(st: Store, c: Candidate, w: Want, fewer: int)
    requires Passes(st, c, w) && fewer <= w.reserve
    ensures Passes(st, c, w.(reserve := fewer))
  {
  }

  predicate NonePasses(st: Store, cs: seq<Candidate>, w: Want, tokens: real) {
    forall i :: 0 <= i < |cs| ==> !Passes(st, cs[i], w.(reserve := Booked(tokens)))
  }

  // Whatever happens between the passes: a request is refused exactly when no candidate passes the
  // first, and, where that was on an estimate above the exact count, none passes the second.
  lemma {:induction false} RefusedByBoth(st: Store, st': Store, cs: seq<Candidate>, t: Tokens, w: Want, w': Want)
    ensures var first := TokensFor(t, cs);
      SelectTwice(st, st', cs, t, w, w').None? <==>
        && NonePasses(st, cs, w, first.tokens)
        && (first.Estimate? && first.exact < first.tokens ==> NonePasses(st', cs, w', first.exact))
  {
    var first := TokensFor(t, cs);
    WinnerIsFirst(st, cs, w.(reserve := Booked(first.tokens)));
    if first.Estimate? { WinnerIsFirst(st', cs, w'.(reserve := Booked(first.exact))); }
  }

  // The answer of one pass, at so many tokens: the first candidate that passes, and what its gate answers;
  // or none, when none passes.
  ghost predicate Wins(st: Store, cs: seq<Candidate>, w: Want, tokens: real, won: Option<Winner>) {
    if won.None? then NonePasses(st, cs, w, tokens)
    else
      && IsFirst(st, cs, w.(reserve := Booked(tokens)), won.value.index)
      && won.value.gate == Acquire(st, cs[won.value.index].id, w.nowMs).1
  }

  lemma {:induction false} SelectWins(st: Store, cs: seq<Candidate>, w: Want, tokens: real)
    ensures Wins(st, cs, w, tokens, Select(st, cs, w.(reserve := Booked(tokens))).1)
  {
    SelectFromFirst(st, cs, 0, w.(reserve := Booked(tokens)));
  }

  // Which candidate a request gets: a number is reserved as it is; an estimate above some candidate's whole
  // limit at its exact count; any other estimate as it is, and where that is refused and the exact count
  // is less, at the exact count, in the store and at the time it is then.
  lemma {:induction false} TwicePicks(st: Store, st': Store, cs: seq<Candidate>, t: Tokens, w: Want, w': Want)
    ensures var won := SelectTwice(st, st', cs, t, w, w');
      && (t.Number? ==> Wins(st, cs, w, t.tokens, won))
      && (t.Estimate? && (exists c :: c in cs && t.tokens > c.budget.tpm as real) ==> Wins(st, cs, w, t.exact, won))
      && (t.Estimate? && (forall c :: c in cs ==> t.tokens <= c.budget.tpm as real) ==>
            if NonePasses(st, cs, w, t.tokens) && t.exact < t.tokens then Wins(st', cs, w', t.exact, won)
            else Wins(st, cs, w, t.tokens, won))
  {
    SelectWins(st, cs, w, t.tokens);
    if t.Estimate? {
      SelectWins(st, cs, w, t.exact);
      SelectWins(st', cs, w', t.exact);
      assert (exists c :: c in cs && t.tokens > c.budget.tpm as real) ==> TokensFor(t, cs) == Number(t.exact);
    }
  }

  // With nothing between the passes, and no time: refused exactly when no candidate passes at the exact
  // count, where the estimate is not below it or is counted at once; else at the estimate. So an
  // estimate that errs high refuses nothing that fits.
  lemma {:induction false} RefusedAtExactCount(st: Store, cs: seq<Candidate>, t: Tokens, w: Want)
    ensures SelectTwice(st, st, cs, t, w, w).None? <==>
      NonePasses(st, cs, w, if t.Estimate? && (t.exact <= t.tokens || TokensFor(t, cs).Number?) then t.exact else t.tokens)
  {
    var first := TokensFor(t, cs);
    RefusedByBoth(st, st, cs, t, w, w);
    if first.Estimate? && t.exact <= t.tokens {
      BookedGrows(t.exact, t.tokens);
      forall i | 0 <= i < |cs| && Passes(st, cs[i], w.(reserve := Booked(t.tokens)))
        ensures Passes(st, cs[i], w.(reserve := Booked(t.exact)))
      {
        FewerPass(st, cs[i], w.(reserve := Booked(t.tokens)), Booked(t.exact));
      }
    }
  }

  // ── The in-process twin ──────────────────────────────────────────────────────────────────────

  // tryOne, its reads: nothing here may leave a mark on a key that is refused.
  method Test(kv: Kv, c: Candidate, w: Want) returns (passes: bool, probe: bool, isNew: bool)
    modifies kv`nums, kv`sets
    ensures kv.State() == old(kv.State()) && passes == Passes(kv.State(), c, w)
    ensures probe == (OpenUntil(c.id) in kv.State().nums)
    ensures passes ==> isNew == (w.user != "" && w.user !in MembersOf(kv.State(), Users(c.id)))
  {
    passes, isNew := false, false;
    var open := kv.GetNum(OpenUntil(c.id));
    probe := open.Some?;
    if probe && w.nowMs < open.value { return; }
    if w.user != "" {
      var members := kv.GetMembers(Users(c.id));
      if w.user !in members {
        if |members| >= c.maxUsers { return; }
        isNew := true;
      }
    }
    var rpm := RateCountScript(kv, Rpm, c.id, w.nowMs, WINDOW);
    if rpm + 1.0 > c.budget.rpm as real { return; }
    var tpm := RateCountScript(kv, Tpm, c.id, w.nowMs, WINDOW);
    if tpm + w.reserve as real > c.budget.tpm as real { return; }
    if probe {
      var claimed := kv.GetNum(Probe(c.id));
      if claimed.Some? { return; }
    }
    passes := true;
  }

  // tryOne: the reads, then, once the candidate has passed, the writes.
  method TryOne(kv: Kv, c: Candidate, w: Want) returns (gate: Option<Gate>)
    requires w.userSeconds > 0
    modifies kv`nums, kv`sets
    ensures kv.State() == if Passes(old(kv.State()), c, w) then Reserve(old(kv.State()), c, w) else old(kv.State())
    ensures gate == if Passes(old(kv.State()), c, w) then Some(GateOf(old(kv.State()), c.id)) else None
  {
    var passes, probe, isNew := Test(kv, c, w);
    if !passes { return None; }
    Write(kv, c, w, probe, isNew);
    gate := Some(if probe then ProbeSlot else Closed);
  }

  method Write(kv: Kv, c: Candidate, w: Want, probe: bool, isNew: bool)
    requires w.userSeconds > 0
    requires probe == (OpenUntil(c.id) in kv.State().nums)
    requires isNew == (w.user != "" && w.user !in MembersOf(kv.State(), Users(c.id)))
    modifies kv`nums, kv`sets
    ensures kv.State() == Reserve(old(kv.State()), c, w)
  {
    if probe { kv.SetNumEx(Probe(c.id), 1, PROBE_TTL_SECONDS); }
    if isNew {
      kv.AddMember(Users(c.id), w.user);
      kv.ExpireMembers(Users(c.id), w.userSeconds);
    }
    var rcur, tcur := Current(Rpm, c.id, w.nowMs, WINDOW), Current(Tpm, c.id, w.nowMs, WINDOW);
    var _ := kv.IncrNum(rcur, 1);
    kv.ExpireNum(rcur, WINDOW * 2);
    var _ := kv.IncrNum(tcur, w.reserve);
    kv.ExpireNum(tcur, WINDOW * 2);
  }

  method SelectScript(kv: Kv, cs: seq<Candidate>, w: Want) returns (won: Option<Winner>)
    requires w.userSeconds > 0
    modifies kv`nums, kv`sets
    ensures (kv.State(), won) == Select(old(kv.State()), cs, w)
  {
    for i := 0 to |cs|
      invariant kv.State() == old(kv.State())
      invariant SelectFrom(old(kv.State()), cs, i, w) == Select(old(kv.State()), cs, w)
    {
      var gate := TryOne(kv, cs[i], w);
      if gate.Some? { return Some(Winner(i, gate.value)); }
    }
    won := None;
  }
}
