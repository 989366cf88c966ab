// What the two counters of a limit say of the trailing window (src/lib/rateWindow.ts), and what admission
// grants by them (src/lib/admission.ts:81-103).
module RateWindow {
  import opened Options
  import opened KvStore
  import opened Admission

  // The counter of window i.
  function CountedIn(st: Store, limit: Limit, id: string, i: int): int { Get(st, Window(limit, id, i)).GetOr(0) }

  // Windows of `window` seconds; an instant `off` milliseconds into window i.
  ghost predicate Within(window: nat, i: nat, off: nat, nowMs: nat) {
    window > 0 && off < window * 1000 && nowMs == i * (window * 1000) + off
  }

  lemma {:induction false} DivideBack(span: nat, i: nat, off: nat)
    requires off < span
    ensures (i * span + off) / span == i && (i * span + off) % span == off
  {
    var n := i * span + off;
    var q, r := n / span, n % span;
    assert n == q * span + r;
    if q < i { Apart(q, i, span); }
    if q > i { Apart(i, q, span); }
  }

  lemma {:induction false} Apart(a: int, b: int, span: nat)
    requires a < b
    ensures a * span + span <= b * span
  {
    assert (b - a - 1) * span >= 0;
  }

  // The trailing count is the window's own counter and, of the one before, the share that is still in
  // range: all of it at the window's first instant, none at its end.
  lemma {:induction false} TrailingCount(st: Store, limit: Limit, id: string, window: nat, i: nat, off: nat, nowMs: nat)
    requires Within(window, i, off, nowMs)
    ensures var span := window * 1000;
            RateCount(st, limit, id, nowMs, window)
            == CountedIn(st, limit, id, i) as real + CountedIn(st, limit, id, i - 1) as real * ((span - off) as real / span as real)
  {
    var span := window * 1000;
    DivideBack(span, i, off);
    DivideMinus(span as real, off as real);
  }

  lemma {:induction false} DivideMinus(a: real, b: real)
    requires a != 0.0
    ensures (a - b) / a == 1.0 - b / a
  {
    var p, q := (a - b) / a, b / a;
    assert p * a == a - b && q * a == b;
    Spread(p, q, a);
    NoFactor(p + q - 1.0, a);
  }

  lemma {:induction false} Spread(p: real, q: real, a: real)
    ensures (p + q - 1.0) * a == p * a + q * a - a
  {
  }

  lemma {:induction false} NoFactor(x: real, a: real)
    requires a != 0.0 && x * a == 0.0
    ensures x == 0.0
  {
  }

  // A lesser share of what was counted before.
  lemma {:induction false} LesserShare(cur: real, prev: real, less: real, more: real, low: real, high: real)
    requires prev >= 0.0 && 0.0 <= less <= more
    requires low == cur + prev * less && high == cur + prev * more
    ensures cur <= low <= high
  {
    MoreOf(prev, 0.0, less);
    MoreOf(prev, less, more);
  }

  lemma {:induction false} ShareOrder(a: nat, b: nat, span: nat)
    requires span > 0 && a <= b
    ensures 0.0 <= a as real / span as real <= b as real / span as real
  {
  }

  lemma {:induction false} MoreOf(x: real, a: real, b: real)
    requires x >= 0.0 && a <= b
    ensures x * a <= x * b
  {
    assert x * (b - a) >= 0.0;
  }

  // The trailing count at an instant of a window that has come so far.
  ghost predicate CountsAt(st: Store, limit: Limit, id: string, window: nat, i: nat, off: nat, count: real) {
    && window > 0 && off < window * 1000
    && forall nowMs: nat :: Within(window, i, off, nowMs) ==> count == RateCount(st, limit, id, nowMs, window)
  }

  lemma {:induction false} CountAt(st: Store, limit: Limit, id: string, window: nat, i: nat, off: nat) returns (count: real, share: real)
    requires window > 0 && off < window * 1000
    ensures CountsAt(st, limit, id, window, i, off, count)
    ensures share == (window * 1000 - off) as real / (window * 1000) as real
    ensures count == CountedIn(st, limit, id, i) as real + CountedIn(st, limit, id, i - 1) as real * share
  {
    share := (window * 1000 - off) as real / (window * 1000) as real;
    count := CountedIn(st, limit, id, i) as real + CountedIn(st, limit, id, i - 1) as real * share;
    forall nowMs: nat | Within(window, i, off, nowMs) ensures count == RateCount(st, limit, id, nowMs, window) {
      TrailingCount(st, limit, id, window, i, off, nowMs);
    }
  }

  lemma {:induction false} CountsFall(st: Store, limit: Limit, id: string, window: nat, i: nat, off: nat, later: nat)
      returns (cur: real, low: real, high: real)
    requires window > 0 && off <= later < window * 1000 && CountedIn(st, limit, id, i - 1) >= 0
    ensures cur == CountedIn(st, limit, id, i) as real && cur <= low <= high
    ensures CountsAt(st, limit, id, window, i, off, high) && CountsAt(st, limit, id, window, i, later, low)
  {
    var more, less;
    cur := CountedIn(st, limit, id, i) as real;
    high, more := CountAt(st, limit, id, window, i, off);
    low, less := CountAt(st, limit, id, window, i, later);
    ShareOrder(window * 1000 - later, window * 1000 - off, window * 1000);
    LesserShare(cur, CountedIn(st, limit, id, i - 1) as real, less, more, low, high);
  }

  // At a window's first instant the whole of both counters counts.
  lemma {:induction false} WholeAtFirst(st: Store, limit: Limit, id: string, window: nat, i: nat, nowMs: nat)
    requires Within(window, i, 0, nowMs)
    ensures RateCount(st, limit, id, nowMs, window) == (CountedIn(st, limit, id, i) + CountedIn(st, limit, id, i - 1)) as real
  {
    TrailingCount(st, limit, id, window, i, 0, nowMs);
    var span := window * 1000;
    assert (span - 0) as real / span as real == 1.0;
  }

  // With nothing counted it never rises inside a window, nor falls below the window's own counter.
  lemma {:induction false} NeverRises(st: Store, limit: Limit, id: string, window: nat, i: nat, off: nat, later: nat, nowMs: nat, laterMs: nat)
    requires Within(window, i, off, nowMs) && Within(window, i, later, laterMs) && off <= later
    requires CountedIn(st, limit, id, i - 1) >= 0
    ensures CountedIn(st, limit, id, i) as real <= RateCount(st, limit, id, laterMs, window) <= RateCount(st, limit, id, nowMs, window)
  {
    var cur, low, high := CountsFall(st, limit, id, window, i, off, later);
    assert high == RateCount(st, limit, id, nowMs, window) && low == RateCount(st, limit, id, laterMs, window);
  }

  lemma {:induction false} OneOf(x: real, a: real)
    requires a != 0.0
    ensures x * (1.0 / a) == x / a
  {
    var q, y := 1.0 / a, x / a;
    assert q * a == 1.0 && y * a == x;
    assert (x * q - y) * a == x * (q * a) - y * a;
    NoFactor(x * q - y, a);
  }

  // Nor does it jump from one window to the next: in the last millisecond it is the window's own counter,
  // which the next one then starts from, and one part in the window's milliseconds of the one before.
  lemma {:induction false} NoJump(st: Store, limit: Limit, id: string, window: nat, i: nat, lastMs: nat, firstMs: nat)
    requires window > 0 && Within(window, i, window * 1000 - 1, lastMs) && Within(window, i + 1, 0, firstMs)
    requires CountedIn(st, limit, id, i + 1) == 0
    ensures firstMs == lastMs + 1
    ensures RateCount(st, limit, id, lastMs, window) - RateCount(st, limit, id, firstMs, window)
         == CountedIn(st, limit, id, i - 1) as real / (window * 1000) as real
  {
    var last := LastCount(st, limit, id, window, i);
    assert last == RateCount(st, limit, id, lastMs, window);
    WholeAtFirst(st, limit, id, window, i + 1, firstMs);
    NextWindow(window * 1000, i);
  }

  lemma {:induction false} LastCount(st: Store, limit: Limit, id: string, window: nat, i: nat) returns (last: real)
    requires window > 0
    ensures CountsAt(st, limit, id, window, i, window * 1000 - 1, last)
    ensures last == CountedIn(st, limit, id, i) as real + CountedIn(st, limit, id, i - 1) as real / (window * 1000) as real
  {
    var share;
    last, share := CountAt(st, limit, id, window, i, window * 1000 - 1);
    OneOf(CountedIn(st, limit, id, i - 1) as real, (window * 1000) as real);
  }

  lemma {:induction false} NextWindow(span: nat, i: nat)
    ensures (i + 1) * span == i * span + span
  {
  }

  // ── What admission grants ────────────────────────────────────────────────────────────────────

  // One more request and its tokens in window i, in counters that live two windows more; nothing else.
  ghost predicate CountedOnce(st: Store, after: Store, id: string, reserve: int, window: nat, i: nat) {
    && after == st.(nums := after.nums)
    && (forall k :: k != Window(Rpm, id, i) && k != Window(Tpm, id, i) ==> Get(after, k) == Get(st, k))
    && Window(Rpm, id, i) in after.nums && Window(Tpm, id, i) in after.nums
    && after.nums[Window(Rpm, id, i)] == Cell(CountedIn(st, Rpm, id, i) + 1, Some(st.now + 2 * window * 1000))
    && after.nums[Window(Tpm, id, i)] == Cell(CountedIn(st, Tpm, id, i) + reserve, Some(st.now + 2 * window * 1000))
  }

  // So much more fits beside what is counted in window i and, of the window before, the share that is
  // still in range.
  ghost predicate Fits(st: Store, limit: Limit, id: string, more: int, bound: int, window: nat, i: nat, off: nat)
    requires window > 0
  {
    CountedIn(st, limit, id, i) as real
    + CountedIn(st, limit, id, i - 1) as real * ((window * 1000 - off) as real / (window * 1000) as real)
    + more as real <= bound as real
  }

  lemma {:induction false} RoomIfFits(st: Store, limit: Limit, id: string, more: int, bound: int, window: nat, i: nat, off: nat, nowMs: nat)
    requires Within(window, i, off, nowMs)
    ensures RateCount(st, limit, id, nowMs, window) + more as real <= bound as real <==> Fits(st, limit, id, more, bound, window, i, off)
  {
    TrailingCount(st, limit, id, window, i, off, nowMs);
  }

  // A request is admitted if and only if one more request, and its tokens, fit their limits; it is then
  // counted in both counters. A refusal changes nothing.
  lemma {:induction false} GrantedIfItFits(st: Store, id: string, b: Budget, reserve: int, window: nat, i: nat, off: nat, nowMs: nat)
    requires Within(window, i, off, nowMs)
    ensures var (after, granted) := Admit(st, id, b, reserve, nowMs, window);
            && (granted <==> Fits(st, Rpm, id, 1, b.rpm, window, i, off) && Fits(st, Tpm, id, reserve, b.tpm, window, i, off))
            && (if granted then CountedOnce(st, after, id, reserve, window, i) else after == st)
  {
    RoomIfFits(st, Rpm, id, 1, b.rpm, window, i, off, nowMs);
    RoomIfFits(st, Tpm, id, reserve, b.tpm, window, i, off, nowMs);
    if Admit(st, id, b, reserve, nowMs, window).1 { GrantCounts(st, id, b, reserve, window, i, off, nowMs); }
  }

  lemma {:induction false} GrantCounts(st: Store, id: string, b: Budget, reserve: int, window: nat, i: nat, off: nat, nowMs: nat)
    requires Within(window, i, off, nowMs) && Admit(st, id, b, reserve, nowMs, window).1
    ensures CountedOnce(st, Admit(st, id, b, reserve, nowMs, window).0, id, reserve, window, i)
  {
    DivideBack(window * 1000, i, off);
  }

  // So a request admitted leaves both trailing counts within their limits, then and to the end of its
  // window, until something more is counted.
  lemma {:induction false} GrantedWithin(st: Store, id: string, b: Budget, reserve: int, window: nat, i: nat, off: nat, nowMs: nat,
                                         later: nat, laterMs: nat)
    requires Within(window, i, off, nowMs) && Within(window, i, later, laterMs) && off <= later
    requires Admit(st, id, b, reserve, nowMs, window).1
    requires CountedIn(st, Rpm, id, i - 1) >= 0 && CountedIn(st, Tpm, id, i - 1) >= 0
    ensures var after := Admit(st, id, b, reserve, nowMs, window).0;
            && RateCount(after, Rpm, id, laterMs, window) <= b.rpm as real
            && RateCount(after, Tpm, id, laterMs, window) <= b.tpm as real
  {
    GrantedIfItFits(st, id, b, reserve, window, i, off, nowMs);
    var after := Admit(st, id, b, reserve, nowMs, window).0;
    CountsMore(st, after, Rpm, id, 1, window, i, off, nowMs);
    CountsMore(st, after, Tpm, id, reserve, window, i, off, nowMs);
    TrailingCount(st, Rpm, id, window, i, off, nowMs);
    TrailingCount(st, Tpm, id, window, i, off, nowMs);
    NeverRises(after, Rpm, id, window, i, off, later, nowMs, laterMs);
    NeverRises(after, Tpm, id, window, i, off, later, nowMs, laterMs);
  }

  lemma {:induction false} CountsMore(st: Store, after: Store, limit: Limit, id: string, more: int, window: nat, i: nat, off: nat, nowMs: nat)
    requires Within(window, i, off, nowMs) && CountedIn(after, limit, id, i) == CountedIn(st, limit, id, i) + more
    requires CountedIn(after, limit, id, i - 1) == CountedIn(st, limit, id, i - 1)
    ensures RateCount(after, limit, id, nowMs, window) == RateCount(st, limit, id, nowMs, window) + more as real
  {
    DivideBack(window * 1000, i, off);
  }

  // No burst over a boundary: at a window's first instant a request is refused while the one before is full.
  lemma {:induction false} FullBefore(st: Store, id: string, b: Budget, reserve: int, window: nat, i: nat, nowMs: nat)
    requires Within(window, i, 0, nowMs)
    requires CountedIn(st, Rpm, id, i) >= 0 && CountedIn(st, Rpm, id, i - 1) >= b.rpm
    ensures Admit(st, id, b, reserve, nowMs, window) == (st, false)
  {
    WholeAtFirst(st, Rpm, id, window, i, nowMs);
  }
}
