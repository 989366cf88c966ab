// One writer of a reply: the listeners it holds, the writes that wait, and the caller's departure
// (src/lib/clientWriter.ts).
module ClientWriter {
  // What a wait listens for: three events of the socket, and the signal's abort.
  datatype Signal = Drain | Close | Error | Abort

  // The writer's own listener, and the one of the wait that began on a turn.
  datatype Listener = Depart | Settle(turn: nat)

  // A turn: a call of `write`, which the socket may refuse, an event, or a call of `release`.
  datatype Turn = Write(refused: bool) | Happens(signal: Signal) | Release

  // ── What should be so after some turns ───────────────────────────────────────────────────────

  predicate Ends(t: Turn) { t == Happens(Close) || t == Happens(Error) }

  // The caller was seen to go: it closed or failed while the writer was still listening.
  predicate Departed(history: seq<Turn>) {
    exists i :: 0 <= i < |history| && Ends(history[i]) && Release !in history[..i]
  }

  predicate Aborted(atStart: bool, history: seq<Turn>) { atStart || Happens(Abort) in history }

  // Writing on turn `k` waits: the socket says stop, and there is something to wait for.
  predicate Waits(emits: bool, atStart: bool, history: seq<Turn>, k: nat) {
    && k < |history| && history[k] == Write(true)
    && emits && !Departed(history[..k]) && !Aborted(atStart, history[..k])
  }

  // It waits yet: none of the four has happened since.
  predicate WaitsYet(emits: bool, atStart: bool, history: seq<Turn>, k: nat) {
    Waits(emits, atStart, history, k) && forall i :: k < i < |history| ==> !history[i].Happens?
  }

  lemma {:induction false} DepartsNext(history: seq<Turn>, t: Turn)
    ensures Departed(history + [t]) <==> Departed(history) || (Ends(t) && t !in history && Release !in history)
  {
    var later := history + [t];
    assert later[..|history|] == history && later[|history|] == t;
    if i :| 0 <= i < |history| && Ends(history[i]) && Release !in history[..i] {
      assert later[i] == history[i] && later[..i] == history[..i];
    }
    if i :| 0 <= i < |later| && Ends(later[i]) && Release !in later[..i] {
      if i < |history| {
        assert later[i] == history[i] && later[..i] == history[..i];
      } else if t in history {
        EndsUnlessReleased(history, t);
      }
    }
  }

  lemma {:induction false} NextTurn(emits: bool, atStart: bool, history: seq<Turn>, t: Turn)
    ensures Departed(history + [t]) <==> Departed(history) || (Ends(t) && t !in history && Release !in history)
    ensures forall k: nat :: WaitsYet(emits, atStart, history + [t], k) <==>
      if k == |history| then t == Write(true) && emits && !Departed(history) && !Aborted(atStart, history)
      else WaitsYet(emits, atStart, history, k) && !t.Happens?
  {
    DepartsNext(history, t);
    forall k: nat ensures WaitsYet(emits, atStart, history + [t], k) <==>
      if k == |history| then t == Write(true) && emits && !Departed(history) && !Aborted(atStart, history)
      else WaitsYet(emits, atStart, history, k) && !t.Happens?
    {
      WaitsNext(emits, atStart, history, t, k);
    }
  }

  lemma {:induction false} WaitsNext(emits: bool, atStart: bool, history: seq<Turn>, t: Turn, k: nat)
    ensures WaitsYet(emits, atStart, history + [t], k) <==>
      if k == |history| then t == Write(true) && emits && !Departed(history) && !Aborted(atStart, history)
      else WaitsYet(emits, atStart, history, k) && !t.Happens?
  {
    var later := history + [t];
    assert later[|history|] == t && forall i :: 0 <= i < |history| ==> later[i] == history[i];
    if k <= |history| { assert later[..k] == history[..k] && history[..|history|] == history; }
  }

  // Before the writer is released, no write waits for a caller that has gone: it waits only when
  // nothing but draining has happened yet.
  lemma {:induction false} NoLostWakeUp(emits: bool, atStart: bool, history: seq<Turn>, k: nat)
    requires k < |history| && history[k] == Write(true) && Release !in history[..k]
    ensures Waits(emits, atStart, history, k) <==>
      emits && !atStart && forall i :: 0 <= i < k ==> history[i].Happens? ==> history[i].signal == Drain
  {
    var before := history[..k];
    assert forall i :: 0 <= i < k ==> before[i] == history[i] && Release !in before[..i];
    if Happens(Abort) in before {
      var i :| 0 <= i < k && before[i] == Happens(Abort);
      assert history[i] == Happens(Abort);
    }
  }

  // Released or not: a refused write waits if and only if the sink emits, nothing was aborted, and no close
  // or error came before the first release.
  lemma {:induction false} WaitsExactly(emits: bool, atStart: bool, history: seq<Turn>, k: nat)
    requires k < |history| && history[k] == Write(true)
    ensures Waits(emits, atStart, history, k) <==>
      emits && !atStart && forall i :: 0 <= i < k ==>
        history[i] != Happens(Abort)
        && (history[i] == Happens(Close) || history[i] == Happens(Error) ==> exists j :: 0 <= j < i && history[j] == Release)
  {
    var before := history[..k];
    assert forall i :: 0 <= i < k ==> before[i] == history[i] && before[..i] == history[..i];
    forall i | 0 <= i < k ensures Release in before[..i] <==> exists j :: 0 <= j < i && history[j] == Release {
      if Release in before[..i] {
        var j :| 0 <= j < i && before[..i][j] == Release;
        assert history[j] == Release;
      }
      if j :| 0 <= j < i && history[j] == Release { assert before[..i][j] == Release; }
    }
    if Happens(Abort) in before {
      var i :| 0 <= i < k && before[i] == Happens(Abort);
      assert history[i] == Happens(Abort);
    }
    if i :| 0 <= i < k && history[i] == Happens(Abort) { assert before[i] == Happens(Abort); }
  }

  lemma {:induction false} EndsUnlessReleased(history: seq<Turn>, t: Turn)
    requires t in history && Ends(t) && Release !in history
    ensures Departed(history)
  {
    var i :| 0 <= i < |history| && history[i] == t;
  }

  // ── The writer ───────────────────────────────────────────────────────────────────────────────

  predicate NoRepeats(listeners: seq<Listener>) { forall i, j :: 0 <= i < j < |listeners| ==> listeners[i] != listeners[j] }

  // off and removeEventListener.
  function Without(listeners: seq<Listener>, gone: Listener): (r: seq<Listener>)
    requires NoRepeats(listeners)
    ensures NoRepeats(r) && forall l :: l in r <==> l in listeners && l != gone
  {
    if listeners == [] then []
    else if listeners[0] == gone then listeners[1..]
    else
      assert NoRepeats(listeners[1..]) && listeners[0] !in listeners[1..];
      var rest := Without(listeners[1..], gone);
      assert listeners[0] !in rest;
      [listeners[0]] + rest
  }

  type Listeners = map<Signal, seq<Listener>>

  // The listeners of a wait stand on all four lists, or on none.
  ghost predicate OnAllFour(on: Listeners, waiting: set<nat>) {
    && on.Keys == {Drain, Close, Error, Abort}
    && (forall s :: s in on ==> NoRepeats(on[s]))
    && (forall s, k :: s in on ==> (Settle(k) in on[s] <==> k in waiting))
  }

  function Added(on: Listeners, k: nat): Listeners { map s | s in on :: on[s] + [Settle(k)] }

  function Removed(on: Listeners, k: nat): Listeners
    requires forall s :: s in on ==> NoRepeats(on[s])
  {
    map s | s in on :: Without(on[s], Settle(k))
  }

  lemma {:induction false} AddWait(on: Listeners, waiting: set<nat>, k: nat)
    requires OnAllFour(on, waiting) && k !in waiting
    ensures OnAllFour(Added(on, k), waiting + {k})
    ensures forall s :: s in on ==> (Depart in Added(on, k)[s] <==> Depart in on[s])
  {
    forall s | s in on ensures NoRepeats(Added(on, k)[s]) { assert Settle(k) !in on[s]; }
  }

  lemma {:induction false} RemoveWait(on: Listeners, waiting: set<nat>, s: Signal, k: nat)
    requires OnAllFour(on, waiting) && s in on
    ensures var fired := on[s := Without(on[s], Settle(k))];
      && OnAllFour(Removed(fired, k), waiting - {k})
      && (forall x :: x in on ==> (Depart in Removed(fired, k)[x] <==> Depart in on[x]))
      && (forall m :: m in Removed(fired, k)[s] <==> m in on[s] && m != Settle(k))
  {
  }

  lemma {:induction false} RemoveDepart(on: Listeners, waiting: set<nat>, s: Signal)
    requires OnAllFour(on, waiting) && s in on
    ensures OnAllFour(on[s := Without(on[s], Depart)], waiting)
  {
  }

  // The writer's fields, and what they should be after some turns.
  datatype State = State(departed: bool, aborted: bool, on: Listeners, waiting: set<nat>)

  // Every listener held is the writer's own while it is wanted, or a wait's; a wait holds all four.
  ghost predicate Listening(emits: bool, history: seq<Turn>, w: State) {
    && OnAllFour(w.on, w.waiting)
    && (forall s :: s in w.on ==> (Depart in w.on[s] <==>
          emits && (s == Close || s == Error) && Happens(s) !in history && Release !in history))
  }

  ghost predicate InStep(emits: bool, atStart: bool, history: seq<Turn>, w: State) {
    && (w.departed <==> emits && Departed(history))
    && (w.aborted <==> Aborted(atStart, history))
    && (forall k: nat :: k in w.waiting <==> WaitsYet(emits, atStart, history, k))
    && (!emits ==> forall s :: s != Abort ==> Happens(s) !in history)
  }

  ghost predicate Fits(emits: bool, atStart: bool, history: seq<Turn>, w: State) {
    Listening(emits, history, w) && InStep(emits, atStart, history, w)
  }

  // What a call of `write` leaves.
  function AfterWrite(emits: bool, w: State, refused: bool, turn: nat): State {
    if refused && emits && !w.departed && !w.aborted
    then w.(on := Added(w.on, turn), waiting := w.waiting + {turn})
    else w
  }

  lemma {:induction false} FitsWrite(emits: bool, atStart: bool, history: seq<Turn>, w: State, refused: bool)
    requires Fits(emits, atStart, history, w)
    ensures Fits(emits, atStart, history + [Write(refused)], AfterWrite(emits, w, refused, |history|))
    ensures refused && emits && !w.departed && !w.aborted <==> Waits(emits, atStart, history + [Write(refused)], |history|)
  {
    NextTurn(emits, atStart, history, Write(refused));
    WriteListening(emits, atStart, history, w, refused);
    assert (history + [Write(refused)])[..|history|] == history;
  }

  lemma {:induction false} WriteListening(emits: bool, atStart: bool, history: seq<Turn>, w: State, refused: bool)
    requires Fits(emits, atStart, history, w)
    ensures Listening(emits, history + [Write(refused)], AfterWrite(emits, w, refused, |history|))
  {
    assert |history| !in w.waiting;
    AddWait(w.on, w.waiting, |history|);
  }

  // What an event leaves once every listener for it has been called.
  ghost predicate AfterEvent(w: State, s: Signal, w': State) {
    && OnAllFour(w.on, w.waiting) && OnAllFour(w'.on, w'.waiting) && w'.waiting == {}
    && w'.on.Keys == w.on.Keys && s in w.on
    && w'.departed == (w.departed || Depart in w.on[s])
    && w'.aborted == (w.aborted || s == Abort)
    && (forall x :: x in w'.on ==> (Depart in w'.on[x] <==> Depart in w.on[x] && x != s))
  }

  lemma {:induction false} FitsEvent(emits: bool, atStart: bool, history: seq<Turn>, w: State, s: Signal, w': State)
    requires Fits(emits, atStart, history, w) && AfterEvent(w, s, w') && (s != Abort ==> emits)
    ensures Fits(emits, atStart, history + [Happens(s)], w')
  {
    NextTurn(emits, atStart, history, Happens(s));
    assert Listening(emits, history + [Happens(s)], w');
  }

  // What a call of `release` leaves.
  function AfterRelease(emits: bool, w: State): State
    requires OnAllFour(w.on, w.waiting)
  {
    if !emits then w
    else
      RemoveDepart(w.on, w.waiting, Close);
      var on := w.on[Close := Without(w.on[Close], Depart)];
      w.(on := on[Error := Without(on[Error], Depart)])
  }

  lemma {:induction false} FitsRelease(emits: bool, atStart: bool, history: seq<Turn>, w: State)
    requires Fits(emits, atStart, history, w)
    ensures Fits(emits, atStart, history + [Release], AfterRelease(emits, w))
  {
    NextTurn(emits, atStart, history, Release);
    if emits {
      RemoveDepart(w.on, w.waiting, Close);
      RemoveDepart(w.on[Close := Without(w.on[Close], Depart)], w.waiting, Error);
    }
    assert Listening(emits, history + [Release], AfterRelease(emits, w));
  }

  // createClientWriter, over the listeners its socket and signal hold. A stand-in emits nothing.
  class ClientWriter {
    const emits: bool
    var departed: bool
    var aborted: bool
    var on: map<Signal, seq<Listener>>
    var waiting: set<nat>
    var turn: nat
    ghost const atStart: bool
    ghost var history: seq<Turn>

    ghost function Fields(): State
      reads this
    {
      State(departed, aborted, on, waiting)
    }

    ghost predicate Valid()
      reads this
    {
      turn == |history| && Fits(emits, atStart, history, Fields())
    }

    constructor (emits: bool, aborted: bool)
      ensures Valid() && history == [] && this.emits == emits && atStart == aborted
    {
      this.emits, this.aborted, this.atStart := emits, aborted, aborted;
      departed, waiting, turn, history := false, {}, 0, [];
      on := map[Drain := [], Close := if emits then [Depart] else [], Error := if emits then [Depart] else [], Abort := []];
    }

    method Gone() returns (gone: bool)
      requires Valid()
      ensures gone <==> emits && Departed(history)
    {
      gone := departed;
    }

    // write, up to where it returns or waits.
    method WriteChunk(refused: bool) returns (waits: bool)
      requires Valid()
      modifies this
      ensures Valid() && history == old(history) + [Write(refused)]
      ensures waits <==> Waits(emits, atStart, history, |old(history)|)
    {
      FitsWrite(emits, atStart, history, Fields(), refused);
      waits := refused && emits && !departed && !aborted;
      if waits {
        on := Added(on, turn);
        waiting := waiting + {turn};
      }
      history := history + [Write(refused)];
      turn := turn + 1;
    }

    // One listener is taken off and called. That of a wait takes itself off everything: it is over.
    method Call(s: Signal, l: Listener)
      requires OnAllFour(on, waiting) && s in on && l in on[s]
      modifies this`on, this`waiting, this`departed
      ensures OnAllFour(on, waiting)
      ensures departed == (old(departed) || l == Depart)
      ensures waiting == if l.Settle? then old(waiting) - {l.turn} else old(waiting)
      ensures forall x :: x in on ==> (Depart in on[x] <==> Depart in old(on)[x] && !(x == s && l == Depart))
      ensures forall m :: m in on[s] <==> m in old(on)[s] && m != l
    {
      match l
      case Depart =>
        RemoveDepart(on, waiting, s);
        on := on[s := Without(on[s], Depart)];
        departed := true;
      case Settle(k) =>
        RemoveWait(on, waiting, s, k);
        on := on[s := Without(on[s], l)];
        on := Removed(on, k);
        waiting := waiting - {k};
    }

    // An event: each listener there is for it is taken off and called.
    method Emit(s: Signal)
      requires OnAllFour(on, waiting)
      modifies this`on, this`waiting, this`departed
      ensures OnAllFour(on, waiting) && waiting == {}
      ensures departed == (old(departed) || Depart in old(on)[s])
      ensures forall x :: x in on ==> (Depart in on[x] <==> Depart in old(on)[x] && x != s)
    {
      var batch := on[s];
      for i := 0 to |batch|
        invariant OnAllFour(on, waiting)
        invariant forall m :: m in on[s] <==> m in batch[i..]
        invariant departed == (old(departed) || Depart in batch[..i])
        invariant forall x :: x in on && x != s ==> (Depart in on[x] <==> Depart in old(on)[x])
      {
        assert batch[i..] == [batch[i]] + batch[i + 1..] && batch[..i + 1] == batch[..i] + [batch[i]];
        assert batch[i] !in batch[i + 1..];
        Call(s, batch[i]);
      }
      assert batch[..|batch|] == batch && batch[|batch|..] == [];
      assert forall k :: Settle(k) !in on[s];
    }

    method Happen(s: Signal)
      requires Valid() && (s != Abort ==> emits)
      modifies this
      ensures Valid() && history == old(history) + [Happens(s)]
      ensures waiting == {}
    {
      ghost var was := Fields();
      if s == Abort { aborted := true; }
      Emit(s);
      assert s in was.on;
      FitsEvent(emits, atStart, history, was, s, Fields());
      history := history + [Happens(s)];
      turn := turn + 1;
    }

    method ReleaseListeners()
      requires Valid()
      modifies this
      ensures Valid() && history == old(history) + [Release]
      ensures waiting == old(waiting)
    {
      ghost var was := Fields();
      FitsRelease(emits, atStart, history, was);
      if emits {
        RemoveDepart(on, waiting, Close);
        on := on[Close := Without(on[Close], Depart)];
        on := on[Error := Without(on[Error], Depart)];
      }
      assert Fields() == AfterRelease(emits, was);
      history := history + [Release];
      turn := turn + 1;
    }

    // Released and with every wait over, no listener of the writer's remains anywhere.
    lemma {:induction false} NothingLeft(s: Signal)
      requires Valid() && Release in history && waiting == {} && s in on
      ensures on[s] == []
    {
      assert on[s] != [] ==> on[s][0] in on[s];
      forall l: Listener ensures l !in on[s] {
        match l
        case Depart =>
        case Settle(k) => assert Settle(k) in on[s] <==> k in waiting;
      }
    }
  }
}
