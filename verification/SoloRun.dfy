/** One session on its own, and the sequential meaning of `execute`. */
module SoloRun {
  import opened Wrappers
  import opened Ledger
  import opened Protocol
  import opened PoolProgress
  import opened MaterializedView

  predicate IsLocal(pc: Pc) {
    pc.ReadProduct? || pc.ReadView? || pc.ReadDirect? || pc.Build?
  }

  /** Everything before `async with`: reads, fail-fast check, construction of the entity. */
  function FirstPhase(s: State, x: Session): Session
    decreases Rank(x.pc)
  {
    if IsLocal(x.pc) then FirstPhase(s, LocalStep(s, x)) else x
  }

  lemma {:induction false} LocalRun(w: Wiring, s: State, i: nat, c: Conn) returns (run: seq<Action>)
    requires i < |s.sessions| && c in s.free
    requires IsLocal(s.sessions[i].pc) ==> s.sessions[i].conn.None?
    ensures ValidRun(w, s, run) && Run(w, s, run) == Update(s, i, FirstPhase(s, s.sessions[i]))
    decreases Rank(s.sessions[i].pc)
  {
    var x := s.sessions[i];
    run := [];
    if IsLocal(x.pc) {
      var a, t := Step(i, c), Update(s, i, LocalStep(s, x));
      assert Apply(w, s, a) == t;
      run := LocalRun(w, t, i, c);
      SameFirstPhase(s, t, t.sessions[i]);
      assert Update(t, i, FirstPhase(t, t.sessions[i])) == Update(s, i, FirstPhase(s, x));
      run := [a] + run;
      assert run[1..] + [] == run[1..];
    } else {
      assert Update(s, i, x) == s;
    }
  }

  /** The first phase depends on the database and the clock only. */
  lemma {:induction false} SameFirstPhase(s: State, t: State, x: Session)
    requires s.products == t.products && s.log == t.log && s.view == t.view && s.now == t.now
    ensures FirstPhase(s, x) == FirstPhase(t, x)
    decreases Rank(x.pc)
  {
    if IsLocal(x.pc) {
      SameFirstPhase(s, t, LocalStep(s, x));
    }
  }

  /** The first phase in one piece: which check refuses, or the entity that is built. */
  lemma FirstPhaseUnrolled(s: State, x: Session)
    requires x.pc.ReadProduct?
    ensures var r := x.request;
      FirstPhase(s, x) ==
        if r.product !in s.products then x.(pc := Failed(ProductNotFound))
        else if Decreases(r.kind) && !StockCheckPasses(r.kind, r.quantity, CurrentStock(s.view, s.log, r.product))
        then x.(pc := Failed(InsufficientStock))
        else AfterBuild(x.(pc := Build), s.now)
  {
    var r := x.request;
    var build, direct := x.(pc := Build), x.(pc := ReadDirect);
    assert FirstPhase(s, build) == AfterBuild(build, s.now) by {
      assert FirstPhase(s, AfterBuild(build, s.now)) == AfterBuild(build, s.now);
    }
    assert FirstPhase(s, direct) == FirstPhase(s, LocalStep(s, direct));
    assert FirstPhase(s, x.(pc := ReadView)) == FirstPhase(s, LocalStep(s, x.(pc := ReadView)));
    assert FirstPhase(s, x.(pc := Failed(InsufficientStock))) == x.(pc := Failed(InsufficientStock));
  }

  /** What the unit of work comes to when nobody else holds the row lock. */
  function SecondPhasePc(s: State, x: Session): Pc {
    if Decreases(x.request.kind) &&
      !StockCheckPasses(x.request.kind, x.request.quantity, Stock(s.log, x.request.product))
    then Failed(InsufficientStock)
    else if x.movement.None? || x.movement.value.quantity > MAX_INTEGER then Failed(DatabaseError)
    else Done
  }

  function SecondPhase(s: State, i: nat): State
    requires i < |s.sessions|
  {
    var x := s.sessions[i];
    var pc := SecondPhasePc(s, x);
    var t := Update(s, i, x.(pc := pc));
    if pc.Done? then t.(log := s.log + [x.movement.value]) else t
  }

  ghost predicate CanRunSecondPhase(s: State, i: nat, c: Conn) {
    && i < |s.sessions| && c in s.free
    && s.sessions[i].pc.Enter? && s.sessions[i].conn.None?
    && s.sessions[i].request.product !in s.locks
    && forall p :: p in s.locks ==> s.locks[p] != i
  }

  /** Enter, and for a decrease lock and sum; then the session is at Insert or Rollback. */
  lemma LockedRun(s: State, i: nat, c: Conn) returns (run: seq<Action>)
    requires CanRunSecondPhase(s, i, c)
    ensures ValidRun(Bound, s, run)
    ensures var x := s.sessions[i]; var r := x.request;
      Run(Bound, s, run) ==
        Update(s, i, x.(conn := Some(c), pc := if Decreases(r.kind)
          then AfterStockCheck(r, Stock(s.log, r.product), Insert, Rollback(InsufficientStock)) else Insert))
        .(free := s.free - {c}, locks := if Decreases(r.kind) then s.locks[r.product := i] else s.locks)
  {
    var x, a := s.sessions[i], Step(i, c);
    var r := x.request;
    var y := x.(conn := Some(c));
    var t := s.(free := s.free - {c});
    if Decreases(r.kind) {
      run := Advance(Bound, s, [], s, a, Update(t, i, y.(pc := Lock)));
      var u := t.(locks := s.locks[r.product := i]);
      run := Advance(Bound, s, run, Update(t, i, y.(pc := Lock)), a, Update(u, i, y.(pc := SumLocked)));
      run := Advance(Bound, s, run, Update(u, i, y.(pc := SumLocked)), a,
        Update(u, i, y.(pc := AfterStockCheck(r, Stock(s.log, r.product), Insert, Rollback(InsufficientStock)))));
    } else {
      run := Advance(Bound, s, [], s, a, Update(t, i, y.(pc := Insert)));
    }
  }

  lemma ReleaseUndoes(s: State, i: nat, c: Conn, held: State, pc: Pc)
    requires CanRunSecondPhase(s, i, c)
    requires |held.sessions| == |s.sessions| && held.sessions[i].conn == Some(c)
    requires held.free == s.free - {c}
    requires held.locks == s.locks || held.locks == s.locks[s.sessions[i].request.product := i]
    ensures Release(held, i, pc).free == s.free && Release(held, i, pc).locks == s.locks
  {
    var after := Release(held, i, pc).locks;
    forall p ensures p in after <==> p in s.locks {}
    assert after == s.locks;
  }

  lemma SecondRun(s: State, i: nat, c: Conn) returns (run: seq<Action>)
    requires CanRunSecondPhase(s, i, c)
    ensures ValidRun(Bound, s, run) && Run(Bound, s, run) == SecondPhase(s, i)
  {
    var a := Step(i, c);
    run := LockedRun(s, i, c);
    var t := Run(Bound, s, run);
    if t.sessions[i].pc.Insert? {
      RunSnoc(Bound, s, run, a);
      run := run + [a];
      t := Run(Bound, s, run);
    }
    ReleaseUndoes(s, i, c, t, SecondPhasePc(s, s.sessions[i]));
    RunSnoc(Bound, s, run, a);
    run := run + [a];
    assert Run(Bound, s, run) == SecondPhase(s, i);
  }

  /** The sequential meaning of `execute`: the state after session i has run alone. */
  function Executed(s: State, i: nat): State
    requires i < |s.sessions|
  {
    var t := Update(s, i, FirstPhase(s, s.sessions[i]));
    if t.sessions[i].pc.Enter? then SecondPhase(t, i) else t
  }

  lemma {:induction false} FirstPhaseShape(s: State, x: Session)
    ensures var y := FirstPhase(s, x);
      y.conn == x.conn && y.request == x.request && !IsLocal(y.pc)
    decreases Rank(x.pc)
  {
    if IsLocal(x.pc) {
      FirstPhaseShape(s, LocalStep(s, x));
    }
  }

  /** A Bound session that nobody interrupts computes exactly `Executed`, and gives back
      its connection and its row lock. */
  lemma AloneIsExecuted(s: State, i: nat, c: Conn) returns (run: seq<Action>)
    requires i < |s.sessions| && c in s.free && s.sessions[i].pc.ReadProduct? && s.sessions[i].conn.None?
    requires s.sessions[i].request.product !in s.locks && forall p :: p in s.locks ==> s.locks[p] != i
    ensures ValidRun(Bound, s, run) && Run(Bound, s, run) == Executed(s, i)
    ensures Finished(Executed(s, i).sessions[i].pc)
  {
    run := LocalRun(Bound, s, i, c);
    FirstPhaseShape(s, s.sessions[i]);
    FirstPhaseEnds(s, s.sessions[i]);
    var t := Run(Bound, s, run);
    if t.sessions[i].pc.Enter? {
      var rest := SecondRun(t, i, c);
      RunConcat(Bound, s, run, rest);
      run := run + rest;
    }
  }

  // ---- Unbound ----

  ghost predicate CanRunUnbound(s: State, i: nat, hold: Conn, spare: Conn) {
    && i < |s.sessions| && hold in s.free && spare in s.free && hold != spare
    && s.sessions[i].conn.None? && s.locks == map[]
  }

  /** Enter, and for a decrease lock and sum, each statement on a connection of its own. */
  lemma UnlockedRun(s: State, i: nat, hold: Conn, spare: Conn) returns (run: seq<Action>)
    requires CanRunUnbound(s, i, hold, spare) && s.sessions[i].pc.Enter?
    ensures ValidRun(Unbound, s, run)
    ensures var x := s.sessions[i]; var r := x.request;
      Run(Unbound, s, run) ==
        Update(s, i, x.(conn := Some(hold), pc := if Decreases(r.kind)
          then AfterStockCheck(r, Stock(s.log, r.product), Insert, Rollback(InsufficientStock)) else Insert))
        .(free := s.free - {hold})
  {
    var x, enter, a := s.sessions[i], Step(i, hold), Step(i, spare);
    var r := x.request;
    var y := x.(conn := Some(hold));
    var t := s.(free := s.free - {hold});
    if Decreases(r.kind) {
      run := Advance(Unbound, s, [], s, enter, Update(t, i, y.(pc := Lock)));
      run := Advance(Unbound, s, run, Update(t, i, y.(pc := Lock)), a, Update(t, i, y.(pc := SumLocked)));
      run := Advance(Unbound, s, run, Update(t, i, y.(pc := SumLocked)), a,
        Update(t, i, y.(pc := AfterStockCheck(r, Stock(s.log, r.product), Insert, Rollback(InsufficientStock)))));
    } else {
      run := Advance(Unbound, s, [], s, enter, Update(t, i, y.(pc := Insert)));
    }
  }

  lemma UnboundSecondRun(s: State, i: nat, hold: Conn, spare: Conn) returns (run: seq<Action>)
    requires CanRunUnbound(s, i, hold, spare) && s.sessions[i].pc.Enter?
    ensures ValidRun(Unbound, s, run) && Run(Unbound, s, run) == SecondPhase(s, i)
  {
    var a := Step(i, spare);
    run := UnlockedRun(s, i, hold, spare);
    var t := Run(Unbound, s, run);
    if t.sessions[i].pc.Insert? {
      RunSnoc(Unbound, s, run, a);
      run := run + [a];
      t := Run(Unbound, s, run);
    }
    RunSnoc(Unbound, s, run, a);
    run := run + [a];
    assert s.free - {hold} + {hold} == s.free;
    assert Run(Unbound, s, run) == SecondPhase(s, i);
  }

  /** An Unbound session that nobody interrupts computes the same, given a second connection. */
  lemma AloneIsExecutedUnbound(s: State, i: nat, hold: Conn, spare: Conn) returns (run: seq<Action>)
    requires CanRunUnbound(s, i, hold, spare) && s.sessions[i].pc.ReadProduct?
    ensures ValidRun(Unbound, s, run) && Run(Unbound, s, run) == Executed(s, i)
  {
    run := LocalRun(Unbound, s, i, spare);
    FirstPhaseShape(s, s.sessions[i]);
    var t := Run(Unbound, s, run);
    if t.sessions[i].pc.Enter? {
      var rest := UnboundSecondRun(t, i, hold, spare);
      RunConcat(Unbound, s, run, rest);
      run := run + rest;
    }
  }

  lemma {:induction false} FirstPhaseEnds(s: State, x: Session)
    requires IsLocal(x.pc)
    ensures FirstPhase(s, x).pc.Enter? || FirstPhase(s, x).pc.Failed?
    decreases Rank(x.pc)
  {
    if IsLocal(LocalStep(s, x).pc) {
      FirstPhaseEnds(s, LocalStep(s, x));
    }
  }
}
