/** The view lags the log by whole commits, and never by anything else. */
module MaterializedView {
  import opened Wrappers
  import opened Ledger
  import opened Protocol

  /** v is the view of some earlier stage of the database: the first n rows of the log. */
  ghost predicate IsViewAt(s: State, v: View, n: nat) {
    n <= |s.log| && v.Keys <= s.products && forall p :: p in v ==> v[p] == Stock(s.log[..n], p)
  }

  ghost predicate ViewOk(s: State) {
    && (s.view.Some? ==> exists n :: IsViewAt(s, s.view.value, n))
    && (s.refresher.Refreshing? ==> exists n :: IsViewAt(s, s.refresher.view, n))
  }

  lemma LogOnlyGrows(w: Wiring, s: State, a: Action)
    requires Enabled(w, s, a)
    ensures s.log <= Apply(w, s, a).log && s.products <= Apply(w, s, a).products
  {
  }

  lemma StillAView(s: State, t: State, v: View, n: nat)
    requires IsViewAt(s, v, n) && s.log <= t.log && s.products <= t.products
    ensures IsViewAt(t, v, n)
  {
    assert t.log[..n] == s.log[..n];
  }

  lemma ViewOkStep(w: Wiring, s: State, a: Action)
    requires ViewOk(s) && Enabled(w, s, a)
    ensures ViewOk(Apply(w, s, a))
  {
    var t := Apply(w, s, a);
    LogOnlyGrows(w, s, a);
    if s.view.Some? {
      var n :| IsViewAt(s, s.view.value, n);
      StillAView(s, t, s.view.value, n);
    }
    if s.refresher.Refreshing? {
      var n :| IsViewAt(s, s.refresher.view, n);
      StillAView(s, t, s.refresher.view, n);
    }
    if a.RefreshStart? {
      assert t.log[..|t.log|] == t.log;
      assert IsViewAt(t, t.refresher.view, |t.log|);
    }
  }

  lemma {:induction false} ViewOkRun(w: Wiring, s: State, run: seq<Action>)
    requires ViewOk(s) && ValidRun(w, s, run)
    ensures ViewOk(Run(w, s, run))
    decreases |run|
  {
    if run != [] {
      ViewOkStep(w, s, run[0]);
      ViewOkRun(w, Apply(w, s, run[0]), run[1..]);
    }
  }

  /** `get_current_stock`: the view's row if there is one, otherwise the direct sum. */
  function CurrentStock(view: Option<View>, log: seq<Movement>, p: ProductId): int {
    if view.Some? && p in view.value then view.value[p] else Stock(log, p)
  }

  /** In every reachable state the log splits where the view was computed: view plus the
      rows committed since is the direct stock, so `get_current_stock` is exact if and only
      if the product has no row in the view or its later rows cancel out. */
  lemma ViewPlusLaterRows(w: Wiring, s: State, run: seq<Action>) returns (n: nat)
    requires ViewOk(s) && ValidRun(w, s, run)
    ensures var t := Run(w, s, run);
      && n <= |t.log|
      && (forall p :: t.view.Some? && p in t.view.value ==>
            t.view.value[p] == Stock(t.log[..n], p) &&
            t.view.value[p] + Stock(t.log[n..], p) == Stock(t.log, p))
      && (forall p :: CurrentStock(t.view, t.log, p) == Stock(t.log, p) <==>
            !(t.view.Some? && p in t.view.value) || Stock(t.log[n..], p) == 0)
  {
    ViewOkRun(w, s, run);
    var t := Run(w, s, run);
    n := 0;
    if t.view.Some? {
      n :| IsViewAt(t, t.view.value, n);
      forall p ensures Stock(t.log[..n], p) + Stock(t.log[n..], p) == Stock(t.log, p) {
        assert t.log[..n] + t.log[n..] == t.log;
        StockConcat(t.log[..n], t.log[n..], p);
      }
    }
  }

  lemma {:induction false} NoRowsNoStock(log: seq<Movement>, p: ProductId)
    requires forall k :: 0 <= k < |log| ==> log[k].product != p
    ensures Stock(log, p) == 0
  {
    if log != [] {
      NoRowsNoStock(log[..|log| - 1], p);
    }
  }

  /** In particular it is exact for every product without a movement since the view was computed. */
  lemma ExactWithoutLaterMovements(w: Wiring, s: State, run: seq<Action>) returns (n: nat)
    requires ViewOk(s) && ValidRun(w, s, run)
    ensures var t := Run(w, s, run);
      && n <= |t.log|
      && forall p :: (forall k :: n <= k < |t.log| ==> t.log[k].product != p) ==>
           CurrentStock(t.view, t.log, p) == Stock(t.log, p)
  {
    n := ViewPlusLaterRows(w, s, run);
    var t := Run(w, s, run);
    forall p | forall k :: n <= k < |t.log| ==> t.log[k].product != p
      ensures CurrentStock(t.view, t.log, p) == Stock(t.log, p)
    {
      NoRowsNoStock(t.log[n..], p);
    }
  }

  /** A refresh with no commit in between makes every answer exact, and a second one changes nothing. */
  lemma RefreshIsExactAndIdempotent(w: Wiring, s: State, c: Conn, p: ProductId)
    requires s.refresher.Idle? && s.view.Some? && c in s.free
    ensures ValidRun(w, s, [RefreshStart(c), RefreshPublish])
    ensures var t := Run(w, s, [RefreshStart(c), RefreshPublish]);
      && CurrentStock(t.view, t.log, p) == Stock(t.log, p) == Stock(s.log, p)
      && t.log == s.log && t.free == s.free && t.sessions == s.sessions
      && Enabled(w, t, RefreshStart(c))
      && Run(w, t, [RefreshStart(c), RefreshPublish]) == t
  {
    RefreshTwoSteps(w, s, c);
    RefreshTwoSteps(w, Run(w, s, [RefreshStart(c), RefreshPublish]), c);
  }

  /** A refresh that fails, at any time after its start, leaves everything as it was. */
  lemma FailedRefreshChangesNothing(w: Wiring, s: State, c: Conn)
    requires s.refresher.Idle? && s.view.Some? && c in s.free
    ensures ValidRun(w, s, [RefreshStart(c), RefreshFail]) && Run(w, s, [RefreshStart(c), RefreshFail]) == s
  {
    RunSnoc(w, s, [], RefreshStart(c));
    assert [] + [RefreshStart(c)] == [RefreshStart(c)];
    RunSnoc(w, s, [RefreshStart(c)], RefreshFail);
    assert [RefreshStart(c)] + [RefreshFail] == [RefreshStart(c), RefreshFail];
    assert s.free - {c} + {c} == s.free;
  }

  lemma RefreshTwoSteps(w: Wiring, s: State, c: Conn)
    requires s.refresher.Idle? && s.view.Some? && c in s.free
    ensures ValidRun(w, s, [RefreshStart(c), RefreshPublish])
    ensures Run(w, s, [RefreshStart(c), RefreshPublish]) == s.(view := Some(ViewOf(s.products, s.log)))
  {
    RunSnoc(w, s, [], RefreshStart(c));
    assert [] + [RefreshStart(c)] == [RefreshStart(c)];
    RunSnoc(w, s, [RefreshStart(c)], RefreshPublish);
    assert [RefreshStart(c)] + [RefreshPublish] == [RefreshStart(c), RefreshPublish];
    assert s.free - {c} + {c} == s.free;
  }
}
