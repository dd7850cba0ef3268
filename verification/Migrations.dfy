/** The migration runner: what any sequence of runs, each possibly cut short by a failing
    file, does to the database. */
module Migrations {

  /** A file of the migrations directory; `version` is its name without .sql. */
  datatype File = File(version: string, sql: string)

  /** A file that took effect, or a non-transactional one that failed part of the way. */
  datatype Effect = Complete(version: string) | Partial(version: string)

  datatype Db = Db(recorded: set<string>, effects: seq<Effect>)

  datatype Progress = Progress(db: Db, applied: seq<string>, raised: bool)

  const MARKER := "-- non-transactional"

  /** What Python's `lstrip` removes. */
  predicate IsBlank(c: char) {
    || '\t' <= c <= '\r' || '\U{1c}' <= c <= ' ' || c == '\U{85}' || c == '\U{a0}' || c == '\U{1680}'
    || '\U{2000}' <= c <= '\U{200a}' || c in {'\U{2028}', '\U{2029}', '\U{202f}', '\U{205f}', '\U{3000}'}
  }

  /** `sql.lstrip().startswith("-- non-transactional")` */
  predicate NonTransactional(sql: string) {
    if sql != "" && IsBlank(sql[0]) then NonTransactional(sql[1..]) else MARKER <= sql
  }

  /** One turn of the loop; `skip` is the set of versions read before it. */
  function OneFile(skip: set<string>, p: Progress, f: File, fails: set<string>): Progress {
    var v := f.version;
    if v in skip then p
    else if NonTransactional(f.sql) then
      if v in fails then p.(db := p.db.(effects := p.db.effects + [Partial(v)]), raised := true)
      else p.(db := p.db.(effects := p.db.effects + [Complete(v)]), applied := p.applied + [v])
    else if v in fails then p.(raised := true)
    else p.(db := Db(p.db.recorded + {v}, p.db.effects + [Complete(v)]), applied := p.applied + [v])
  }

  /** The state after the first n files of one run. */
  function After(start: Db, files: seq<File>, fails: set<string>, n: nat): Progress
    requires n <= |files|
  {
    if n == 0 then Progress(start, [], false)
    else
      var p := After(start, files, fails, n - 1);
      if p.raised then p else OneFile(start.recorded, p, files[n - 1], fails)
  }

  function RunOnce(start: Db, files: seq<File>, fails: set<string>): Progress {
    After(start, files, fails, |files|)
  }

  class Database {
    var recorded: set<string>
    var effects: seq<Effect>

    constructor ()
      ensures recorded == {} && effects == []
    {
      recorded, effects := {}, [];
    }

    function State(): Db
      reads this
    {
      Db(recorded, effects)
    }

    /** `run_migrations`, over the files in name order. */
    method RunMigrations(files: seq<File>, fails: set<string>) returns (applied: seq<string>, raised: bool)
      modifies this
      ensures Progress(State(), applied, raised) == RunOnce(old(State()), files, fails)
    {
      var skip := recorded;
      applied, raised := [], false;
      for i := 0 to |files|
        invariant Progress(State(), applied, raised) == After(old(State()), files, fails, i)
        invariant !raised
      {
        var f := files[i];
        if f.version in skip {
          continue;
        }
        if NonTransactional(f.sql) {
          if f.version in fails {
            effects := effects + [Partial(f.version)];
            raised := true;
            StopsAt(old(State()), files, fails, i + 1, |files|);
            return;
          }
          effects := effects + [Complete(f.version)];
        } else {
          if f.version in fails {
            raised := true;
            StopsAt(old(State()), files, fails, i + 1, |files|);
            return;
          }
          effects := effects + [Complete(f.version)];
          recorded := recorded + {f.version};
        }
        applied := applied + [f.version];
      }
    }
  }

  lemma {:induction false} StopsAt(start: Db, files: seq<File>, fails: set<string>, i: nat, n: nat)
    requires i <= n <= |files| && After(start, files, fails, i).raised
    ensures After(start, files, fails, n) == After(start, files, fails, i)
  {
    if i < n {
      StopsAt(start, files, fails, i, n - 1);
    }
  }

  // ---- One run, in one piece ----

  /** The characters that `lstrip` removes, by number. */
  lemma BlankExactly(c: char)
    ensures IsBlank(c) <==>
      var n := c as int;
      9 <= n <= 13 || 28 <= n <= 32 || n == 133 || n == 160 || n == 5760 || 8192 <= n <= 8202 ||
      n == 8232 || n == 8233 || n == 8239 || n == 8287 || n == 12288
  {
  }

  predicate AllBlank(w: string) {
    forall i :: 0 <= i < |w| ==> IsBlank(w[i])
  }

  lemma {:induction false} MarkedIsNonTransactional(w: string, rest: string)
    requires AllBlank(w)
    ensures NonTransactional(w + "-- non-transactional" + rest)
  {
    var sql := w + "-- non-transactional" + rest;
    if w == "" {
      assert sql == "-- non-transactional" + rest && sql[0] == '-';
    } else {
      assert sql[0] == w[0] && sql[1..] == w[1..] + "-- non-transactional" + rest;
      MarkedIsNonTransactional(w[1..], rest);
    }
  }

  lemma {:induction false} NonTransactionalIsMarked(sql: string) returns (w: string, rest: string)
    requires NonTransactional(sql)
    ensures AllBlank(w) && sql == w + "-- non-transactional" + rest
  {
    if sql != "" && IsBlank(sql[0]) {
      w, rest := NonTransactionalIsMarked(sql[1..]);
      w := [sql[0]] + w;
    } else {
      w, rest := "", sql[|MARKER|..];
    }
  }

  /** A file is non-transactional if and only if its text, after blanks, begins with the marker. */
  lemma NonTransactionalExactly(sql: string)
    ensures NonTransactional(sql) <==>
      exists w: string, rest: string :: AllBlank(w) && sql == w + "-- non-transactional" + rest
  {
    hide NonTransactional;
    if NonTransactional(sql) {
      var w, rest := NonTransactionalIsMarked(sql);
    }
    if w: string, rest: string :| AllBlank(w) && sql == w + "-- non-transactional" + rest {
      MarkedIsNonTransactional(w, rest);
    }
  }

  /** The files that were not recorded when the run began, in file order. */
  function Pending(files: seq<File>, recorded: set<string>): seq<File> {
    if files == [] then []
    else
      var f := files[|files| - 1];
      Pending(files[..|files| - 1], recorded) + (if f.version in recorded then [] else [f])
  }

  /** How many of them come before the first that fails. */
  function Succeeding(todo: seq<File>, fails: set<string>): (k: nat)
    ensures k <= |todo| && (k < |todo| ==> todo[k].version in fails)
    ensures forall i :: 0 <= i < k ==> todo[i].version !in fails
  {
    if todo == [] || todo[0].version in fails then 0 else 1 + Succeeding(todo[1..], fails)
  }

  function Versions(files: seq<File>): seq<string> {
    seq(|files|, i requires 0 <= i < |files| => files[i].version)
  }

  function Completes(files: seq<File>): seq<Effect> {
    seq(|files|, i requires 0 <= i < |files| => Complete(files[i].version))
  }

  /** The versions of the transactional ones. */
  function Recordable(files: seq<File>): set<string> {
    set f | f in files && !NonTransactional(f.sql) :: f.version
  }

  /** The pending files before the first failure take effect and are returned, in file order;
      the transactional ones among them are recorded; the failing one leaves a part of itself
      if it is not transactional, and ends the run. */
  ghost predicate Ran(start: Db, todo: seq<File>, fails: set<string>, p: Progress) {
    var k := Succeeding(todo, fails);
    && p.applied == Versions(todo[..k])
    && p.raised == (k < |todo|)
    && p.db.recorded == start.recorded + Recordable(todo[..k])
    && p.db.effects == start.effects + Completes(todo[..k]) +
         (if k < |todo| && NonTransactional(todo[k].sql) then [Partial(todo[k].version)] else [])
  }

  lemma {:induction false} SucceedingSnoc(todo: seq<File>, f: File, fails: set<string>)
    ensures Succeeding(todo + [f], fails) ==
      var k := Succeeding(todo, fails);
      if k < |todo| || f.version in fails then k else k + 1
  {
    if todo == [] {
      assert [] + [f] == [f] && [f][1..] == [];
    } else {
      assert (todo + [f])[0] == todo[0] && (todo + [f])[1..] == todo[1..] + [f];
      SucceedingSnoc(todo[1..], f, fails);
    }
  }

  lemma RanOneMore(start: Db, todo: seq<File>, f: File, fails: set<string>, p: Progress)
    requires Ran(start, todo, fails, p) && f.version !in start.recorded
    ensures Ran(start, todo + [f], fails, if p.raised then p else OneFile(start.recorded, p, f, fails))
  {
    hide NonTransactional, Versions, Completes, Recordable, Succeeding;
    var more, k := todo + [f], Succeeding(todo, fails);
    SucceedingSnoc(todo, f, fails);
    if k < |todo| {
      assert more[..k] == todo[..k] && more[k] == todo[k];
    } else {
      assert todo[..k] == todo && more[..k] == todo && more[k] == f && more[..k + 1] == more;
      OneMoreListed(todo, f);
    }
  }

  lemma OneMoreListed(todo: seq<File>, f: File)
    ensures Versions(todo + [f]) == Versions(todo) + [f.version]
    ensures Completes(todo + [f]) == Completes(todo) + [Complete(f.version)]
    ensures Recordable(todo + [f]) == Recordable(todo) + (if NonTransactional(f.sql) then {} else {f.version})
  {
  }

  lemma {:induction false} RanAfter(start: Db, files: seq<File>, fails: set<string>, n: nat)
    requires n <= |files|
    ensures Ran(start, Pending(files[..n], start.recorded), fails, After(start, files, fails, n))
  {
    if n > 0 {
      assert files[..n][..n - 1] == files[..n - 1];
      RanAfter(start, files, fails, n - 1);
      var todo, f := Pending(files[..n - 1], start.recorded), files[n - 1];
      if f.version !in start.recorded {
        RanOneMore(start, todo, f, fails, After(start, files, fails, n - 1));
      } else {
        assert todo + [] == todo;
      }
    }
  }

  /** What one run does, for any database, files and failures. */
  lemma RunExactly(start: Db, files: seq<File>, fails: set<string>)
    ensures Ran(start, Pending(files, start.recorded), fails, RunOnce(start, files, fails))
  {
    RanAfter(start, files, fails, |files|);
    assert files[..|files|] == files;
  }

  /** A run that completes returns the pending files, in file order. */
  lemma CompletedRunAppliesPending(start: Db, files: seq<File>, fails: set<string>)
    requires !RunOnce(start, files, fails).raised
    ensures RunOnce(start, files, fails).applied == Versions(Pending(files, start.recorded))
  {
    hide RunOnce;
    var todo := Pending(files, start.recorded);
    RunExactly(start, files, fails);
    assert todo[..|todo|] == todo;
  }

  /** A fault-free run on a fresh database returns all files, in order. */
  lemma FreshRunAppliesAll(files: seq<File>)
    ensures !RunOnce(Db({}, []), files, {}).raised && RunOnce(Db({}, []), files, {}).applied == Versions(files)
  {
    hide RunOnce;
    RunExactly(Db({}, []), files, {});
    AllPending(files);
    CompletedRunAppliesPending(Db({}, []), files, {});
  }

  lemma {:induction false} AllPending(files: seq<File>)
    ensures Pending(files, {}) == files
  {
    if files != [] {
      AllPending(files[..|files| - 1]);
    }
  }

  // ---- Sequences of runs ----

  function Runs(start: Db, files: seq<File>, history: seq<set<string>>): Db {
    if history == [] then start
    else RunOnce(Runs(start, files, history[..|history| - 1]), files, history[|history| - 1]).db
  }

  /** The transactional versions in file order. */
  function Transactional(files: seq<File>): seq<string> {
    if files == [] then []
    else
      var f := files[|files| - 1];
      Transactional(files[..|files| - 1]) + (if NonTransactional(f.sql) then [] else [f.version])
  }

  function Other(files: seq<File>): seq<string> {
    if files == [] then []
    else
      var f := files[|files| - 1];
      Other(files[..|files| - 1]) + (if NonTransactional(f.sql) then [f.version] else [])
  }

  /** The effects that belong to the given versions, in order. */
  function EffectsOf(effects: seq<Effect>, versions: seq<string>): seq<string> {
    if effects == [] then []
    else
      var e := effects[|effects| - 1];
      EffectsOf(effects[..|effects| - 1], versions) + (if e.version in versions then [e.version] else [])
  }

  ghost predicate Distinct(files: seq<File>) {
    forall i, j :: 0 <= i < j < |files| ==> files[i].version != files[j].version
  }

  /** The transactional files that took effect are the first ones in file order, each once,
      and they are exactly the recorded ones. */
  ghost predicate Consistent(db: Db, files: seq<File>) {
    var t := Transactional(files);
    var done := EffectsOf(db.effects, t);
    done <= t && db.recorded == set v | v in done
  }

  lemma {:induction false} TransactionalPrefix(files: seq<File>, n: nat)
    requires n <= |files|
    ensures Transactional(files[..n]) <= Transactional(files)
    decreases |files| - n
  {
    if n == |files| {
      assert files[..n] == files;
    } else {
      assert files[..n + 1][..n] == files[..n];
      TransactionalPrefix(files, n + 1);
    }
  }

  lemma {:induction false} TransactionalMembers(files: seq<File>, v: string)
    ensures v in Transactional(files) <==>
      exists i :: 0 <= i < |files| && files[i].version == v && !NonTransactional(files[i].sql)
  {
    if files != [] {
      var n := |files| - 1;
      TransactionalMembers(files[..n], v);
      if i :| 0 <= i < n && files[i].version == v && !NonTransactional(files[i].sql) {
        assert files[..n][i] == files[i];
      }
    }
  }

  lemma EffectsSnoc(effects: seq<Effect>, e: Effect, versions: seq<string>)
    ensures EffectsOf(effects + [e], versions) ==
      EffectsOf(effects, versions) + (if e.version in versions then [e.version] else [])
  {
    assert (effects + [e])[..|effects|] == effects;
  }

  /** What a run has done after n files: the transactional ones among them, on top of those
      that were recorded when it began. */
  ghost predicate CaughtUp(db: Db, files: seq<File>, n: nat, before: nat)
    requires n <= |files|
  {
    var t, seen := Transactional(files), Transactional(files[..n]);
    var k := if |seen| <= before then before else |seen|;
    k <= |t| && EffectsOf(db.effects, t) == t[..k] && db.recorded == set v | v in t[..k]
  }

  /** The next file, if transactional, is the next one of the list. */
  lemma NextTransactional(files: seq<File>, n: nat)
    requires n < |files| && Distinct(files)
    ensures var t, seen := Transactional(files), Transactional(files[..n]);
      && seen <= t
      && (NonTransactional(files[n].sql) ==> Transactional(files[..n + 1]) == seen && files[n].version !in t)
      && (!NonTransactional(files[n].sql) ==>
            |seen| < |t| && t[|seen|] == files[n].version && Transactional(files[..n + 1]) == t[..|seen| + 1])
  {
    assert files[..n + 1][..n] == files[..n];
    TransactionalPrefix(files, n);
    TransactionalPrefix(files, n + 1);
    TransactionalMembers(files, files[n].version);
  }

  lemma {:induction false} TransactionalDistinct(files: seq<File>)
    requires Distinct(files)
    ensures var t := Transactional(files); forall i, j :: 0 <= i < j < |t| ==> t[i] != t[j]
  {
    if files != [] {
      var n := |files| - 1;
      TransactionalDistinct(files[..n]);
      TransactionalMembers(files[..n], files[n].version);
    }
  }

  /** A file that is not transactional adds no effect the list counts. */
  lemma CaughtUpBesides(db: Db, files: seq<File>, n: nat, before: nat, effects: seq<Effect>)
    requires Distinct(files) && n < |files| && NonTransactional(files[n].sql)
    requires CaughtUp(db, files, n, before)
    requires effects == db.effects || exists e: Effect :: e.version == files[n].version && effects == db.effects + [e]
    ensures CaughtUp(db.(effects := effects), files, n + 1, before)
  {
    NextTransactional(files, n);
    if e: Effect :| e.version == files[n].version && effects == db.effects + [e] {
      EffectsSnoc(db.effects, e, Transactional(files));
    }
  }

  /** Of the transactional files, the run skips exactly the ones recorded before it. */
  lemma SkippedExactly(files: seq<File>, n: nat, before: nat)
    requires Distinct(files) && n < |files| && before <= |Transactional(files)|
    requires !NonTransactional(files[n].sql)
    ensures files[n].version in Transactional(files)[..before] <==> |Transactional(files[..n])| < before
  {
    NextTransactional(files, n);
    TransactionalDistinct(files);
    var t, k := Transactional(files), |Transactional(files[..n])|;
    if k < before {
      assert t[..before][k] == t[k];
    }
  }

  lemma CaughtUpSkip(db: Db, files: seq<File>, n: nat, before: nat)
    requires Distinct(files) && n < |files| && before <= |Transactional(files)|
    requires !NonTransactional(files[n].sql) && |Transactional(files[..n])| < before
    requires CaughtUp(db, files, n, before)
    ensures CaughtUp(db, files, n + 1, before)
  {
    NextTransactional(files, n);
  }

  lemma CaughtUpCommit(db: Db, files: seq<File>, n: nat, before: nat)
    requires Distinct(files) && n < |files| && before <= |Transactional(files)|
    requires !NonTransactional(files[n].sql) && |Transactional(files[..n])| >= before
    requires CaughtUp(db, files, n, before)
    ensures var v := files[n].version;
      CaughtUp(Db(db.recorded + {v}, db.effects + [Complete(v)]), files, n + 1, before)
  {
    hide NonTransactional, EffectsOf, Transactional, Distinct;
    NextTransactional(files, n);
    var t, k, v := Transactional(files), |Transactional(files[..n])|, files[n].version;
    EffectsSnoc(db.effects, Complete(v), t);
    assert t[..k + 1] == t[..k] + [v];
  }

  lemma CaughtUpStep(start: Db, p: Progress, files: seq<File>, fails: set<string>, n: nat, before: nat)
    requires Distinct(files) && n < |files| && before <= |Transactional(files)| && !p.raised
    requires start.recorded == set v | v in Transactional(files)[..before]
    requires CaughtUp(p.db, files, n, before)
    ensures var q := OneFile(start.recorded, p, files[n], fails);
      (CaughtUp(q.db, files, n, before) && q.raised) || CaughtUp(q.db, files, n + 1, before)
  {
    var q := OneFile(start.recorded, p, files[n], fails);
    if NonTransactional(files[n].sql) {
      CaughtUpBesides(p.db, files, n, before, q.db.effects);
    } else {
      SkippedExactly(files, n, before);
      if |Transactional(files[..n])| < before {
        CaughtUpSkip(p.db, files, n, before);
      } else {
        CaughtUpCommit(p.db, files, n, before);
      }
    }
  }

  lemma {:induction false} CaughtUpAfter(start: Db, files: seq<File>, fails: set<string>, n: nat, before: nat)
    requires Distinct(files) && n <= |files| && before <= |Transactional(files)|
    requires start.recorded == set v | v in Transactional(files)[..before]
    requires CaughtUp(start, files, 0, before)
    ensures var p := After(start, files, fails, n);
      CaughtUp(p.db, files, n, before) || (p.raised && exists m :: 0 <= m <= n && CaughtUp(p.db, files, m, before))
  {
    if n > 0 {
      CaughtUpAfter(start, files, fails, n - 1, before);
      var p := After(start, files, fails, n - 1);
      if !p.raised {
        CaughtUpStep(start, p, files, fails, n - 1, before);
      }
    }
  }

  lemma CaughtUpIsConsistent(db: Db, files: seq<File>, n: nat, before: nat)
    requires n <= |files| && CaughtUp(db, files, n, before)
    ensures Consistent(db, files)
  {
  }

  lemma ConsistentIsCaughtUp(db: Db, files: seq<File>)
    requires Consistent(db, files)
    ensures CaughtUp(db, files, 0, |EffectsOf(db.effects, Transactional(files))|)
  {
    var t := Transactional(files);
    var done := EffectsOf(db.effects, t);
    assert files[..0] == [];
    assert t[..|done|] == done;
  }

  lemma RunKeepsConsistent(db: Db, files: seq<File>, fails: set<string>)
    requires Distinct(files) && Consistent(db, files)
    ensures Consistent(RunOnce(db, files, fails).db, files)
    ensures var p := RunOnce(db, files, fails);
      !p.raised ==> EffectsOf(p.db.effects, Transactional(files)) == Transactional(files)
  {
    var t := Transactional(files);
    var before := |EffectsOf(db.effects, t)|;
    ConsistentIsCaughtUp(db, files);
    assert t[..before] == EffectsOf(db.effects, t);
    CaughtUpAfter(db, files, fails, |files|, before);
    var p := RunOnce(db, files, fails);
    assert files[..|files|] == files;
    if p.raised {
      var m: nat :| m <= |files| && CaughtUp(p.db, files, m, before);
      CaughtUpIsConsistent(p.db, files, m, before);
    } else {
      CaughtUpIsConsistent(p.db, files, |files|, before);
      assert t[..|t|] == t;
    }
  }

  /** After any sequence of runs on a fresh database, each stopped anywhere or nowhere: the
      transactional files in effect are a prefix of the file order, none twice, and the
      recorded versions are exactly those. */
  lemma {:induction false} RunsStayConsistent(files: seq<File>, history: seq<set<string>>)
    requires Distinct(files)
    ensures Consistent(Runs(Db({}, []), files, history), files)
  {
    if history != [] {
      RunsStayConsistent(files, history[..|history| - 1]);
      RunKeepsConsistent(Runs(Db({}, []), files, history[..|history| - 1]), files, history[|history| - 1]);
    }
  }

  ghost predicate PartsAreOther(effects: seq<Effect>, files: seq<File>) {
    forall i :: 0 <= i < |effects| && effects[i].Partial? ==> effects[i].version !in Transactional(files)
  }

  lemma PartsStep(skip: set<string>, p: Progress, f: File, files: seq<File>, fails: set<string>)
    requires PartsAreOther(p.db.effects, files) && (NonTransactional(f.sql) ==> f.version !in Transactional(files))
    ensures PartsAreOther(OneFile(skip, p, f, fails).db.effects, files)
  {
    hide NonTransactional, Transactional;
  }

  lemma {:induction false} PartsAfter(db: Db, files: seq<File>, fails: set<string>, n: nat)
    requires Distinct(files) && n <= |files| && PartsAreOther(db.effects, files)
    ensures PartsAreOther(After(db, files, fails, n).db.effects, files)
  {
    if n > 0 {
      hide NonTransactional, Transactional, Distinct, OneFile, PartsAreOther;
      PartsAfter(db, files, fails, n - 1);
      NextTransactional(files, n - 1);
      PartsStep(db.recorded, After(db, files, fails, n - 1), files[n - 1], files, fails);
    }
  }

  /** A transactional file never takes effect in part, in any sequence of runs. */
  lemma {:induction false} TransactionalIsAtomic(files: seq<File>, history: seq<set<string>>)
    requires Distinct(files)
    ensures PartsAreOther(Runs(Db({}, []), files, history).effects, files)
  {
    if history != [] {
      TransactionalIsAtomic(files, history[..|history| - 1]);
      PartsAfter(Runs(Db({}, []), files, history[..|history| - 1]), files, history[|history| - 1], |files|);
    }
  }

  lemma {:induction false} RerunAfter(db: Db, files: seq<File>, n: nat)
    requires Distinct(files) && n <= |files| && db.recorded == set v | v in Transactional(files)
    ensures var p := After(db, files, {}, n);
      && !p.raised && p.applied == Other(files[..n]) && p.db.recorded == db.recorded
      && EffectsOf(p.db.effects, Transactional(files)) == EffectsOf(db.effects, Transactional(files))
      && |p.db.effects| == |db.effects| + |Other(files[..n])|
  {
    if n > 0 {
      hide NonTransactional, EffectsOf, Transactional;
      RerunAfter(db, files, n - 1);
      NextTransactional(files, n - 1);
      TransactionalMembers(files, files[n - 1].version);
      assert files[..n][..n - 1] == files[..n - 1];
      EffectsSnoc(After(db, files, {}, n - 1).db.effects, Complete(files[n - 1].version), Transactional(files));
    }
  }

  /** A fault-free run after a completed one skips every transactional file and returns
      exactly the non-transactional ones, which it executes again because they are never
      recorded: the runner is idempotent if and only if there are none. */
  lemma RerunRepeatsNonTransactional(db: Db, files: seq<File>, fails: set<string>)
    requires Distinct(files) && Consistent(db, files) && !RunOnce(db, files, fails).raised
    ensures var done := RunOnce(db, files, fails).db;
      var again := RunOnce(done, files, {});
      && !again.raised && again.applied == Other(files)
      && again.db.recorded == done.recorded
      && |again.db.effects| == |done.effects| + |Other(files)|
      && (again.db == done <==> Other(files) == [])
  {
    RunKeepsConsistent(db, files, fails);
    var done := RunOnce(db, files, fails).db;
    RerunAfter(done, files, |files|);
    assert files[..|files|] == files;
    if Other(files) == [] {
      NothingApplied(done, files, |files|);
    }
  }

  lemma {:induction false} NothingApplied(db: Db, files: seq<File>, n: nat)
    requires n <= |files| && After(db, files, {}, n).applied == [] && !After(db, files, {}, n).raised
    ensures After(db, files, {}, n).db == db
  {
    if n > 0 && !After(db, files, {}, n - 1).raised {
      if After(db, files, {}, n - 1).applied == [] {
        NothingApplied(db, files, n - 1);
      }
    }
  }
}
