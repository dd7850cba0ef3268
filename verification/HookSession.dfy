/** One protected file through the Read, Edit or Write, and Stop hooks of a session. */
module HookSession {
  import opened Wrappers
  import opened Text
  import opened SimplifyIgnore
  import opened RoundTrip

  /** The file, its backup, its cached blocks, and the copy saved if the file is gone. */
  datatype Files = Files(disk: Option<string>, backup: Option<string>, cache: Cache, recovered: Option<string>)

  function AfterRead(h: Hash, f: Files): Files {
    if f.disk.None? || f.backup.Some? || !Contains(f.disk.value, START) then f
    else
      var cs := Chunks(Lines(f.disk.value));
      if HasBlock(cs) then
        f.(disk := Some(Filtered(h, f.disk.value)), backup := f.disk, cache := CacheOf(h, cs))
      else
        f.(cache := CacheOf(h, cs))
  }

  /** The Edit and Write hook, after the tool has written the file. It stops early without
      a backup and without cached blocks; on an empty file no expansion is produced and the
      script ends with an error before it touches the backup. */
  function AfterEdit(h: Hash, f: Files, order: seq<string>): Files {
    if f.disk.None? || f.backup.None? || f.cache == map[] || f.disk.value == "" then f
    else
      var content := Expanded(f.disk.value, order, f.cache);
      var cs := Chunks(Lines(content));
      f.(
        disk := Some(if HasBlock(cs) then Filtered(h, content) else content),
        backup := Some(content),
        cache := CacheOf(h, cs))
  }

  function AfterStop(f: Files): Files {
    if f.backup.None? then f
    else if f.disk.Some? then f.(disk := f.backup, backup := None, cache := map[])
    else f.(recovered := f.backup, backup := None, cache := map[])
  }

  /** The hooks as they change the file and the cache directory in place. */
  class HookedFile {
    const h: Hash
    var disk: Option<string>
    var backup: Option<string>
    var cache: Cache
    var recovered: Option<string>

    constructor (h: Hash, content: string)
      ensures this.h == h && State() == Files(Some(content), None, map[], None)
    {
      this.h := h;
      disk, backup, cache, recovered := Some(content), None, map[], None;
    }

    function State(): Files
      reads this
    {
      Files(disk, backup, cache, recovered)
    }

    method OnRead()
      modifies this
      ensures State() == AfterRead(h, old(State()))
    {
      if disk.None? || backup.Some? || !Contains(disk.value, START) {
        return;
      }
      backup := disk;
      var filtered, blocks, found := FilterFile(h, disk.value);
      cache := blocks;
      if found {
        disk := Some(filtered);
      } else {
        backup := None;
      }
    }

    method OnEdit(order: seq<string>)
      modifies this
      ensures State() == AfterEdit(h, old(State()), order)
    {
      if disk.None? || backup.None? || cache == map[] || disk.value == "" {
        return;
      }
      var content := ExpandFile(disk.value, order, cache);
      disk := Some(content);
      backup := Some(content);
      var filtered, blocks, found := FilterFile(h, content);
      cache := blocks;
      if found {
        disk := Some(filtered);
      }
    }

    method OnStop()
      modifies this
      ensures State() == AfterStop(old(State()))
    {
      if backup.None? {
        return;
      }
      if disk.Some? {
        disk := backup;
      } else {
        recovered := backup;
      }
      backup, cache := None, map[];
    }
  }

  // ---- Sessions ----

  datatype Op =
    | Read
    | Write(content: string, order: seq<string>)  // the tool writes content, then the hook runs
    | Stop

  function Apply(h: Hash, f: Files, op: Op): Files {
    match op
    case Read => AfterRead(h, f)
    case Write(content, order) => AfterEdit(h, f.(disk := Some(content)), order)
    case Stop => AfterStop(f)
  }

  function Session(h: Hash, f: Files, ops: seq<Op>): Files {
    if ops == [] then f else Apply(h, Session(h, f, ops[..|ops| - 1]), ops[|ops| - 1])
  }

  /** What the user has: the backup while the file is filtered, otherwise the file. */
  function Real(f: Files): Option<string> {
    if f.backup.Some? then f.backup else f.disk
  }

  /** What a write means: its content with the placeholders put back. */
  function Meant(f: Files, content: string, order: seq<string>): string {
    if f.backup.Some? then Expanded(content, order, f.cache) else content
  }

  /** What the last write of the session meant; the initial content if there was none. */
  function Intended(h: Hash, f: Files, ops: seq<Op>): Option<string> {
    if ops == [] then Real(f)
    else
      var last, front := ops[|ops| - 1], ops[..|ops| - 1];
      match last
      case Read => Intended(h, f, front)
      case Stop => Intended(h, f, front)
      case Write(content, order) => Some(Meant(Session(h, f, front), content, order))
  }

  /** The hook takes the write over: nothing was filtered, or there still is a cached block
      and the file is not empty, or the write changes nothing. */
  predicate Kept(f: Files, content: string, order: seq<string>) {
    || f.backup.None?
    || (f.cache != map[] && content != "")
    || f.backup.value == Expanded(content, order, f.cache)
  }

  predicate LastWriteKept(h: Hash, f: Files, ops: seq<Op>) {
    if ops == [] then true
    else
      var last, front := ops[|ops| - 1], ops[..|ops| - 1];
      match last
      case Read => LastWriteKept(h, f, front)
      case Stop => LastWriteKept(h, f, front)
      case Write(content, order) => Kept(Session(h, f, front), content, order)
  }

  lemma ReadKeepsReal(h: Hash, f: Files)
    ensures Real(AfterRead(h, f)) == Real(f)
  {
  }

  lemma StopKeepsReal(f: Files)
    requires f.disk.Some?
    ensures AfterStop(f).disk == Real(AfterStop(f)) == Real(f)
  {
  }

  /** A write survives to the end of the session if and only if the hook takes it over. */
  lemma WriteIsKeptExactly(h: Hash, f: Files, content: string, order: seq<string>)
    ensures Real(Apply(h, f, Write(content, order))) == Some(Meant(f, content, order)) <==> Kept(f, content, order)
  {
  }

  lemma {:induction false} RealIsIntendedExactly(h: Hash, f: Files, ops: seq<Op>)
    requires f.disk.Some?
    ensures Real(Session(h, f, ops)) == Intended(h, f, ops) <==> LastWriteKept(h, f, ops)
  {
    if ops != [] {
      var last, front := ops[|ops| - 1], ops[..|ops| - 1];
      match last
      case Read =>
        RealIsIntendedExactly(h, f, front);
        ReadKeepsReal(h, Session(h, f, front));
      case Stop =>
        RealIsIntendedExactly(h, f, front);
        DiskStays(h, f, front);
        StopKeepsReal(Session(h, f, front));
      case Write(content, order) =>
        WriteIsKeptExactly(h, Session(h, f, front), content, order);
    }
  }

  lemma {:induction false} DiskStays(h: Hash, f: Files, ops: seq<Op>)
    requires f.disk.Some?
    ensures Session(h, f, ops).disk.Some?
  {
    if ops != [] {
      DiskStays(h, f, ops[..|ops| - 1]);
    }
  }

  /** Over every sequence of hooks, with Stop anywhere in between: Stop leaves on disk
      exactly what the last write meant, if and only if the hook took that write over. */
  lemma {:induction false} StopRestoresExactly(h: Hash, f: Files, ops: seq<Op>)
    requires f.disk.Some? && f.backup.None?
    ensures var end := AfterStop(Session(h, f, ops));
      && end.backup.None? && end.disk.Some?
      && (end.disk == Intended(h, f, ops) <==> LastWriteKept(h, f, ops))
  {
    DiskStays(h, f, ops);
    RealIsIntendedExactly(h, f, ops);
  }

  /** Sessions that only read are the identity on the file. */
  lemma {:induction false} ReadOnlySessionIsIdentity(h: Hash, f: Files, ops: seq<Op>)
    requires f.disk.Some? && f.backup.None? && forall i :: 0 <= i < |ops| ==> !ops[i].Write?
    ensures AfterStop(Session(h, f, ops)).disk == f.disk
  {
    OnlyReads(h, f, ops);
    StopRestoresExactly(h, f, ops);
  }

  lemma {:induction false} OnlyReads(h: Hash, f: Files, ops: seq<Op>)
    requires forall i :: 0 <= i < |ops| ==> !ops[i].Write?
    ensures LastWriteKept(h, f, ops) && Intended(h, f, ops) == Real(f)
  {
    if ops != [] {
      OnlyReads(h, f, ops[..|ops| - 1]);
    }
  }

  /** Stop never destroys the backup: it goes to the file or, if that is gone, beside it. */
  lemma StopKeepsTheBackup(f: Files)
    requires f.backup.Some?
    ensures AfterStop(f).disk == f.backup || AfterStop(f).recovered == f.backup
    ensures AfterStop(f).disk.Some? <==> f.disk.Some?
  {
  }

  // ---- During the session the disk mirrors the backup ----

  /** The texts for which the round trip is guaranteed. */
  ghost predicate RoundTrips(h: Hash, text: string) {
    var cs := Chunks(Lines(text));
    NoCollision(h, cs) && BlocksUnmentioned(cs, CacheOf(h, cs).Keys) && PlainUnmentioned(cs, CacheOf(h, cs).Keys)
  }

  ghost predicate Mirrors(f: Files) {
    f.backup.Some? ==>
      f.disk.Some? &&
      forall order :: Lists(order, f.cache) ==> Expanded(f.disk.value, order, f.cache) == f.backup.value
  }

  /** Every write of the session reaches a filtered file that still has a block, and every
      content it produces round trips. */
  ghost predicate WellBehaved(h: Hash, f: Files, ops: seq<Op>) {
    ops == [] ||
    (var last, front := ops[|ops| - 1], ops[..|ops| - 1];
     var before := Session(h, f, front);
     && WellBehaved(h, f, front)
     && match last
        case Read => before.disk.Some? && before.backup.None? ==> RoundTrips(h, before.disk.value)
        case Stop => true
        case Write(content, order) =>
          before.backup.Some? ==>
            before.cache != map[] && content != "" && RoundTrips(h, Expanded(content, order, before.cache)))
  }

  lemma {:induction false} NoBlockNoCache(h: Hash, cs: seq<Chunk>)
    requires !HasBlock(cs)
    ensures CacheOf(h, cs) == map[]
  {
    if cs != [] {
      var front := cs[..|cs| - 1];
      assert !cs[|cs| - 1].Block? && forall i :: 0 <= i < |front| ==> front[i] == cs[i];
      NoBlockNoCache(h, front);
    }
  }

  lemma {:induction false} EmptyCacheExpandsNothing(text: string, order: seq<string>)
    ensures Expanded(text, order, map[]) == text
  {
    UnchangedLines(Lines(text), order);
    LinesRoundTrip(text);
  }

  lemma {:induction false} UnchangedLine(line: string, order: seq<string>)
    ensures ExpandKeys(line, order, map[]) == line
  {
    if order != [] {
      UnchangedLine(line, order[..|order| - 1]);
    }
  }

  lemma {:induction false} UnchangedLines(lines: seq<string>, order: seq<string>)
    ensures ExpandAll(lines, order, map[]) == lines
  {
    if lines != [] {
      UnchangedLines(lines[..|lines| - 1], order);
      UnchangedLine(lines[|lines| - 1], order);
    }
  }

  /** Filtering a text that round trips leaves the disk mirroring it. */
  lemma FilteredMirrors(h: Hash, content: string, f: Files)
    requires GoodHash(h) && RoundTrips(h, content)
    requires var cs := Chunks(Lines(content));
      f.backup == Some(content) && f.cache == CacheOf(h, cs) &&
        f.disk == Some(if HasBlock(cs) then Filtered(h, content) else content)
    ensures Mirrors(f)
  {
    var cs := Chunks(Lines(content));
    forall order | Lists(order, f.cache)
      ensures Expanded(f.disk.value, order, f.cache) == content
    {
      if HasBlock(cs) {
        RoundTripHolds(h, content, order);
      } else {
        NoBlockNoCache(h, cs);
        EmptyCacheExpandsNothing(content, order);
      }
    }
  }

  /** After every hook of a well-behaved session, expanding the file on disk gives the backup. */
  lemma {:induction false} DiskMirrorsBackup(h: Hash, f: Files, ops: seq<Op>)
    requires GoodHash(h) && f.disk.Some? && Mirrors(f) && WellBehaved(h, f, ops)
    ensures Mirrors(Session(h, f, ops))
  {
    if ops != [] {
      var last, front := ops[|ops| - 1], ops[..|ops| - 1];
      var before, after := Session(h, f, front), Session(h, f, ops);
      DiskMirrorsBackup(h, f, front);
      DiskStays(h, f, front);
      match last
      case Read =>
        if after.backup.Some? && before.backup.None? {
          FilteredMirrors(h, before.disk.value, after);
        }
      case Stop =>
      case Write(content, order) =>
        if before.backup.Some? {
          FilteredMirrors(h, Expanded(content, order, before.cache), after);
        }
    }
  }

  // ---- The guard is needed ----

  lemma ShortLine(c: char)
    requires c != '\n' && c != 'B' && c != 's'
    ensures Lines([c] + "\n") == [[c]] && Unlines([[c]]) == [c] + "\n"
    ensures !Contains([c], BLOCK) && !HasStart([c])
  {
    LinesOfLine([c], "");
    assert [c] + "\n" + "" == [c] + "\n";
    assert [[c]][1..] == [];
    forall k | 0 <= k <= 1 ensures !At([c], k, BLOCK) && !At([c], k, START) {}
  }

  lemma ShortText(h: Hash, c: char, order: seq<string>, cache: Cache)
    requires c != '\n' && c != 'B' && c != 's'
    ensures Expanded([c] + "\n", order, cache) == [c] + "\n"
    ensures !HasBlock(Chunks(Lines([c] + "\n"))) && CacheOf(h, Chunks(Lines([c] + "\n"))) == map[]
  {
    ShortLine(c);
    var lines: seq<string> := [[c]];
    assert lines[..0] == [] && lines[1..] == [];
    assert ExpandAll(lines, order, cache) == lines;
    assert Chunks(lines) == [Plain([c])];
    NoBlockNoCache(h, Chunks(lines));
  }

  /** A file with a block contains the start marker, and its cache is not empty. */
  lemma BlockShows(h: Hash, src: string)
    requires HasBlock(Chunks(Lines(src)))
    ensures Contains(src, START) && CacheOf(h, Chunks(Lines(src))) != map[]
  {
    var lines := Lines(src);
    var cs := Chunks(lines);
    var i :| 0 <= i < |cs| && cs[i].Block?;
    SourceChunks(src);
    ChunksStart(lines);
    BlockIsCached(h, cs, i);
    var line := cs[i].lines[0];
    FlattenHas(cs, i, line);
    var k :| 0 <= k < |lines| && lines[k] == line;
    LinesAreSlices(src);
    assert IsSlice(lines[k], src);
    var a: nat, b: nat :| a <= b <= |src| && line == src[a..b];
    ContainsSlice(src, a, b, START);
  }

  lemma {:induction false} BlockIsCached(h: Hash, cs: seq<Chunk>, i: nat)
    requires i < |cs| && cs[i].Block? && cs[i].lines != []
    ensures h(Join(cs[i].lines)) in CacheOf(h, cs)
  {
    if i < |cs| - 1 {
      BlockIsCached(h, cs[..|cs| - 1], i);
    }
  }

  lemma {:induction false} FlattenHas(cs: seq<Chunk>, i: nat, line: string)
    requires i < |cs| && line in Original(cs[i])
    ensures line in Flatten(cs)
  {
    if i > 0 {
      FlattenHas(cs[1..], i - 1, line);
    }
  }

  lemma LastApplied(h: Hash, f: Files, front: seq<Op>, op: Op)
    ensures Session(h, f, front + [op]) == Apply(h, Session(h, f, front), op)
  {
    assert (front + [op])[..|front|] == front;
  }

  lemma {:induction false} SessionConcat(h: Hash, f: Files, a: seq<Op>, b: seq<Op>)
    ensures Session(h, f, a + b) == Session(h, Session(h, f, a), b)
  {
    if b == [] {
      assert a + b == a;
    } else {
      var front, last := b[..|b| - 1], b[|b| - 1];
      assert a + b == (a + front) + [last];
      LastApplied(h, f, a + front, last);
      SessionConcat(h, f, a, front);
    }
  }

  /** Before the next Stop. */
  ghost predicate NoStop(ops: seq<Op>) {
    forall i :: 0 <= i < |ops| ==> !ops[i].Stop?
  }

  /** What the tool wrote last. */
  function LastWritten(ops: seq<Op>, disk: Option<string>): Option<string> {
    if ops == [] then disk
    else if ops[|ops| - 1].Write? then Some(ops[|ops| - 1].content)
    else LastWritten(ops[..|ops| - 1], disk)
  }

  /** With a backup and no cached block the hooks do nothing until Stop. */
  lemma {:induction false} Frozen(h: Hash, f: Files, ops: seq<Op>)
    requires f.backup.Some? && f.cache == map[] && f.disk.Some? && NoStop(ops)
    ensures Session(h, f, ops) == f.(disk := LastWritten(ops, f.disk))
    ensures LastWritten(ops, f.disk).Some?
  {
    if ops != [] {
      Frozen(h, f, ops[..|ops| - 1]);
    }
  }

  /** A write to a filtered file that leaves no protected block in it. */
  ghost predicate RemovesBlocks(f: Files, content: string, order: seq<string>) {
    && f.backup.Some? && f.cache != map[] && content != ""
    && !HasBlock(Chunks(Lines(Expanded(content, order, f.cache))))
  }

  /** After any write that removes the last protected block of a file, whatever is written
      before the next Stop is on disk until then, and Stop replaces it by what the removing
      write meant: later writes are lost exactly if the last one changes that. */
  lemma EditsAfterLastBlockAreLost(h: Hash, f: Files, content: string, order: seq<string>, ops: seq<Op>)
    requires RemovesBlocks(f, content, order) && NoStop(ops)
    ensures var meant := Expanded(content, order, f.cache);
      var end := Session(h, f, [Write(content, order)] + ops);
      && end.backup == Some(meant) && end.cache == map[]
      && end.disk == LastWritten(ops, Some(meant))
      && AfterStop(end).disk == Some(meant)
      && (AfterStop(end).disk == end.disk <==> LastWritten(ops, Some(meant)) == Some(meant))
  {
    var write := [Write(content, order)];
    LastApplied(h, f, [], write[0]);
    assert [] + write == write;
    NoBlockNoCache(h, Chunks(Lines(Expanded(content, order, f.cache))));
    SessionConcat(h, f, write, ops);
    Frozen(h, Session(h, f, write), ops);
  }

  /** And every file with a protected block can be brought there: read it, then overwrite it
      by one line without a block; from then on every other write is lost. */
  lemma EditAfterLastBlockIsLost(h: Hash, src: string, order: seq<string>, ops: seq<Op>)
    requires HasBlock(Chunks(Lines(src))) && NoStop(ops)
    ensures var f := Session(h, Files(Some(src), None, map[], None), [Read]);
      && RemovesBlocks(f, ['x'] + "\n", order)
      && AfterStop(Session(h, f, [Write(['x'] + "\n", order)] + ops)).disk == Some(['x'] + "\n")
  {
    var start := Files(Some(src), None, map[], None);
    BlockShows(h, src);
    LastApplied(h, start, [], Read);
    assert [] + [Read] == [Read];
    var f := Session(h, start, [Read]);
    ShortText(h, 'x', order, f.cache);
    EditsAfterLastBlockAreLost(h, f, ['x'] + "\n", order, ops);
  }

  // ---- The interior of a block does not show ----

  /** What is shown of a block depends on its first line and its hash only. */
  function ShownBlock(first: string, hash: string): string {
    Placeholder(EntryOf(first, ""), hash)
  }

  lemma {:induction false} EmittedAt(h: Hash, cs: seq<Chunk>, i: nat)
    requires i < |cs|
    ensures i < |EmitAll(h, cs)| == |cs| && EmitAll(h, cs)[i] == Emit(h, cs[i])
  {
    EmitAllLast(h, cs);
    if i < |cs| - 1 {
      EmittedAt(h, cs[..|cs| - 1], i);
    }
  }

  /** Line by line: the filtered file shows each line outside the blocks as it is and one
      placeholder for each block, made of its first line and its hash, and nothing else. */
  lemma {:induction false} FilteredLineAt(h: Hash, src: string, i: nat)
    requires GoodHash(h)
    ensures var cs, shown := Chunks(Lines(src)), Lines(Filtered(h, src));
      && |shown| == |cs|
      && (i < |cs| && cs[i].Plain? ==> shown[i] == cs[i].line)
      && (i < |cs| && cs[i].Block? ==>
        cs[i].lines != [] && shown[i] == ShownBlock(cs[i].lines[0], h(Join(cs[i].lines))))
  {
    var cs := Chunks(Lines(src));
    SourceChunks(src);
    FilteredLines(h, src);
    EmitAllLast(h, cs);
    if i < |cs| {
      EmittedAt(h, cs, i);
    }
  }

  /** Two files alike outside their blocks: the same plain lines, and blocks with the same
      first line that are given the same placeholder hash, each by its own file's hash. */
  ghost predicate SameOutside(h: Hash, a: seq<Chunk>, g: Hash, b: seq<Chunk>) {
    && |a| == |b|
    && forall i :: 0 <= i < |a| ==>
         || (a[i].Plain? && a[i] == b[i])
         || (a[i].Block? && b[i].Block? && a[i].lines != [] && b[i].lines != []
             && a[i].lines[0] == b[i].lines[0] && h(Join(a[i].lines)) == g(Join(b[i].lines)))
  }

  lemma {:induction false} SameEmitted(h: Hash, a: seq<Chunk>, g: Hash, b: seq<Chunk>)
    requires SameOutside(h, a, g, b)
    ensures EmitAll(h, a) == EmitAll(g, b)
  {
    if a != [] {
      SameEmitted(h, a[..|a| - 1], g, b[..|b| - 1]);
    }
  }

  /** Whatever the lines inside the blocks are: two files alike outside their blocks are
      filtered to the same text, so the text tells nothing about the interiors but the hash. */
  lemma {:induction false} InteriorsAreHidden(h: Hash, src: string, g: Hash, other: string)
    requires src != "" && other != ""
    requires SameOutside(h, Chunks(Lines(src)), g, Chunks(Lines(other)))
    requires EndsWithNewline(src) <==> EndsWithNewline(other)
    ensures Filtered(h, src) == Filtered(g, other)
  {
    SameEmitted(h, Chunks(Lines(src)), g, Chunks(Lines(other)));
  }
}
