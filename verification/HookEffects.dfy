/** What the hooks do to the file on disk, over every sequence of them. */
module HookEffects {
  import opened Wrappers
  import opened Text
  import opened SimplifyIgnore
  import opened RoundTrip
  import opened HookSession
  import opened Markers

  /** Some line has a start marker, and that line or a later one has an end marker. */
  ghost predicate HasClosedBlock(lines: seq<string>) {
    exists i, j :: 0 <= i <= j < |lines| && Has(lines[i], "simplify-ignore-start") &&
      Has(lines[j], "simplify-ignore-end")
  }

  lemma NoBlockInPlain(lines: seq<string>)
    ensures !HasBlock(AllPlain(lines))
  {
    forall i | 0 <= i < |AllPlain(lines)| ensures AllPlain(lines)[i].Plain? {
      PlainAt(lines, i);
    }
  }

  lemma {:induction false} PlainAt(lines: seq<string>, i: nat)
    requires i < |AllPlain(lines)|
    ensures AllPlain(lines)[i].Plain?
  {
    if i > 0 {
      PlainAt(lines[1..], i - 1);
    }
  }

  lemma ConsHasBlock(c: Chunk, cs: seq<Chunk>)
    ensures HasBlock([c] + cs) <==> c.Block? || HasBlock(cs)
  {
    var all := [c] + cs;
    assert all[0] == c && all[1..] == cs;
    if i :| 0 <= i < |cs| && cs[i].Block? {
      assert all[i + 1].Block?;
    }
    if i :| 0 <= i < |all| && all[i].Block? {
      assert i > 0 ==> cs[i - 1].Block?;
    }
  }

  lemma TailHasClosedBlock(lines: seq<string>)
    requires lines != [] && !Has(lines[0], "simplify-ignore-start")
    ensures HasClosedBlock(lines[1..]) <==> HasClosedBlock(lines)
  {
    var tail := lines[1..];
    if i, j :| 0 <= i <= j < |tail| && Has(tail[i], "simplify-ignore-start") && Has(tail[j], "simplify-ignore-end") {
      assert lines[i + 1] == tail[i] && lines[j + 1] == tail[j];
    }
    if i, j :| 0 <= i <= j < |lines| && Has(lines[i], "simplify-ignore-start") && Has(lines[j], "simplify-ignore-end") {
      assert i > 0 && lines[i] == tail[i - 1] && lines[j] == tail[j - 1];
    }
  }

  /** The filter hides something exactly when an end marker follows a start marker. */
  lemma {:induction false} HasBlockExactly(lines: seq<string>)
    ensures HasBlock(Chunks(lines)) <==> HasClosedBlock(lines)
    decreases |lines|
  {
    if lines != [] {
      ContainsExactly(lines[0], "simplify-ignore-start");
      if !HasStart(lines[0]) {
        HasBlockExactly(lines[1..]);
        ConsHasBlock(Plain(lines[0]), Chunks(lines[1..]));
        TailHasClosedBlock(lines);
      } else {
        StartCloses(lines);
      }
    }
  }

  lemma StartCloses(lines: seq<string>)
    requires lines != [] && HasStart(lines[0])
    ensures HasBlock(Chunks(lines)) <==> HasClosedBlock(lines)
  {
    ContainsExactly(lines[0], "simplify-ignore-start");
    forall i | 0 <= i < |lines| ensures HasEnd(lines[i]) <==> Has(lines[i], "simplify-ignore-end") {
      ContainsExactly(lines[i], "simplify-ignore-end");
    }
    var k := CloseOf(lines);
    if k < 0 {
      NoBlockInPlain(lines);
    } else {
      ConsHasBlock(Block(lines[..k + 1]), Chunks(lines[k + 1..]));
      assert Has(lines[0], "simplify-ignore-start") && HasEnd(lines[k]);
    }
  }

  /** The disk holds the filtered text: its lines are what is shown of the text. */
  ghost predicate ShowsOnly(h: Hash, disk: Option<string>, text: string) {
    && disk.Some? && Lines(disk.value) == Shown(h, Lines(text))
    && (EndsWithNewline(disk.value) <==> EndsWithNewline(text))
  }

  lemma FilteredShowsOnly(h: Hash, text: string)
    requires GoodHash(h)
    ensures ShowsOnly(h, Some(Filtered(h, text)), text)
  {
    FilteredIsShown(h, text);
  }

  /** After any session: a Read of a file that is not filtered yet keeps its text as backup
      and leaves on disk what is shown of it, if it has a closed block; otherwise it changes
      neither. A Read of a filtered or missing file does nothing. */
  lemma ReadEffect(h: Hash, f: Files, ops: seq<Op>)
    requires GoodHash(h)
    ensures var before, after := Session(h, f, ops), Session(h, f, ops + [Read]);
      if before.disk.Some? && before.backup.None? then
        if HasClosedBlock(Lines(before.disk.value)) then
          && after.backup == before.disk && ShowsOnly(h, after.disk, before.disk.value)
          && after.cache != map[]
        else
          after.disk == before.disk && after.backup.None?
      else after == before
  {
    LastApplied(h, f, ops, Read);
    var before := Session(h, f, ops);
    if before.disk.Some? && before.backup.None? {
      var text := before.disk.value;
      HasBlockExactly(Lines(text));
      if HasBlock(Chunks(Lines(text))) {
        BlockShows(h, text);
        FilteredShowsOnly(h, text);
      }
    }
  }

  /** After any session: the hook after a write to a filtered file takes the expanded text as
      backup, and leaves on disk what is shown of it if it has a closed block, otherwise the
      text itself; without a backup, without a cached block, and for an empty file, the write
      stays as it is. */
  lemma WriteEffect(h: Hash, f: Files, ops: seq<Op>, content: string, order: seq<string>)
    requires GoodHash(h)
    ensures var before, after := Session(h, f, ops), Session(h, f, ops + [Write(content, order)]);
      var text := Expanded(content, order, before.cache);
      if before.backup.Some? && before.cache != map[] && content != "" then
        && after.backup == Some(text)
        && if HasClosedBlock(Lines(text)) then ShowsOnly(h, after.disk, text) && after.cache != map[]
           else after.disk == Some(text) && after.cache == map[]
      else after == before.(disk := Some(content))
  {
    LastApplied(h, f, ops, Write(content, order));
    var before := Session(h, f, ops);
    if before.backup.Some? && before.cache != map[] && content != "" {
      var text := Expanded(content, order, before.cache);
      HasBlockExactly(Lines(text));
      if HasBlock(Chunks(Lines(text))) {
        BlockShows(h, text);
        FilteredShowsOnly(h, text);
      } else {
        NoBlockNoCache(h, Chunks(Lines(text)));
      }
    }
  }

  /** After any session: Stop puts the backup back, beside the file if that is gone, and
      forgets the backup and the blocks. */
  lemma StopEffect(h: Hash, f: Files, ops: seq<Op>)
    ensures var before, after := Session(h, f, ops), Session(h, f, ops + [Stop]);
      if before.backup.None? then after == before
      else
        && after.backup.None? && after.cache == map[]
        && if before.disk.Some? then after.disk == before.backup && after.recovered == before.recovered
           else after.disk.None? && after.recovered == before.backup
  {
    LastApplied(h, f, ops, Stop);
  }

  /** In every state of every session: while a block is cached, the file on disk is the backup
      with its blocks hidden, unless the tool has just emptied it. */
  lemma {:induction false} DiskIsFiltered(h: Hash, f: Files, ops: seq<Op>)
    requires GoodHash(h) && f.disk.Some? && f.backup.None?
    ensures var end := Session(h, f, ops);
      end.backup.Some? && end.cache != map[] ==>
        ShowsOnly(h, end.disk, end.backup.value) ||
          (end.disk == Some("") && exists i :: 0 <= i < |ops| && Empties(ops[i]))
  {
    if ops != [] {
      var front, last := ops[..|ops| - 1], ops[|ops| - 1];
      assert ops == front + [last];
      DiskIsFiltered(h, f, front);
      DiskStays(h, f, front);
      assert forall i :: 0 <= i < |front| && Empties(front[i]) ==> Empties(ops[i]);
      match last
      case Read => ReadEffect(h, f, front);
      case Write(content, order) => WriteEffect(h, f, front, content, order);
      case Stop => StopEffect(h, f, front);
    }
  }

  predicate Empties(op: Op) {
    op.Write? && op.content == ""
  }
}
