/** The filter and the expansion of `simplify-ignore.sh`, and what they mean. */
module SimplifyIgnore {
  import opened Text

  const START := "simplify-ignore-start"
  const START_REASON := "simplify-ignore-start:"
  const END := "simplify-ignore-end"
  const BLOCK := "BLOCK_"

  /** `block_hash`: eight hexadecimal digits of a digest. */
  type Hash = string -> string

  predicate HexDigit(c: char) {
    '0' <= c <= '9' || 'a' <= c <= 'f'
  }

  predicate HexWord(s: string) {
    |s| == 8 && forall i :: 0 <= i < 8 ==> HexDigit(s[i])
  }

  ghost predicate GoodHash(h: Hash) {
    forall s :: HexWord(h(s))
  }

  predicate HasStart(line: string) { Contains(line, START) }

  predicate HasEnd(line: string) { Contains(line, END) }

  // ---- What a placeholder keeps of the first line of its block ----

  /** `${line%%simplify-ignore-start*}` */
  function Prefix(line: string): string {
    var k := Find(line, START, 0);
    if k < 0 then line else line[..k]
  }

  function Suffix(line: string): string {
    if Contains(line, "*/") then " */"
    else if Contains(line, "-->") then " -->"
    else ""
  }

  predicate IsSpace(c: char) {
    c == ' ' || '\t' <= c <= '\r'
  }

  function SkipSpaces(line: string, lo: nat): (r: nat)
    requires lo <= |line|
    ensures lo <= r <= |line|
    decreases |line| - lo
  {
    if lo < |line| && IsSpace(line[lo]) then SkipSpaces(line, lo + 1) else lo
  }

  function TrimEnd(line: string, lo: nat, hi: nat): (r: nat)
    requires lo <= hi <= |line|
    ensures lo <= r <= hi
  {
    if lo < hi && IsSpace(line[hi - 1]) then TrimEnd(line, lo, hi - 1) else hi
  }

  /** `s/[[:space:]]*<pat>.*$//` on line[lo..hi]: the new end. */
  function CutBefore(line: string, lo: nat, hi: nat, pat: string): (r: nat)
    requires lo <= hi <= |line|
    ensures lo <= r <= hi
  {
    var k := Find(line[..hi], pat, lo);
    if k < 0 then hi else TrimEnd(line, lo, k)
  }

  function FindLast(s: string, pat: string, from: nat): (r: int)
    ensures r == -1 || (0 <= r && At(s, r, pat))
  {
    if At(s, from, pat) then from
    else if from == 0 then -1
    else FindLast(s, pat, from - 1)
  }

  /** The text after the last `simplify-ignore-start:`, without comment closers. */
  function Reason(line: string): string {
    var k := FindLast(line, START_REASON, |line|);
    if k < 0 then ""
    else
      var lo := SkipSpaces(line, k + |START_REASON|);
      var a := CutBefore(line, lo, |line|, "*/");
      var b := CutBefore(line, lo, a, "-->");
      line[lo..TrimEnd(line, lo, b)]
  }

  /** The four cache files of one block. */
  datatype Entry = Entry(content: string, prefix: string, suffix: string, reason: string)

  type Cache = map<string, Entry>

  function EntryOf(first: string, content: string): Entry {
    Entry(content, Prefix(first), Suffix(first), Reason(first))
  }

  function Placeholder(e: Entry, hash: string): string {
    e.prefix + (BLOCK + (hash + ((if e.reason != "" then ": " + e.reason else "") + e.suffix)))
  }

  // ---- What a file is made of ----

  datatype Chunk =
    | Plain(line: string)
    | Block(lines: seq<string>)  // from a start marker to the end marker that closes it

  function FindEnd(lines: seq<string>, i: nat): (r: int)
    requires i <= |lines|
    ensures r == -1 || (i <= r < |lines| && HasEnd(lines[r]))
    ensures forall k :: i <= k < (if r == -1 then |lines| else r) ==> !HasEnd(lines[k])
    decreases |lines| - i
  {
    if i == |lines| then -1
    else if HasEnd(lines[i]) then i
    else FindEnd(lines, i + 1)
  }

  /** The index of the line that closes the block opened on lines[0], or -1. */
  function CloseOf(lines: seq<string>): (r: int)
    requires lines != []
    ensures -1 <= r < |lines|
  {
    if HasEnd(lines[0]) then 0 else FindEnd(lines, 1)
  }

  function AllPlain(lines: seq<string>): seq<Chunk> {
    if lines == [] then [] else [Plain(lines[0])] + AllPlain(lines[1..])
  }

  function Chunks(lines: seq<string>): seq<Chunk>
    decreases |lines|
  {
    if lines == [] then []
    else if !HasStart(lines[0]) then [Plain(lines[0])] + Chunks(lines[1..])
    else
      var k := CloseOf(lines);
      if k < 0 then AllPlain(lines)
      else [Block(lines[..k + 1])] + Chunks(lines[k + 1..])
  }

  /** The one line shown for a chunk. */
  function Emit(h: Hash, c: Chunk): string {
    match c
    case Plain(line) => line
    case Block(lines) =>
      if lines == [] then ""
      else Placeholder(EntryOf(lines[0], Join(lines)), h(Join(lines)))
  }

  function EmitAll(h: Hash, cs: seq<Chunk>): seq<string> {
    if cs == [] then [] else EmitAll(h, cs[..|cs| - 1]) + [Emit(h, cs[|cs| - 1])]
  }

  function CacheOf(h: Hash, cs: seq<Chunk>): Cache {
    if cs == [] then map[]
    else
      var c, rest := cs[|cs| - 1], CacheOf(h, cs[..|cs| - 1]);
      if c.Block? && c.lines != [] then rest[h(Join(c.lines)) := EntryOf(c.lines[0], Join(c.lines))]
      else rest
  }

  predicate HasBlock(cs: seq<Chunk>) {
    exists i :: 0 <= i < |cs| && cs[i].Block?
  }

  /** What the filter shows of a file. */
  function Filtered(h: Hash, src: string): string {
    MatchTrailingNewline(Unlines(EmitAll(h, Chunks(Lines(src)))), src)
  }

  // ---- The filter loop ----

  lemma {:induction false} EmitSnoc(h: Hash, cs: seq<Chunk>, c: Chunk)
    ensures Unlines(EmitAll(h, cs + [c])) == Unlines(EmitAll(h, cs)) + (Emit(h, c) + "\n")
    ensures CacheOf(h, cs + [c]) ==
      if c.Block? && c.lines != [] then CacheOf(h, cs)[h(Join(c.lines)) := EntryOf(c.lines[0], Join(c.lines))]
      else CacheOf(h, cs)
    ensures HasBlock(cs + [c]) <==> HasBlock(cs) || c.Block?
  {
    assert (cs + [c])[..|cs|] == cs;
    UnlinesSnoc(EmitAll(h, cs), Emit(h, c));
    if c.Block? {
      assert (cs + [c])[|cs|].Block?;
    }
    if i :| 0 <= i < |cs| && cs[i].Block? {
      assert (cs + [c])[i].Block?;
    }
  }

  lemma {:induction false} EmitPlain(h: Hash, cs: seq<Chunk>, lines: seq<string>)
    ensures Unlines(EmitAll(h, cs + AllPlain(lines))) == Unlines(EmitAll(h, cs)) + Unlines(lines)
    ensures CacheOf(h, cs + AllPlain(lines)) == CacheOf(h, cs)
    ensures HasBlock(cs + AllPlain(lines)) <==> HasBlock(cs)
    decreases |lines|
  {
    if lines == [] {
      assert cs + [] == cs;
    } else {
      var c := Plain(lines[0]);
      hide Unlines, EmitAll, CacheOf, HasBlock;
      assert cs + AllPlain(lines) == (cs + [c]) + AllPlain(lines[1..]);
      EmitSnoc(h, cs, c);
      EmitPlain(h, cs + [c], lines[1..]);
      UnlinesCons(lines);
      Associative(Unlines(EmitAll(h, cs)), lines[0] + "\n", Unlines(lines[1..]));
    }
  }

  /** The loop is at lines[i..] with the block opened on lines[j] still open. */
  ghost predicate Open(lines: seq<string>, j: nat, i: nat) {
    j < i <= |lines| && HasStart(lines[j]) && forall k :: j <= k < i ==> !HasEnd(lines[k])
  }

  lemma OpenCloseOf(lines: seq<string>, j: nat, i: nat)
    requires Open(lines, j, i)
    ensures i == |lines| ==> CloseOf(lines[j..]) == -1
    ensures i < |lines| && HasEnd(lines[i]) ==> CloseOf(lines[j..]) == i - j
  {
    hide HasStart, HasEnd;
    var rest := lines[j..];
    forall m | 0 <= m < |rest| ensures rest[m] == lines[j + m] {}
    assert i < |lines| ==> lines[i] == rest[i - j];
  }

  lemma OpenCloses(lines: seq<string>, j: nat, i: nat)
    requires Open(lines, j, i)
    ensures i == |lines| ==> Chunks(lines[j..]) == AllPlain(lines[j..])
    ensures i < |lines| && HasEnd(lines[i]) ==> Chunks(lines[j..]) == [Block(lines[j..i + 1])] + Chunks(lines[i + 1..])
  {
    hide HasStart, HasEnd;
    var rest := lines[j..];
    OpenCloseOf(lines, j, i);
    if i < |lines| && HasEnd(lines[i]) {
      assert rest[..i - j + 1] == lines[j..i + 1] && rest[i - j + 1..] == lines[i + 1..];
    }
  }

  /** The lines before lines[j] are dealt with: written to dest and stored in the cache. */
  ghost predicate Scanned(h: Hash, lines: seq<string>, done: seq<Chunk>, j: nat, dest: string, cache: Cache,
      found: bool) {
    && j <= |lines|
    && dest == Unlines(EmitAll(h, done))
    && cache == CacheOf(h, done)
    && (found <==> HasBlock(done))
    && Chunks(lines) == done + Chunks(lines[j..])
  }

  function Remember(h: Hash, cache: Cache, c: Chunk): Cache {
    if c.Block? && c.lines != [] then cache[h(Join(c.lines)) := EntryOf(c.lines[0], Join(c.lines))] else cache
  }

  lemma ScanChunk(h: Hash, lines: seq<string>, done: seq<Chunk>, j: nat, c: Chunk, next: nat, dest: string,
      cache: Cache, found: bool)
    requires Scanned(h, lines, done, j, dest, cache, found) && j <= next <= |lines|
    requires Chunks(lines[j..]) == [c] + Chunks(lines[next..])
    ensures Scanned(h, lines, done + [c], next, dest + (Emit(h, c) + "\n"), Remember(h, cache, c), found || c.Block?)
  {
    hide Chunks, EmitAll, CacheOf, HasBlock, Unlines, Emit;
    EmitSnoc(h, done, c);
    assert done + ([c] + Chunks(lines[next..])) == (done + [c]) + Chunks(lines[next..]);
  }

  lemma PlainChunk(lines: seq<string>, j: nat)
    requires j < |lines| && !HasStart(lines[j])
    ensures Chunks(lines[j..]) == [Plain(lines[j])] + Chunks(lines[j + 1..])
  {
    var rest := lines[j..];
    assert rest[0] == lines[j] && rest[1..] == lines[j + 1..];
  }

  lemma BlockChunk(lines: seq<string>, j: nat, i: nat)
    requires j <= i < |lines| && HasStart(lines[j]) && HasEnd(lines[i]) && forall k :: j <= k < i ==> !HasEnd(lines[k])
    ensures Chunks(lines[j..]) == [Block(lines[j..i + 1])] + Chunks(lines[i + 1..])
  {
    if i == j {
      var rest := lines[j..];
      assert rest[0] == lines[j] && CloseOf(rest) == 0;
      assert rest[..1] == lines[j..i + 1] && rest[1..] == lines[i + 1..];
    } else {
      OpenCloses(lines, j, i);
    }
  }

  lemma {:induction false} ScanUnclosed(h: Hash, lines: seq<string>, done: seq<Chunk>, j: nat, dest: string,
      cache: Cache, found: bool)
    requires Scanned(h, lines, done, j, dest, cache, found) && Open(lines, j, |lines|)
    ensures dest + (Join(lines[j..]) + "\n") == Unlines(EmitAll(h, Chunks(lines)))
    ensures cache == CacheOf(h, Chunks(lines)) && (found <==> HasBlock(Chunks(lines)))
  {
    OpenCloses(lines, j, |lines|);
    JoinIsUnlines(lines[j..]);
    EmitPlain(h, done, lines[j..]);
  }

  /** The variables of the shell loop. */
  datatype Scan = Scan(
    inBlock: bool, buf: string, reason: string, prefix: string, suffix: string,
    count: nat, dest: string, cache: Cache)

  /** The loop has read lines[..i]; the chunks in `done` are written and, inside a block,
      the variables describe lines[j..i]. */
  ghost predicate Mid(h: Hash, lines: seq<string>, i: nat, v: Scan, done: seq<Chunk>, j: nat) {
    && j <= i
    && Scanned(h, lines, done, j, v.dest, v.cache, v.count > 0)
    && (!v.inBlock ==> j == i)
    && (v.inBlock ==>
          && Open(lines, j, i)
          && v.buf == Join(lines[j..i])
          && Entry(v.buf, v.prefix, v.suffix, v.reason) == EntryOf(lines[j], v.buf))
  }

  /** Writing one block: the cache files and the placeholder line. */
  method WriteBlock(h: Hash, v: Scan, ghost lines: seq<string>, ghost i: nat, ghost done: seq<Chunk>, ghost j: nat)
    returns (v': Scan)
    requires Scanned(h, lines, done, j, v.dest, v.cache, v.count > 0) && j <= i < |lines|
    requires HasStart(lines[j]) && HasEnd(lines[i]) && forall k :: j <= k < i ==> !HasEnd(lines[k])
    requires v.buf == Join(lines[j..i + 1])
    requires Entry(v.buf, v.prefix, v.suffix, v.reason) == EntryOf(lines[j], v.buf)
    ensures Mid(h, lines, i + 1, v', done + [Block(lines[j..i + 1])], i + 1)
  {
    hide Chunks, CacheOf, EmitAll, HasBlock, HasStart, HasEnd, BLOCK;
    BlockChunk(lines, j, i);
    ScanChunk(h, lines, done, j, Block(lines[j..i + 1]), i + 1, v.dest, v.cache, v.count > 0);
    var hash := h(v.buf);
    var tail := if v.reason != "" then ": " + v.reason else "";
    v' := v.(
      inBlock := false,
      count := v.count + 1,
      cache := v.cache[hash := Entry(v.buf, v.prefix, v.suffix, v.reason)],
      dest := v.dest + ((v.prefix + (BLOCK + (hash + (tail + v.suffix)))) + "\n"));
  }

  /** A start marker outside a block; the block may end on the same line. */
  method StartLine(h: Hash, line: string, v: Scan, ghost lines: seq<string>, ghost i: nat, ghost done: seq<Chunk>)
    returns (v': Scan, ghost done': seq<Chunk>, ghost j': nat)
    requires i < |lines| && line == lines[i] && !v.inBlock && HasStart(line) && Mid(h, lines, i, v, done, i)
    ensures Mid(h, lines, i + 1, v', done', j')
  {
    assert lines[i..i + 1] == [line];
    v' := v.(inBlock := true, buf := line, prefix := Prefix(line), suffix := Suffix(line), reason := Reason(line));
    done', j' := done, i;
    if HasEnd(line) {
      v' := WriteBlock(h, v', lines, i, done, i);
      done', j' := done + [Block(lines[i..i + 1])], i + 1;
    }
  }

  lemma GrowBlock(h: Hash, v: Scan, lines: seq<string>, i: nat, done: seq<Chunk>, j: nat)
    requires i < |lines| && v.inBlock && Mid(h, lines, i, v, done, j)
    ensures v.buf + "\n" + lines[i] == Join(lines[j..i + 1])
    ensures !HasEnd(lines[i]) ==> Mid(h, lines, i + 1, v.(buf := v.buf + "\n" + lines[i]), done, j)
  {
    JoinSnoc(lines[j..i], lines[i]);
    assert lines[j..i] + [lines[i]] == lines[j..i + 1];
  }

  /** A line inside a block. */
  method InnerLine(h: Hash, line: string, v: Scan, ghost lines: seq<string>, ghost i: nat, ghost done: seq<Chunk>,
      ghost j: nat)
    returns (v': Scan, ghost done': seq<Chunk>, ghost j': nat)
    requires i < |lines| && line == lines[i] && v.inBlock && Mid(h, lines, i, v, done, j)
    ensures Mid(h, lines, i + 1, v', done', j')
  {
    hide Scanned, HasStart, HasEnd, Join, Prefix, Suffix, Reason;
    GrowBlock(h, v, lines, i, done, j);
    v' := v.(buf := v.buf + "\n" + line);
    done', j' := done, j;
    if HasEnd(line) {
      v' := WriteBlock(h, v', lines, i, done, j);
      done', j' := done + [Block(lines[j..i + 1])], i + 1;
    }
  }

  lemma PlainLine(h: Hash, v: Scan, lines: seq<string>, i: nat, done: seq<Chunk>)
    requires i < |lines| && !v.inBlock && !HasStart(lines[i]) && Mid(h, lines, i, v, done, i)
    ensures Mid(h, lines, i + 1, v.(dest := v.dest + (lines[i] + "\n")), done + [Plain(lines[i])], i + 1)
  {
    PlainChunk(lines, i);
    ScanChunk(h, lines, done, i, Plain(lines[i]), i + 1, v.dest, v.cache, v.count > 0);
  }

  lemma {:induction false} EndOfFile(h: Hash, v: Scan, lines: seq<string>, done: seq<Chunk>, j: nat)
    requires Mid(h, lines, |lines|, v, done, j)
    ensures (if v.inBlock then v.dest + (v.buf + "\n") else v.dest) == Unlines(EmitAll(h, Chunks(lines)))
    ensures v.cache == CacheOf(h, Chunks(lines)) && (v.count > 0 <==> HasBlock(Chunks(lines)))
  {
    assert lines[j..|lines|] == lines[j..];
    if v.inBlock {
      ScanUnclosed(h, lines, done, j, v.dest, v.cache, v.count > 0);
    } else {
      assert done + Chunks(lines[j..]) == done;
    }
  }

  lemma NothingRead(h: Hash, lines: seq<string>, v: Scan)
    requires v == Scan(false, "", "", "", "", 0, "", map[])
    ensures Mid(h, lines, 0, v, [], 0)
  {
    assert lines[0..] == lines;
  }

  /** The loop of `filter_file`. */
  method FilterLines(h: Hash, lines: seq<string>) returns (dest: string, cache: Cache, count: nat)
    ensures dest == Unlines(EmitAll(h, Chunks(lines)))
    ensures cache == CacheOf(h, Chunks(lines))
    ensures count > 0 <==> HasBlock(Chunks(lines))
  {
    var v := Scan(false, "", "", "", "", 0, "", map[]);
    ghost var done: seq<Chunk> := [];
    ghost var j: nat := 0;
    NothingRead(h, lines, v);
    hide Mid, HasStart;
    for i := 0 to |lines|
      invariant Mid(h, lines, i, v, done, j)
    {
      var line := lines[i];
      if !v.inBlock && HasStart(line) {
        v, done, j := StartLine(h, line, v, lines, i, done);
      } else if v.inBlock {
        v, done, j := InnerLine(h, line, v, lines, i, done, j);
      } else {
        PlainLine(h, v, lines, i, done);
        v := v.(dest := v.dest + (line + "\n"));
        done, j := done + [Plain(line)], i + 1;
      }
    }
    EndOfFile(h, v, lines, done, j);
    // an unclosed block is flushed as it is
    dest := if v.inBlock then v.dest + (v.buf + "\n") else v.dest;
    cache, count := v.cache, v.count;
  }

  /** `filter_file`: what is written, what is cached, and whether a block was hidden. */
  method FilterFile(h: Hash, src: string) returns (dest: string, cache: Cache, found: bool)
    ensures dest == Filtered(h, src)
    ensures cache == CacheOf(h, Chunks(Lines(src)))
    ensures found == HasBlock(Chunks(Lines(src)))
  {
    var count;
    dest, cache, count := FilterLines(h, Lines(src));
    dest := MatchTrailingNewline(dest, src);
    found := count > 0;
  }

  // ---- The expansion ----

  /** One block file applied to one line: the exact placeholder first, then, if the token
      is still there and the block itself does not contain it, two looser forms. */
  function ExpandWith(line: string, hash: string, e: Entry): string {
    var token := BLOCK + hash;
    if !Contains(line, token) then line
    else
      var exact := ReplaceAll(line, Placeholder(e, hash), e.content);
      if Contains(e.content, token) || !Contains(exact, token) then exact
      else
        var fuzzy := ReplaceAll(exact, e.prefix + token + e.suffix, e.content);
        if Contains(fuzzy, token) then ReplaceAll(fuzzy, token, e.content) else fuzzy
  }

  /** All block files, in the order the directory lists them. */
  function ExpandKeys(line: string, order: seq<string>, cache: Cache): string {
    if order == [] then line
    else
      var front := ExpandKeys(line, order[..|order| - 1], cache);
      var hash := order[|order| - 1];
      if hash in cache then ExpandWith(front, hash, cache[hash]) else front
  }

  function ExpandLine(line: string, order: seq<string>, cache: Cache): string {
    if Contains(line, BLOCK) then ExpandKeys(line, order, cache) else line
  }

  function ExpandAll(lines: seq<string>, order: seq<string>, cache: Cache): seq<string> {
    if lines == [] then []
    else ExpandAll(lines[..|lines| - 1], order, cache) + [ExpandLine(lines[|lines| - 1], order, cache)]
  }

  function Expanded(file: string, order: seq<string>, cache: Cache): string {
    MatchTrailingNewline(Unlines(ExpandAll(Lines(file), order, cache)), file)
  }

  /** The expansion loop of the Edit and Write hook. */
  method ExpandFile(file: string, order: seq<string>, cache: Cache) returns (out: string)
    ensures out == Expanded(file, order, cache)
  {
    var lines := Lines(file);
    out := "";
    for i := 0 to |lines|
      invariant out == Unlines(ExpandAll(lines[..i], order, cache))
    {
      var line := lines[i];
      if Contains(line, BLOCK) {
        for k := 0 to |order|
          invariant line == ExpandKeys(lines[i], order[..k], cache)
        {
          assert order[..k + 1][..k] == order[..k];
          if order[k] in cache {
            line := ExpandWith(line, order[k], cache[order[k]]);
          }
        }
        assert order[..|order|] == order;
      }
      out := out + (line + "\n");
      assert lines[..i + 1][..i] == lines[..i];
      UnlinesSnoc(ExpandAll(lines[..i], order, cache), line);
    }
    assert lines[..|lines|] == lines;
    out := MatchTrailingNewline(out, file);
  }
}
