/** Expanding a filtered file gives the source back, byte for byte. */
module RoundTrip {
  import opened Text
  import opened SimplifyIgnore

  // ---- A placeholder mentions one hash, once ----

  predicate Mentions(s: string, hash: string) {
    Contains(s, BLOCK + hash)
  }

  ghost predicate NoMention(s: string, keys: set<string>) {
    forall k :: k in keys ==> !Mentions(s, k)
  }

  ghost predicate HexKeys(keys: set<string>) {
    forall k :: k in keys ==> HexWord(k)
  }

  predicate TokenChar(c: char) {
    c in BLOCK || HexDigit(c)
  }

  lemma TokenAt(s: string, k: nat, hash: string)
    requires At(s, k, BLOCK + hash) && HexWord(hash)
    ensures k + 14 <= |s| && s[k] == 'B' && s[k + 6..k + 14] == hash
    ensures forall m :: k < m < k + 14 ==> s[m] != 'B'
    ensures forall m :: k <= m < k + 14 ==> TokenChar(s[m])
  {
    var w, token := s[k..k + 14], BLOCK + hash;
    assert w == token && token[6..] == hash;
    forall m | k <= m < k + 14 ensures s[m] == token[m - k] {
      assert s[m] == w[m - k];
    }
    assert s[k + 6..k + 14] == w[6..];
  }

  lemma AtConcat(a: string, b: string, k: nat, pat: string)
    requires At(a + b, k, pat)
    ensures k + |pat| <= |a| ==> At(a, k, pat)
    ensures k >= |a| ==> At(b, k - |a|, pat)
  {
    var w := (a + b)[k..k + |pat|];
    if k + |pat| <= |a| {
      assert a[k..k + |pat|] == w;
    } else if k >= |a| {
      assert b[k - |a|..k - |a| + |pat|] == w;
    }
  }

  /** A token cannot straddle a seam with a foreign character on one side. */
  lemma JoinWithoutMention(a: string, b: string, hash: string)
    requires !Mentions(a, hash) && !Mentions(b, hash) && HexWord(hash)
    requires a == "" || b == "" || !TokenChar(a[|a| - 1]) || !TokenChar(b[0])
    ensures !Mentions(a + b, hash)
  {
    assert a != "" && b != "" ==> (a + b)[|a| - 1] == a[|a| - 1] && (a + b)[|a|] == b[0];
    forall k | 0 <= k <= |a + b| ensures !At(a + b, k, BLOCK + hash) {
      if At(a + b, k, BLOCK + hash) {
        TokenAt(a + b, k, hash);
        AtConcat(a, b, k, BLOCK + hash);
      }
    }
  }

  lemma NoMentionWithoutB(s: string, hash: string)
    requires HexWord(hash) && forall i :: 0 <= i < |s| ==> s[i] != 'B'
    ensures !Mentions(s, hash)
  {
    forall k | 0 <= k <= |s| ensures !At(s, k, BLOCK + hash) {
      if At(s, k, BLOCK + hash) {
        TokenAt(s, k, hash);
      }
    }
  }

  /** With no mention before it or after it, the token of a placeholder is the only one. */
  lemma OnlyToken(a: string, rest: string, k: nat, hash: string)
    requires HexWord(hash) && !Mentions(a, hash) && !Mentions(rest, hash)
    requires At(a + (BLOCK + rest), k, BLOCK + hash)
    ensures k == |a|
  {
    var s, n := a + (BLOCK + rest), |a|;
    TokenAt(s, k, hash);
    assert s[n] == 'B' && s[n + 1] == 'L' && s[n + 2] == 'O' && s[n + 3] == 'C' && s[n + 4] == 'K' && s[n + 5] == '_';
    AtConcat(a, BLOCK + rest, k, BLOCK + hash);
    if k >= n {
      AtConcat(BLOCK, rest, k - n, BLOCK + hash);
    }
  }

  /** An entry whose placeholder text mentions none of the other cached hashes. */
  ghost predicate CleanEntry(e: Entry, keys: set<string>) {
    NoMention(e.prefix, keys) && NoMention(e.reason, keys) && e.suffix in {"", " */", " -->"}
  }

  function Middle(e: Entry): string {
    (if e.reason != "" then ": " + e.reason else "") + e.suffix
  }

  lemma MiddleHasNoMention(e: Entry, hash: string)
    requires !Mentions(e.reason, hash) && e.suffix in {"", " */", " -->"} && HexWord(hash)
    ensures !Mentions(Middle(e), hash)
    ensures Middle(e) == "" || !TokenChar(Middle(e)[0])
  {
    NoMentionWithoutB(": ", hash);
    NoMentionWithoutB("", hash);
    NoMentionWithoutB(e.suffix, hash);
    JoinWithoutMention(": ", e.reason, hash);
    JoinWithoutMention(if e.reason != "" then ": " + e.reason else "", e.suffix, hash);
  }

  /** A placeholder mentions its own hash and no other cached one. */
  lemma PlaceholderMentions(e: Entry, hash: string, other: string, keys: set<string>)
    requires CleanEntry(e, keys) && HexKeys(keys) && hash in keys && other in keys
    ensures Mentions(Placeholder(e, hash), other) <==> hash == other
    ensures Contains(Placeholder(e, hash), BLOCK)
  {
    var s, rest, n := Placeholder(e, hash), hash + Middle(e), |e.prefix|;
    assert s == e.prefix + (BLOCK + rest);
    MiddleHasNoMention(e, other);
    NoMentionWithoutB(hash, other);
    JoinWithoutMention(hash, Middle(e), other);
    assert s[n..n + 6] == BLOCK && s[n + 6..n + 14] == hash && s[n..n + 14] == BLOCK + hash;
    assert At(s, n, BLOCK) && At(s, n, BLOCK + hash);
    forall k | 0 <= k <= |s| && At(s, k, BLOCK + other) ensures hash == other {
      OnlyToken(e.prefix, rest, k, other);
      TokenAt(s, k, other);
    }
  }

  /** A line that mentions no listed hash is left alone. */
  lemma {:induction false} ExpandUnmentioned(line: string, order: seq<string>, cache: Cache)
    requires forall k :: k in order ==> !Mentions(line, k)
    ensures ExpandKeys(line, order, cache) == line
  {
    if order != [] {
      var last := order[|order| - 1];
      assert order == order[..|order| - 1] + [last];
      ExpandUnmentioned(line, order[..|order| - 1], cache);
      assert last in order && !Mentions(line, last);
    }
  }

  // ---- The chunks of a source ----

  ghost predicate SingleLines(lines: seq<string>) {
    forall i :: 0 <= i < |lines| ==> '\n' !in lines[i]
  }

  ghost predicate Unmentioned(lines: seq<string>, keys: set<string>) {
    forall i :: 0 <= i < |lines| ==> NoMention(lines[i], keys)
  }

  lemma SliceMentions(line: string, i: nat, j: nat, keys: set<string>)
    requires i <= j <= |line| && NoMention(line, keys)
    ensures NoMention(line[i..j], keys)
  {
    forall k | k in keys ensures !Mentions(line[i..j], k) {
      if Mentions(line[i..j], k) {
        ContainsSlice(line, i, j, BLOCK + k);
      }
    }
  }

  lemma EmptyMentionsNothing(keys: set<string>)
    requires HexKeys(keys)
    ensures NoMention("", keys) && NoMention("\n", keys)
  {
    forall k | k in keys ensures !Mentions("", k) && !Mentions("\n", k) {
      NoMentionWithoutB("", k);
      NoMentionWithoutB("\n", k);
    }
  }

  lemma ReasonIsSlice(line: string, keys: set<string>)
    requires NoMention(line, keys) && HexKeys(keys)
    ensures NoMention(Reason(line), keys)
  {
    var k := FindLast(line, START_REASON, |line|);
    if k < 0 {
      EmptyMentionsNothing(keys);
    } else {
      var lo := SkipSpaces(line, k + |START_REASON|);
      var a := CutBefore(line, lo, |line|, "*/");
      var b := CutBefore(line, lo, a, "-->");
      SliceMentions(line, lo, TrimEnd(line, lo, b), keys);
    }
  }

  lemma {:induction false} JoinMentionsNothing(lines: seq<string>, keys: set<string>)
    requires Unmentioned(lines, keys) && HexKeys(keys)
    ensures NoMention(Join(lines), keys)
  {
    EmptyMentionsNothing(keys);
    if lines != [] {
      assert NoMention(lines[0], keys);
      if |lines| > 1 {
        JoinMentionsNothing(lines[1..], keys);
        forall k | k in keys ensures !Mentions(Join(lines), k) {
          JoinWithoutMention(lines[0], "\n", k);
          JoinWithoutMention(lines[0] + "\n", Join(lines[1..]), k);
        }
      }
    }
  }

  lemma EntryIsClean(block: seq<string>, keys: set<string>)
    requires block != [] && NoMention(block[0], keys) && HexKeys(keys)
    ensures CleanEntry(EntryOf(block[0], Join(block)), keys)
  {
    var line := block[0];
    ReasonIsSlice(line, keys);
    var k := Find(line, START, 0);
    if k >= 0 {
      SliceMentions(line, 0, k, keys);
      assert line[0..k] == line[..k];
    }
  }

  /** What a chunk stands for in the source. */
  function Original(c: Chunk): seq<string> {
    match c
    case Plain(line) => [line]
    case Block(lines) => lines
  }

  function Flatten(cs: seq<Chunk>): seq<string> {
    if cs == [] then [] else Original(cs[0]) + Flatten(cs[1..])
  }

  ghost predicate GoodChunks(cs: seq<Chunk>) {
    forall i :: 0 <= i < |cs| ==> SingleLines(Original(cs[i])) && (cs[i].Block? ==> cs[i].lines != [])
  }

  lemma {:induction false} FlattenPlain(lines: seq<string>)
    requires SingleLines(lines)
    ensures Flatten(AllPlain(lines)) == lines && GoodChunks(AllPlain(lines))
  {
    if lines != [] {
      assert SingleLines([lines[0]]);
      FlattenPlain(lines[1..]);
    }
  }

  lemma FlattenBlock(block: seq<string>, rest: seq<Chunk>)
    requires block != [] && SingleLines(block) && GoodChunks(rest)
    ensures var cs := [Block(block)] + rest; Flatten(cs) == block + Flatten(rest) && GoodChunks(cs)
  {
    assert ([Block(block)] + rest)[1..] == rest;
  }

  /** The chunks are a partition of the lines. */
  lemma {:induction false} FlattenChunks(lines: seq<string>)
    requires SingleLines(lines)
    ensures Flatten(Chunks(lines)) == lines && GoodChunks(Chunks(lines))
    decreases |lines|
  {
    hide HasStart, CloseOf;
    if lines != [] {
      if !HasStart(lines[0]) {
        FlattenChunks(lines[1..]);
      } else if CloseOf(lines) < 0 {
        FlattenPlain(lines);
      } else {
        var k := CloseOf(lines);
        FlattenChunks(lines[k + 1..]);
        assert lines[..k + 1] + lines[k + 1..] == lines;
        FlattenBlock(lines[..k + 1], Chunks(lines[k + 1..]));
      }
    }
  }

  lemma {:induction false} FlattenSnoc(cs: seq<Chunk>, c: Chunk)
    ensures Flatten(cs + [c]) == Flatten(cs) + Original(c)
  {
    if cs == [] {
      assert [c][1..] == [];
    } else {
      assert (cs + [c])[1..] == cs[1..] + [c];
      FlattenSnoc(cs[1..], c);
    }
  }

  // ---- The cache of a source ----

  /** Different blocks of the file have different hashes. */
  ghost predicate NoCollision(h: Hash, cs: seq<Chunk>) {
    forall i, j :: 0 <= i < |cs| && 0 <= j < |cs| && cs[i].Block? && cs[j].Block? ==>
      (h(Join(cs[i].lines)) == h(Join(cs[j].lines)) ==> Join(cs[i].lines) == Join(cs[j].lines))
  }

  lemma JoinInjective(a: seq<string>, b: seq<string>)
    requires a != [] && b != [] && SingleLines(a) && SingleLines(b) && Join(a) == Join(b)
    ensures a == b
  {
    JoinIsUnlines(a);
    JoinIsUnlines(b);
    LinesOfUnlines(a);
    LinesOfUnlines(b);
  }

  /** The cache answers for every block of the file, also when blocks repeat. */
  lemma {:induction false} CacheHasBlock(h: Hash, cs: seq<Chunk>, i: nat)
    requires GoodChunks(cs) && NoCollision(h, cs) && i < |cs| && cs[i].Block?
    ensures var content := Join(cs[i].lines);
      h(content) in CacheOf(h, cs) && CacheOf(h, cs)[h(content)] == EntryOf(cs[i].lines[0], content)
  {
    var n := |cs| - 1;
    if cs[n].Block? && h(Join(cs[n].lines)) == h(Join(cs[i].lines)) {
      assert SingleLines(Original(cs[n])) && SingleLines(Original(cs[i]));
      JoinInjective(cs[n].lines, cs[i].lines);
    } else {
      CacheHasBlock(h, cs[..n], i);
    }
  }

  /** Every cache entry belongs to a block of the file. */
  lemma {:induction false} CacheComesFromBlocks(h: Hash, cs: seq<Chunk>, k: string) returns (i: nat)
    requires k in CacheOf(h, cs)
    ensures i < |cs| && cs[i].Block? && cs[i].lines != []
    ensures k == h(Join(cs[i].lines)) && CacheOf(h, cs)[k] == EntryOf(cs[i].lines[0], Join(cs[i].lines))
  {
    var n := |cs| - 1;
    if cs[n].Block? && cs[n].lines != [] && k == h(Join(cs[n].lines)) {
      i := n;
    } else {
      i := CacheComesFromBlocks(h, cs[..n], k);
    }
  }

  lemma CacheKeysAreHex(h: Hash, cs: seq<Chunk>)
    requires GoodHash(h)
    ensures HexKeys(CacheOf(h, cs).Keys)
  {
    forall k | k in CacheOf(h, cs) ensures HexWord(k) {
      var i := CacheComesFromBlocks(h, cs, k);
    }
  }

  /** `order` lists the cache files, each at least once. */
  ghost predicate Lists(order: seq<string>, cache: Cache) {
    forall k :: k in order <==> k in cache
  }

  /** No protected block mentions a cached hash. */
  ghost predicate BlocksUnmentioned(cs: seq<Chunk>, keys: set<string>) {
    forall i :: 0 <= i < |cs| && cs[i].Block? ==> Unmentioned(cs[i].lines, keys)
  }

  /** The first line of a block, from which its placeholder is made, mentions no cached
      hash, and no block mentions its own hash. */
  ghost predicate HeadsUnmentioned(h: Hash, cs: seq<Chunk>, keys: set<string>) {
    forall i :: 0 <= i < |cs| && cs[i].Block? && cs[i].lines != [] ==>
      NoMention(cs[i].lines[0], keys) && !Mentions(Join(cs[i].lines), h(Join(cs[i].lines)))
  }

  /** The text mentions a hash that is listed after `hash`, when the text is back in place. */
  ghost predicate LateMention(text: string, hash: string, order: seq<string>) {
    exists m, n :: 0 <= m < n < |order| && order[m] == hash && Mentions(text, order[n])
  }

  /** No block mentions a block that is put back after it. */
  ghost predicate BlocksSettled(h: Hash, cs: seq<Chunk>, order: seq<string>) {
    forall i :: 0 <= i < |cs| && cs[i].Block? ==> !LateMention(Join(cs[i].lines), h(Join(cs[i].lines)), order)
  }

  /** No line outside the blocks mentions a cached hash. */
  ghost predicate PlainUnmentioned(cs: seq<Chunk>, keys: set<string>) {
    forall i :: 0 <= i < |cs| && cs[i].Plain? ==> NoMention(cs[i].line, keys)
  }

  // ---- Expanding what was emitted ----

  /** The expansion of the chunk's line, against the text of the chunk. */
  function BackFrom(h: Hash, c: Chunk, order: seq<string>, cache: Cache): string {
    ExpandLine(Emit(h, c), order, cache)
  }

  lemma UnmentionedComesBack(h: Hash, c: Chunk, order: seq<string>, cache: Cache)
    requires c.Plain? && NoMention(c.line, cache.Keys) && Lists(order, cache)
    ensures BackFrom(h, c, order, cache) == Join(Original(c))
  {
    ExpandUnmentioned(c.line, order, cache);
  }

  lemma ExpandAllSnoc(lines: seq<string>, line: string, order: seq<string>, cache: Cache)
    ensures Unlines(ExpandAll(lines + [line], order, cache)) ==
      Unlines(ExpandAll(lines, order, cache)) + (ExpandLine(line, order, cache) + "\n")
  {
    assert (lines + [line])[..|lines|] == lines;
    UnlinesSnoc(ExpandAll(lines, order, cache), ExpandLine(line, order, cache));
  }

  lemma {:induction false} UnlinesFlattenSnoc(cs: seq<Chunk>, c: Chunk)
    requires Original(c) != []
    ensures Unlines(Flatten(cs + [c])) == Unlines(Flatten(cs)) + (Join(Original(c)) + "\n")
  {
    FlattenSnoc(cs, c);
    UnlinesConcat(Flatten(cs), Original(c));
    JoinIsUnlines(Original(c));
  }

  /** What the lines shown for the chunks expand to. */
  function Back(h: Hash, cs: seq<Chunk>, order: seq<string>, cache: Cache): string {
    Unlines(ExpandAll(EmitAll(h, cs), order, cache))
  }

  /** Both texts, one chunk longer. */
  lemma {:induction false} OneMore(h: Hash, cs: seq<Chunk>, c: Chunk, order: seq<string>, cache: Cache)
    requires Original(c) != []
    ensures Back(h, cs + [c], order, cache) == Back(h, cs, order, cache) + (BackFrom(h, c, order, cache) + "\n")
    ensures Unlines(Flatten(cs + [c])) == Unlines(Flatten(cs)) + (Join(Original(c)) + "\n")
  {
    assert EmitAll(h, cs + [c]) == EmitAll(h, cs) + [Emit(h, c)] by {
      assert (cs + [c])[..|cs|] == cs;
    }
    ExpandAllSnoc(EmitAll(h, cs), Emit(h, c), order, cache);
    UnlinesFlattenSnoc(cs, c);
  }

  ghost predicate ComesBack(h: Hash, c: Chunk, order: seq<string>, cache: Cache) {
    Original(c) != [] && BackFrom(h, c, order, cache) == Join(Original(c))
  }

  lemma BackOfNothing(h: Hash, order: seq<string>, cache: Cache)
    ensures Back(h, [], order, cache) == Unlines(Flatten([])) == ""
  {
  }

  lemma OneMoreBack(h: Hash, cs: seq<Chunk>, c: Chunk, order: seq<string>, cache: Cache)
    requires ComesBack(h, c, order, cache) && Back(h, cs, order, cache) == Unlines(Flatten(cs))
    ensures Back(h, cs + [c], order, cache) == Unlines(Flatten(cs + [c]))
  {
    OneMore(h, cs, c, order, cache);
  }

  /** The filtered lines expand to the source lines. */
  lemma {:induction false} ExpandEmitted(h: Hash, cs: seq<Chunk>, order: seq<string>, cache: Cache)
    requires forall i :: 0 <= i < |cs| ==> ComesBack(h, cs[i], order, cache)
    ensures Back(h, cs, order, cache) == Unlines(Flatten(cs))
    decreases |cs|
  {
    hide Back, Flatten, Unlines, ComesBack;
    BackOfNothing(h, order, cache);
    if cs != [] {
      var front, c := cs[..|cs| - 1], cs[|cs| - 1];
      ExpandEmitted(h, front, order, cache);
      assert cs == front + [c];
      OneMoreBack(h, front, c, order, cache);
    }
  }

  // ---- A mention outside the blocks makes the file longer ----

  lemma {:induction false} ReplaceNone(s: string, pat: string, repl: string)
    requires !Contains(s, pat)
    ensures ReplaceAll(s, pat, repl) == s
    decreases |s|
  {
    if pat != "" && |s| >= |pat| {
      assert !At(s, 0, pat);
      if Contains(s[1..], pat) {
        assert s[1..|s|] == s[1..];
        ContainsSlice(s, 1, |s|, pat);
      }
      ReplaceNone(s[1..], pat, repl);
    }
  }

  lemma ContainsTail(s: string, pat: string)
    requires Contains(s, pat) && !At(s, 0, pat) && s != ""
    ensures Contains(s[1..], pat)
  {
    var k :| 0 <= k <= |s| && At(s, k, pat);
    assert s == [s[0]] + s[1..];
    AtConcat([s[0]], s[1..], k, pat);
    assert At(s[1..], k - 1, pat);
  }

  lemma {:induction false} ReplaceGrows(s: string, pat: string, repl: string)
    requires 0 < |pat| < |repl|
    ensures |ReplaceAll(s, pat, repl)| >= |s|
    ensures Contains(s, pat) ==> |ReplaceAll(s, pat, repl)| > |s|
    decreases |s|
  {
    if |s| >= |pat| {
      if At(s, 0, pat) {
        ReplaceGrows(s[|pat|..], pat, repl);
      } else {
        ReplaceGrows(s[1..], pat, repl);
        if Contains(s, pat) {
          ContainsTail(s, pat);
        }
      }
    } else {
      assert forall k :: 0 <= k <= |s| ==> !At(s, k, pat);
    }
  }

  /** One block file never shortens a line, and lengthens a line that mentions it. */
  lemma ExpandWithGrows(line: string, hash: string, e: Entry)
    requires |Placeholder(e, hash)| < |e.content| && !Mentions(e.content, hash)
    ensures |ExpandWith(line, hash, e)| >= |line|
    ensures Mentions(line, hash) ==> |ExpandWith(line, hash, e)| > |line|
  {
    var token, exactPat := BLOCK + hash, Placeholder(e, hash);
    var fuzzyPat := e.prefix + token + e.suffix;
    if Mentions(line, hash) {
      var exact := ReplaceAll(line, exactPat, e.content);
      var fuzzy := ReplaceAll(exact, fuzzyPat, e.content);
      ReplaceGrows(line, exactPat, e.content);
      ReplaceGrows(exact, fuzzyPat, e.content);
      ReplaceGrows(fuzzy, token, e.content);
      if !Contains(line, exactPat) {
        ReplaceNone(line, exactPat, e.content);
        if !Contains(exact, fuzzyPat) {
          ReplaceNone(exact, fuzzyPat, e.content);
        }
      }
    }
  }

  ghost predicate LongEntries(cache: Cache) {
    forall k :: k in cache ==> |Placeholder(cache[k], k)| < |cache[k].content| && !Mentions(cache[k].content, k)
  }

  lemma {:induction false} ExpandKeysGrows(line: string, order: seq<string>, cache: Cache)
    requires LongEntries(cache) && forall k :: k in order ==> k in cache
    ensures |ExpandKeys(line, order, cache)| >= |line|
    ensures (exists k :: k in order && Mentions(line, k)) ==> |ExpandKeys(line, order, cache)| > |line|
  {
    if order != [] {
      var front, last := order[..|order| - 1], order[|order| - 1];
      assert order == front + [last];
      ExpandKeysGrows(line, front, cache);
      ExpandWithGrows(ExpandKeys(line, front, cache), last, cache[last]);
      if !exists k :: k in front && Mentions(line, k) {
        ExpandUnmentioned(line, front, cache);
      }
    }
  }

  lemma MentionHasToken(line: string, hash: string)
    requires Mentions(line, hash)
    ensures Contains(line, BLOCK)
  {
    var k :| 0 <= k <= |line| && At(line, k, BLOCK + hash);
    assert (BLOCK + hash)[..6] == BLOCK;
    assert line[k..k + 6] == line[k..k + |BLOCK + hash|][..6];
    assert At(line, k, BLOCK);
  }

  lemma LateSnoc(text: string, hash: string, front: seq<string>, last: string)
    ensures LateMention(text, hash, front + [last]) <==>
      LateMention(text, hash, front) || (hash in front && Mentions(text, last))
  {
    var order := front + [last];
    if m, n :| 0 <= m < n < |order| && order[m] == hash && Mentions(text, order[n]) {
      assert front[m] == hash;
      assert n < |front| ==> front[n] == order[n];
    }
    if m, n :| 0 <= m < n < |front| && front[m] == hash && Mentions(text, front[n]) {
      assert order[m] == hash && order[n] == front[n];
    }
    if hash in front && Mentions(text, last) {
      var m :| 0 <= m < |front| && front[m] == hash;
      assert order[m] == hash && order[|front|] == last;
    }
  }

  /** What the block files make of a placeholder: its block, or something longer if the
      block mentions a hash listed after its own. */
  ghost predicate PlaceholderBecomes(e: Entry, hash: string, order: seq<string>, line: string) {
    if hash !in order then line == Placeholder(e, hash)
    else if LateMention(e.content, hash, order) then |line| > |e.content|
    else line == e.content
  }

  lemma {:induction false} ExpandPlaceholder(e: Entry, hash: string, order: seq<string>, cache: Cache)
    requires CleanEntry(e, cache.Keys) && HexKeys(cache.Keys) && hash in cache && cache[hash] == e && LongEntries(cache)
    requires forall k :: k in order ==> k in cache
    ensures PlaceholderBecomes(e, hash, order, ExpandKeys(Placeholder(e, hash), order, cache))
  {
    if order != [] {
      var front, last := order[..|order| - 1], order[|order| - 1];
      assert order == front + [last];
      ExpandPlaceholder(e, hash, front, cache);
      LateSnoc(e.content, hash, front, last);
      var line := ExpandKeys(Placeholder(e, hash), front, cache);
      assert ExpandKeys(Placeholder(e, hash), order, cache) == ExpandWith(line, last, cache[last]);
      hide ExpandKeys, LateMention;
      OneMoreKey(e, hash, front, last, line, cache);
    }
  }

  lemma OneMoreKey(e: Entry, hash: string, front: seq<string>, last: string, line: string, cache: Cache)
    requires CleanEntry(e, cache.Keys) && HexKeys(cache.Keys) && hash in cache && cache[hash] == e && LongEntries(cache)
    requires last in cache && PlaceholderBecomes(e, hash, front, line)
    requires LateMention(e.content, hash, front + [last]) <==>
      LateMention(e.content, hash, front) || (hash in front && Mentions(e.content, last))
    requires !LateMention(e.content, hash, front) || hash in front
    ensures PlaceholderBecomes(e, hash, front + [last], ExpandWith(line, last, cache[last]))
  {
    hide LateMention, Mentions, Placeholder;
    if hash !in front {
      PlaceholderMentions(e, hash, last, cache.Keys);
      if last == hash {
        WholePlaceholder(e, hash);
      }
    } else {
      ExpandWithGrows(line, last, cache[last]);
    }
    NoExpansion(line, last, cache[last]);
  }

  lemma NoExpansion(line: string, hash: string, e: Entry)
    ensures !Mentions(line, hash) ==> ExpandWith(line, hash, e) == line
  {
  }

  lemma WholePlaceholder(e: Entry, hash: string)
    requires !Mentions(e.content, hash) && Mentions(Placeholder(e, hash), hash)
    ensures ExpandWith(Placeholder(e, hash), hash, e) == e.content
  {
    ReplaceWhole(Placeholder(e, hash), e.content);
  }

  lemma {:induction false} BlockComesBack(h: Hash, cs: seq<Chunk>, i: nat, order: seq<string>)
    requires GoodHash(h) && GoodChunks(cs) && NoCollision(h, cs) && Lists(order, CacheOf(h, cs)) &&
      LongEntries(CacheOf(h, cs))
    requires i < |cs| && cs[i].Block? && NoMention(cs[i].lines[0], CacheOf(h, cs).Keys)
    ensures var content := Join(cs[i].lines); var back := BackFrom(h, cs[i], order, CacheOf(h, cs));
      if LateMention(content, h(content), order) then |back| > |content| else back == content
  {
    var c, cache := cs[i], CacheOf(h, cs);
    var e, hash := EntryOf(c.lines[0], Join(c.lines)), h(Join(c.lines));
    CacheKeysAreHex(h, cs);
    EntryIsClean(c.lines, cache.Keys);
    CacheHasBlock(h, cs, i);
    PlaceholderMentions(e, hash, hash, cache.Keys);
    ExpandPlaceholder(e, hash, order, cache);
  }

  lemma PlainGrows(h: Hash, c: Chunk, order: seq<string>, cache: Cache)
    requires c.Plain? && LongEntries(cache) && Lists(order, cache)
    ensures |BackFrom(h, c, order, cache)| >= |Join(Original(c))|
    ensures !NoMention(c.line, cache.Keys) ==> |BackFrom(h, c, order, cache)| > |Join(Original(c))|
  {
    ExpandKeysGrows(c.line, order, cache);
    if k :| k in cache && Mentions(c.line, k) {
      MentionHasToken(c.line, k);
    }
  }

  lemma PlaceholderLength(e: Entry, hash: string)
    requires HexWord(hash)
    ensures |Placeholder(e, hash)| == |e.prefix| + 14 + (if e.reason != "" then 2 + |e.reason| else 0) + |e.suffix|
  {
  }

  /** The first start marker comes before the marker that the reason follows. */
  lemma ReasonIsAfterPrefix(line: string)
    requires HasStart(line)
    ensures |Prefix(line)| + 21 <= |line|
    ensures Reason(line) != "" ==> |Prefix(line)| + 22 + |Reason(line)| <= |line|
  {
    var k := FindLast(line, START_REASON, |line|);
    if k >= 0 {
      assert START_REASON[..21] == START;
      assert line[k..k + 21] == line[k..k + 22][..21];
      assert At(line, k, START);
    }
  }

  /** A placeholder is shorter than the block it stands for. */
  lemma PlaceholderIsShorter(block: seq<string>, hash: string)
    requires block != [] && HasStart(block[0]) && HexWord(hash)
    ensures |Placeholder(EntryOf(block[0], Join(block)), hash)| < |Join(block)|
  {
    PlaceholderLength(EntryOf(block[0], Join(block)), hash);
    ReasonIsAfterPrefix(block[0]);
    assert |block[0]| <= |Join(block)|;
  }

  ghost predicate BlocksStart(cs: seq<Chunk>) {
    forall i :: 0 <= i < |cs| && cs[i].Block? ==> cs[i].lines != [] && HasStart(cs[i].lines[0])
  }

  lemma {:induction false} ChunksStart(lines: seq<string>)
    ensures BlocksStart(Chunks(lines))
    decreases |lines|
  {
    if lines != [] {
      if !HasStart(lines[0]) {
        ChunksStart(lines[1..]);
      } else if CloseOf(lines) < 0 {
        PlainChunksStart(lines);
      } else {
        ChunksStart(lines[CloseOf(lines) + 1..]);
      }
    }
  }

  lemma {:induction false} PlainChunksStart(lines: seq<string>)
    ensures BlocksStart(AllPlain(lines))
  {
    if lines != [] {
      PlainChunksStart(lines[1..]);
    }
  }

  lemma CacheIsLong(h: Hash, cs: seq<Chunk>)
    requires GoodHash(h) && BlocksStart(cs) && HeadsUnmentioned(h, cs, CacheOf(h, cs).Keys)
    ensures LongEntries(CacheOf(h, cs))
  {
    var cache := CacheOf(h, cs);
    CacheKeysAreHex(h, cs);
    forall k | k in cache
      ensures |Placeholder(cache[k], k)| < |cache[k].content| && !Mentions(cache[k].content, k)
    {
      var i := CacheComesFromBlocks(h, cs, k);
      PlaceholderIsShorter(cs[i].lines, k);
    }
  }

  ghost predicate Grows(h: Hash, c: Chunk, order: seq<string>, cache: Cache) {
    Original(c) != [] && |BackFrom(h, c, order, cache)| >= |Join(Original(c))|
  }

  ghost predicate GrowsStrictly(h: Hash, c: Chunk, order: seq<string>, cache: Cache) {
    |BackFrom(h, c, order, cache)| > |Join(Original(c))|
  }

  lemma {:induction false} OneMoreLonger(h: Hash, cs: seq<Chunk>, c: Chunk, order: seq<string>, cache: Cache)
    requires Grows(h, c, order, cache)
    ensures var before, after := |Back(h, cs, order, cache)| - |Unlines(Flatten(cs))|,
      |Back(h, cs + [c], order, cache)| - |Unlines(Flatten(cs + [c]))|;
      after >= before && (GrowsStrictly(h, c, order, cache) ==> after > before)
  {
    OneMore(h, cs, c, order, cache);
  }

  lemma {:induction false} ExpandedIsLonger(h: Hash, cs: seq<Chunk>, order: seq<string>, cache: Cache)
    requires forall i :: 0 <= i < |cs| ==> Grows(h, cs[i], order, cache)
    ensures |Back(h, cs, order, cache)| >= |Unlines(Flatten(cs))|
    ensures (exists i :: 0 <= i < |cs| && GrowsStrictly(h, cs[i], order, cache)) ==>
      |Back(h, cs, order, cache)| > |Unlines(Flatten(cs))|
    decreases |cs|
  {
    hide Back, Flatten, Unlines, Grows, GrowsStrictly;
    BackOfNothing(h, order, cache);
    if cs != [] {
      var front, c := cs[..|cs| - 1], cs[|cs| - 1];
      ExpandedIsLonger(h, front, order, cache);
      assert cs == front + [c];
      OneMoreLonger(h, front, c, order, cache);
      if i :| 0 <= i < |cs| && GrowsStrictly(h, cs[i], order, cache) {
        assert i < |front| ==> GrowsStrictly(h, front[i], order, cache);
      }
    }
  }

  // ---- Trailing newline ----

  lemma {:induction false} EmitAllLast(h: Hash, cs: seq<Chunk>)
    ensures |EmitAll(h, cs)| == |cs|
    ensures cs != [] ==> EmitAll(h, cs)[|cs| - 1] == Emit(h, cs[|cs| - 1])
  {
    if cs != [] {
      EmitAllLast(h, cs[..|cs| - 1]);
    }
  }

  lemma PlaceholderIsSingleLine(e: Entry, hash: string)
    requires '\n' !in e.prefix && '\n' !in e.reason && e.suffix in {"", " */", " -->"} && HexWord(hash)
    ensures '\n' !in Placeholder(e, hash) && Placeholder(e, hash) != ""
  {
    assert '\n' !in ": " && '\n' !in BLOCK && '\n' !in hash && '\n' !in e.suffix;
    var tail := (if e.reason != "" then ": " + e.reason else "") + e.suffix;
    assert '\n' !in tail;
    assert '\n' !in BLOCK + (hash + tail);
  }

  lemma EmitIsSingleLine(h: Hash, c: Chunk)
    requires GoodHash(h) && SingleLines(Original(c)) && (c.Block? ==> c.lines != [])
    ensures '\n' !in Emit(h, c) && (c.Block? ==> Emit(h, c) != "")
  {
    if c.Block? {
      var line, hash := c.lines[0], h(Join(c.lines));
      assert '\n' !in line && HexWord(hash);
      PlaceholderIsSingleLine(EntryOf(line, Join(c.lines)), hash);
    } else {
      assert Original(c)[0] == c.line;
    }
  }

  lemma {:induction false} EmittedSingleLines(h: Hash, cs: seq<Chunk>)
    requires GoodHash(h) && GoodChunks(cs)
    ensures SingleLines(EmitAll(h, cs))
  {
    if cs != [] {
      EmitIsSingleLine(h, cs[|cs| - 1]);
      EmittedSingleLines(h, cs[..|cs| - 1]);
    }
  }

  lemma LastOriginal(cs: seq<Chunk>)
    requires cs != [] && Original(cs[|cs| - 1]) != []
    ensures var last := Original(cs[|cs| - 1]);
      Flatten(cs) != [] && Flatten(cs)[|Flatten(cs)| - 1] == last[|last| - 1]
  {
    var n := |cs| - 1;
    assert cs == cs[..n] + [cs[n]];
    FlattenSnoc(cs[..n], cs[n]);
  }

  /** The line that ends the filtered file is empty only if the source's last line is. */
  lemma LastEmitted(h: Hash, cs: seq<Chunk>)
    requires GoodChunks(cs) && cs != [] && GoodHash(h)
    requires Flatten(cs) != [] ==> Flatten(cs)[|Flatten(cs)| - 1] != ""
    ensures Emit(h, cs[|cs| - 1]) != ""
  {
    var c := cs[|cs| - 1];
    assert SingleLines(Original(c));
    if c.Block? {
      EmitIsSingleLine(h, c);
    } else {
      LastOriginal(cs);
    }
  }

  lemma {:induction false} JoinEnd(ls: seq<string>)
    requires ls != [] && SingleLines(ls) && ls[|ls| - 1] != ""
    ensures Join(ls) != "" && !EndsWithNewline(Join(ls))
  {
    if |ls| > 1 {
      JoinEnd(ls[1..]);
    } else {
      assert ls[0][|ls[0]| - 1] in ls[0];
    }
  }

  lemma {:induction false} SourceChunks(src: string)
    ensures Flatten(Chunks(Lines(src))) == Lines(src) && GoodChunks(Chunks(Lines(src)))
  {
    LinesHaveNoNewline(src);
    FlattenChunks(Lines(src));
  }

  /** Reading the filtered file line by line yields the emitted lines. */
  lemma FilteredLines(h: Hash, src: string)
    requires GoodHash(h)
    ensures Lines(Filtered(h, src)) == EmitAll(h, Chunks(Lines(src)))
    ensures Filtered(h, src) == "" <==> src == ""
    ensures src != "" ==> (EndsWithNewline(Filtered(h, src)) <==> EndsWithNewline(src))
  {
    SourceChunks(src);
    var cs := Chunks(Lines(src));
    var out := EmitAll(h, cs);
    EmittedSingleLines(h, cs);
    EmitAllLast(h, cs);
    LinesOfUnlines(out);
    if src != "" {
      UnlinesEnds(out);
      if !EndsWithNewline(src) {
        LastLine(src);
        LastEmitted(h, cs);
        JoinIsUnlines(out);
        assert Filtered(h, src) == Join(out);
        LinesOfJoin(out);
        JoinEnd(out);
      }
    }
  }

  // ---- The round trip ----

  /** The hash tells the blocks apart, the placeholders mention only themselves, and
      `order` lists the cache. */
  ghost predicate Readable(h: Hash, src: string, order: seq<string>) {
    var cs := Chunks(Lines(src));
    && GoodHash(h) && NoCollision(h, cs) && Lists(order, CacheOf(h, cs))
    && HeadsUnmentioned(h, cs, CacheOf(h, cs).Keys)
  }

  ghost predicate NothingMisplaced(h: Hash, src: string, order: seq<string>) {
    var cs := Chunks(Lines(src));
    PlainUnmentioned(cs, CacheOf(h, cs).Keys) && BlocksSettled(h, cs, order)
  }

  /** Every chunk comes back as it was, or longer; as it was unless something is misplaced. */
  lemma {:induction false} ChunkComesBack(h: Hash, src: string, order: seq<string>, i: nat)
    requires Readable(h, src, order) && i < |Chunks(Lines(src))|
    ensures var cs := Chunks(Lines(src)); var cache := CacheOf(h, cs);
      && Grows(h, cs[i], order, cache)
      && (NothingMisplaced(h, src, order) ==> ComesBack(h, cs[i], order, cache))
      && (cs[i].Plain? && !NoMention(cs[i].line, cache.Keys) ==> GrowsStrictly(h, cs[i], order, cache))
      && (cs[i].Block? && LateMention(Join(cs[i].lines), h(Join(cs[i].lines)), order) ==>
        GrowsStrictly(h, cs[i], order, cache))
  {
    var cs := Chunks(Lines(src));
    var cache := CacheOf(h, cs);
    SourceChunks(src);
    ChunksStart(Lines(src));
    CacheIsLong(h, cs);
    if cs[i].Block? {
      BlockComesBack(h, cs, i, order);
    } else {
      PlainGrows(h, cs[i], order, cache);
      if NoMention(cs[i].line, cache.Keys) {
        UnmentionedComesBack(h, cs[i], order, cache);
      }
    }
  }

  lemma {:induction false} SettledComesBack(h: Hash, src: string, order: seq<string>)
    requires Readable(h, src, order) && NothingMisplaced(h, src, order)
    ensures Expanded(Filtered(h, src), order, CacheOf(h, Chunks(Lines(src)))) == src
  {
    var cs := Chunks(Lines(src));
    var cache := CacheOf(h, cs);
    SourceChunks(src);
    FilteredLines(h, src);
    forall i | 0 <= i < |cs| ensures ComesBack(h, cs[i], order, cache) {
      ChunkComesBack(h, src, order, i);
    }
    ExpandEmitted(h, cs, order, cache);
    LinesRoundTrip(src);
    if src != "" {
      UnlinesEnds(Lines(src));
    }
  }

  /** A line outside the blocks that mentions a cached hash, or a block that mentions one
      listed after its own, makes the expanded file longer than the source. */
  lemma {:induction false} MentionBreaksRoundTrip(h: Hash, src: string, order: seq<string>)
    requires Readable(h, src, order) && !NothingMisplaced(h, src, order)
    ensures |Expanded(Filtered(h, src), order, CacheOf(h, Chunks(Lines(src))))| > |src|
  {
    var cs := Chunks(Lines(src));
    var cache := CacheOf(h, cs);
    SourceChunks(src);
    FilteredLines(h, src);
    forall i | 0 <= i < |cs| ensures Grows(h, cs[i], order, cache) {
      ChunkComesBack(h, src, order, i);
    }
    var i := Misplaced(h, src, order);
    ChunkComesBack(h, src, order, i);
    assert GrowsStrictly(h, cs[i], order, cache);
    ExpandedIsLonger(h, cs, order, cache);
    EmitAllLast(h, cs);
    ExpandAllLength(EmitAll(h, cs), order, cache);
    UnlinesEnds(Lines(src));
    UnlinesEnds(ExpandAll(EmitAll(h, cs), order, cache));
    LinesRoundTrip(src);
    MatchKeepsLonger(Unlines(ExpandAll(EmitAll(h, cs), order, cache)), Unlines(Lines(src)), Filtered(h, src), src);
  }

  lemma Misplaced(h: Hash, src: string, order: seq<string>) returns (i: nat)
    requires !NothingMisplaced(h, src, order)
    ensures var cs := Chunks(Lines(src));
      && i < |cs|
      && if cs[i].Plain? then !NoMention(cs[i].line, CacheOf(h, cs).Keys)
         else LateMention(Join(cs[i].lines), h(Join(cs[i].lines)), order)
  {
    var cs := Chunks(Lines(src));
    i :| i < |cs| && if cs[i].Plain? then !NoMention(cs[i].line, CacheOf(h, cs).Keys)
         else LateMention(Join(cs[i].lines), h(Join(cs[i].lines)), order);
  }

  lemma {:induction false} ExpandAllLength(lines: seq<string>, order: seq<string>, cache: Cache)
    ensures |ExpandAll(lines, order, cache)| == |lines|
  {
    if lines != [] {
      ExpandAllLength(lines[..|lines| - 1], order, cache);
    }
  }

  lemma MatchKeepsLonger(a: string, b: string, x: string, y: string)
    requires EndsWithNewline(a) && EndsWithNewline(b) && |a| > |b| && x != "" && y != ""
    requires EndsWithNewline(x) <==> EndsWithNewline(y)
    ensures |MatchTrailingNewline(a, x)| > |MatchTrailingNewline(b, y)|
  {
  }

  /** The round trip, exactly: when the hash tells the blocks apart and no placeholder
      mentions another block, expanding the filtered file gives the source back, byte for
      byte, if and only if no line outside the blocks mentions a cached hash and no block
      mentions one whose file is listed after its own. */
  lemma {:induction false} RoundTripExactly(h: Hash, src: string, order: seq<string>)
    requires Readable(h, src, order)
    ensures Expanded(Filtered(h, src), order, CacheOf(h, Chunks(Lines(src)))) == src <==>
      NothingMisplaced(h, src, order)
  {
    if NothingMisplaced(h, src, order) {
      SettledComesBack(h, src, order);
    } else {
      MentionBreaksRoundTrip(h, src, order);
    }
  }

  lemma UnmentionedIsSettled(h: Hash, src: string, order: seq<string>)
    requires GoodHash(h) && NoCollision(h, Chunks(Lines(src))) && Lists(order, CacheOf(h, Chunks(Lines(src))))
    requires BlocksUnmentioned(Chunks(Lines(src)), CacheOf(h, Chunks(Lines(src))).Keys)
    ensures Readable(h, src, order) && BlocksSettled(h, Chunks(Lines(src)), order)
  {
    var cs := Chunks(Lines(src));
    var cache := CacheOf(h, cs);
    SourceChunks(src);
    CacheKeysAreHex(h, cs);
    forall i | 0 <= i < |cs| && cs[i].Block?
      ensures NoMention(Join(cs[i].lines), cache.Keys) && NoMention(cs[i].lines[0], cache.Keys)
      ensures h(Join(cs[i].lines)) in cache
    {
      JoinMentionsNothing(cs[i].lines, cache.Keys);
      CacheHasBlock(h, cs, i);
    }
  }

  /** In any order of the cache files, for a source in which nothing mentions a cached hash. */
  lemma {:induction false} RoundTripHolds(h: Hash, src: string, order: seq<string>)
    requires GoodHash(h) && NoCollision(h, Chunks(Lines(src))) && Lists(order, CacheOf(h, Chunks(Lines(src))))
    requires BlocksUnmentioned(Chunks(Lines(src)), CacheOf(h, Chunks(Lines(src))).Keys)
    requires PlainUnmentioned(Chunks(Lines(src)), CacheOf(h, Chunks(Lines(src))).Keys)
    ensures Expanded(Filtered(h, src), order, CacheOf(h, Chunks(Lines(src)))) == src
  {
    UnmentionedIsSettled(h, src, order);
    SettledComesBack(h, src, order);
  }

  /** In particular it holds for every source without the text BLOCK_. */
  lemma {:induction false} ExpandUndoesFilter(h: Hash, src: string, order: seq<string>)
    requires GoodHash(h) && !Contains(src, BLOCK) && NoCollision(h, Chunks(Lines(src)))
    requires Lists(order, CacheOf(h, Chunks(Lines(src))))
    ensures Expanded(Filtered(h, src), order, CacheOf(h, Chunks(Lines(src)))) == src
  {
    var cs := Chunks(Lines(src));
    var keys := CacheOf(h, cs).Keys;
    SourceChunks(src);
    forall i | 0 <= i < |Lines(src)| ensures NoMention(Lines(src)[i], keys) {
      LineMentionsNothing(src, i, keys);
    }
    ChunkLinesUnmentioned(cs, keys);
    RoundTripHolds(h, src, order);
  }

  lemma LineMentionsNothing(src: string, i: nat, keys: set<string>)
    requires !Contains(src, BLOCK) && i < |Lines(src)|
    ensures NoMention(Lines(src)[i], keys)
  {
    LinesAreSlices(src);
    assert IsSlice(Lines(src)[i], src);
    var a: nat, b: nat :| a <= b <= |src| && Lines(src)[i] == src[a..b];
    forall k | k in keys ensures !Mentions(src[a..b], k) {
      if Mentions(src[a..b], k) {
        MentionHasToken(src[a..b], k);
        ContainsSlice(src, a, b, BLOCK);
      }
    }
  }

  lemma {:induction false} ChunkLinesUnmentioned(cs: seq<Chunk>, keys: set<string>)
    requires Unmentioned(Flatten(cs), keys)
    ensures BlocksUnmentioned(cs, keys) && PlainUnmentioned(cs, keys)
  {
    if cs != [] {
      var first, rest := Original(cs[0]), Flatten(cs[1..]);
      forall i | 0 <= i < |first| ensures NoMention(first[i], keys) {
        assert Flatten(cs)[i] == first[i];
      }
      forall i | 0 <= i < |rest| ensures NoMention(rest[i], keys) {
        assert Flatten(cs)[|first| + i] == rest[i];
      }
      ChunkLinesUnmentioned(cs[1..], keys);
      assert cs[0].Plain? ==> first[0] == cs[0].line;
    }
  }
}
