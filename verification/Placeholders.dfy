/** What the expansion makes of a line, with the placeholder texts written out: exact, without
    its reason, or altered. */
module Placeholders {
  import opened Text
  import opened SimplifyIgnore
  import opened RoundTrip
  import opened Markers

  ghost predicate OnlyAt(s: string, pat: string, n: nat) {
    forall k :: At(s, k, pat) ==> k == n
  }

  lemma AtBehind(a: string, b: string, k: int, pat: string)
    ensures At(b, k, pat) ==> At(a + b, |a| + k, pat)
  {
    if At(b, k, pat) {
      assert (a + b)[|a| + k..|a| + k + |pat|] == b[k..k + |pat|];
    }
  }

  lemma OnlyAtTail(a: string, pat: string, b: string)
    requires a != "" && OnlyAt(a + pat + b, pat, |a|)
    ensures OnlyAt(a[1..] + pat + b, pat, |a| - 1) && !At(a + pat + b, 0, pat)
  {
    var s, t := a + pat + b, a[1..] + pat + b;
    assert s == [a[0]] + t;
    forall k ensures At(t, k, pat) ==> k == |a| - 1 {
      AtBehind([a[0]], t, k, pat);
    }
  }

  lemma NoneAfter(pat: string, b: string)
    requires pat != "" && OnlyAt(pat + b, pat, 0)
    ensures !Contains(b, pat)
  {
    forall k | 0 <= k <= |b| ensures !At(b, k, pat) {
      AtBehind(pat, b, k, pat);
    }
  }

  /** The one occurrence of a pattern is replaced, and nothing else. */
  lemma {:induction false} ReplaceOnce(a: string, pat: string, b: string, repl: string)
    requires pat != "" && OnlyAt(a + pat + b, pat, |a|)
    ensures ReplaceAll(a + pat + b, pat, repl) == a + repl + b
    decreases |a|
  {
    var s := a + pat + b;
    if a == "" {
      assert s == pat + b && s[|pat|..] == b && At(s, 0, pat);
      NoneAfter(pat, b);
      ReplaceNone(b, pat, repl);
    } else {
      hide OnlyAt, At;
      OnlyAtTail(a, pat, b);
      ReplaceOnce(a[1..], pat, b, repl);
      assert s[1..] == a[1..] + pat + b && s[0] == a[0];
      assert a + repl + b == [a[0]] + (a[1..] + repl + b);
    }
  }

  /** A pattern around the token occurs only where the token does. */
  lemma PatternOnce(a: string, pre: string, hash: string, suf: string, b: string)
    requires HexWord(hash) && !Mentions(a + pre, hash) && !Mentions(suf + b, hash)
    ensures var pat := pre + "BLOCK_" + hash + suf;
      OnlyAt(a + pat + b, pat, |a|)
  {
    var token := "BLOCK_" + hash;
    var pat := pre + "BLOCK_" + hash + suf;
    var s, rest := a + pat + b, hash + (suf + b);
    assert s == (a + pre) + ("BLOCK_" + rest);
    NoMentionWithoutB(hash, hash);
    HashThenRest(hash, suf + b);
    forall k | At(s, k, pat) ensures k == |a| {
      assert pat[|pre|..|pre| + |token|] == token;
      SliceOfSlice(s, k, k + |pat|, |pre|, |pre| + |token|);
      assert At(s, k + |pre|, BLOCK + hash);
      OnlyToken(a + pre, rest, k + |pre|, hash);
    }
  }

  /** The hash itself does not begin a token, so it adds no mention. */
  lemma HashThenRest(hash: string, rest: string)
    requires HexWord(hash) && !Mentions(rest, hash)
    ensures !Mentions(hash + rest, hash)
  {
    assert forall i :: 0 <= i < 8 ==> (hash + rest)[i] == hash[i];
    forall k | 0 <= k <= |hash + rest| ensures !At(hash + rest, k, BLOCK + hash) {
      if At(hash + rest, k, BLOCK + hash) {
        TokenAt(hash + rest, k, hash);
        AtConcat(hash, rest, k, BLOCK + hash);
      }
    }
  }

  /** Text around a placeholder that does not disturb it. */
  ghost predicate Around(a: string, e: Entry, hash: string, b: string) {
    HexWord(hash) && !Mentions(a + e.prefix, hash) && !Mentions(e.suffix + b, hash)
  }

  lemma TokenInside(a: string, pre: string, hash: string, suf: string, b: string)
    ensures Contains(a + (pre + "BLOCK_" + hash + suf) + b, BLOCK + hash)
  {
    var s, k := a + (pre + "BLOCK_" + hash + suf) + b, |a| + |pre|;
    assert s == (a + pre) + (BLOCK + hash) + (suf + b);
    assert At(s, k, BLOCK + hash);
  }

  /** The exact placeholder, with any text before and after it on the line, becomes the block. */
  lemma ExactBecomesBlock(a: string, e: Entry, hash: string, b: string)
    requires Around(a, e, hash, b) && (Mentions(e.content, hash) || !Mentions(a + e.content + b, hash))
    requires !Mentions((if e.reason != "" then ": " + e.reason else "") + e.suffix + b, hash)
    ensures var line := a + e.prefix + "BLOCK_" + hash + (if e.reason != "" then ": " + e.reason else "") + e.suffix +
      b;
      ExpandWith(line, hash, e) == a + e.content + b
  {
    var suf := (if e.reason != "" then ": " + e.reason else "") + e.suffix;
    var pat := e.prefix + "BLOCK_" + hash + suf;
    var line := a + e.prefix + "BLOCK_" + hash + (if e.reason != "" then ": " + e.reason else "") + e.suffix + b;
    assert line == a + pat + b && pat == Placeholder(e, hash);
    TokenInside(a, e.prefix, hash, suf, b);
    PatternOnce(a, e.prefix, hash, suf, b);
    ReplaceOnce(a, pat, b, e.content);
  }

  /** The branch for a placeholder that is not exact. */
  lemma Loosely(line: string, e: Entry, hash: string, back: string)
    requires Mentions(line, hash) && !Mentions(e.content, hash) && !Mentions(back, hash)
    requires ReplaceAll(line, Placeholder(e, hash), e.content) == line
    requires ReplaceAll(line, e.prefix + "BLOCK_" + hash + e.suffix, e.content) == back
    ensures ExpandWith(line, hash, e) == back
  {
    hide ReplaceAll, Contains, Placeholder;
    assert e.prefix + (BLOCK + hash) + e.suffix == e.prefix + "BLOCK_" + hash + e.suffix;
  }

  /** The placeholder without its reason becomes the block alone. */
  lemma ReasonlessBecomesBlock(a: string, e: Entry, hash: string, b: string)
    requires Around(a, e, hash, b) && !Mentions(e.content, hash) && !Mentions(a + e.content + b, hash)
    requires var line := a + e.prefix + "BLOCK_" + hash + e.suffix + b;
      !Contains(line, e.prefix + "BLOCK_" + hash + (if e.reason != "" then ": " + e.reason else "") + e.suffix)
    ensures ExpandWith(a + e.prefix + "BLOCK_" + hash + e.suffix + b, hash, e) == a + e.content + b
  {
    hide ReplaceAll, Contains, ExpandWith;
    var pat := e.prefix + "BLOCK_" + hash + e.suffix;
    var line := a + e.prefix + "BLOCK_" + hash + e.suffix + b;
    assert line == a + pat + b;
    PlaceholderText(e, hash);
    TokenInside(a, e.prefix, hash, e.suffix, b);
    PatternOnce(a, e.prefix, hash, e.suffix, b);
    ReplaceNone(line, Placeholder(e, hash), e.content);
    ReplaceOnce(a, pat, b, e.content);
    Loosely(line, e, hash, a + e.content + b);
  }

  /** Otherwise the token alone becomes the block, and the text around it stays: so an altered
      reason, or an altered comment, stays behind the block. */
  lemma TokenBecomesBlock(a: string, e: Entry, hash: string, b: string)
    requires HexWord(hash) && !Mentions(a, hash) && !Mentions(b, hash)
    requires !Mentions(e.content, hash) && !Mentions(a + e.content + b, hash)
    requires var line := a + "BLOCK_" + hash + b;
      && !Contains(line, e.prefix + "BLOCK_" + hash + (if e.reason != "" then ": " + e.reason else "") + e.suffix)
      && !Contains(line, e.prefix + "BLOCK_" + hash + e.suffix)
    ensures ExpandWith(a + "BLOCK_" + hash + b, hash, e) == a + e.content + b
  {
    var token := "BLOCK_" + hash;
    var line := a + "BLOCK_" + hash + b;
    assert "" + "BLOCK_" + hash + "" == token && a + "" == a && "" + b == b && line == a + token + b;
    assert Placeholder(e, hash) ==
      e.prefix + "BLOCK_" + hash + (if e.reason != "" then ": " + e.reason else "") + e.suffix;
    TokenInside(a, "", hash, "", b);
    PatternOnce(a, "", hash, "", b);
    ReplaceNone(line, Placeholder(e, hash), e.content);
    assert e.prefix + (BLOCK + hash) + e.suffix == e.prefix + "BLOCK_" + hash + e.suffix;
    ReplaceNone(line, e.prefix + (BLOCK + hash) + e.suffix, e.content);
    ReplaceOnce(a, token, b, e.content);
  }

  /** A block that contains its own token is put in for its exact placeholder only. */
  lemma SelfMentionStops(line: string, hash: string, e: Entry)
    requires Mentions(e.content, hash)
    requires !Contains(line, e.prefix + "BLOCK_" + hash + (if e.reason != "" then ": " + e.reason else "") + e.suffix)
    ensures ExpandWith(line, hash, e) == line
  {
    assert Placeholder(e, hash) ==
      e.prefix + "BLOCK_" + hash + (if e.reason != "" then ": " + e.reason else "") + e.suffix;
    ReplaceNone(line, Placeholder(e, hash), e.content);
  }

  // ---- A whole line, with all block files ----

  /** When the line mentions one cached block, and what that block's file makes of it mentions
      none, that is what the line becomes, in any listing order. */
  lemma {:induction false} OneMention(line: string, hash: string, order: seq<string>, cache: Cache)
    requires hash in cache && forall k :: k in order ==> k in cache
    requires forall k :: k in order && k != hash ==> !Mentions(line, k)
    requires forall k :: k in order ==> !Mentions(ExpandWith(line, hash, cache[hash]), k)
    ensures ExpandKeys(line, order, cache) == if hash in order then ExpandWith(line, hash, cache[hash]) else line
  {
    if order != [] {
      var front, last := order[..|order| - 1], order[|order| - 1];
      assert order == front + [last];
      OneMention(line, hash, front, cache);
      NoExpansion(ExpandKeys(line, front, cache), last, cache[last]);
    }
  }

  /** Several placeholders on one line: the block files apply one after the other. */
  lemma {:induction false} ExpandInTurn(line: string, first: seq<string>, later: seq<string>, cache: Cache)
    ensures ExpandKeys(line, first + later, cache) == ExpandKeys(ExpandKeys(line, first, cache), later, cache)
  {
    if later == [] {
      assert first + later == first;
    } else {
      var front, last := later[..|later| - 1], later[|later| - 1];
      assert (first + later)[..|first + later| - 1] == first + front;
      ExpandInTurn(line, first, front, cache);
    }
  }

  /** Two placeholders on one line each become what their block files make of them, in listing order. */
  lemma BothInTurn(line: string, one: string, other: string, cache: Cache)
    requires one in cache && other in cache
    ensures ExpandKeys(line, [one, other], cache) ==
      ExpandWith(ExpandWith(line, one, cache[one]), other, cache[other])
  {
    var both := [one] + [other];
    assert both == [one, other] && [one][..0] == [] && [other][..0] == [];
    ExpandInTurn(line, [one], [other], cache);
    OneKey(line, one, cache);
    OneKey(ExpandKeys(line, [one], cache), other, cache);
  }

  lemma OneKey(line: string, hash: string, cache: Cache)
    requires hash in cache
    ensures ExpandKeys(line, [hash], cache) == ExpandWith(line, hash, cache[hash])
  {
    assert [hash][..0] == [];
  }

  /** An altered line of the file: what its placeholder becomes, the whole line becomes. */
  lemma LineBecomes(line: string, hash: string, order: seq<string>, cache: Cache)
    requires hash in cache && Lists(order, cache) && Mentions(line, hash)
    requires forall k :: k in cache && k != hash ==> !Mentions(line, k)
    requires forall k :: k in cache ==> !Mentions(ExpandWith(line, hash, cache[hash]), k)
    ensures ExpandLine(line, order, cache) == ExpandWith(line, hash, cache[hash])
  {
    MentionHasToken(line, hash);
    OneMention(line, hash, order, cache);
  }

  /** The text of the expanded file, line by line. */
  lemma {:induction false} ExpandedAt(lines: seq<string>, order: seq<string>, cache: Cache, i: nat)
    requires i < |lines|
    ensures i < |ExpandAll(lines, order, cache)| == |lines|
    ensures ExpandAll(lines, order, cache)[i] == ExpandLine(lines[i], order, cache)
  {
    ExpandAllLength(lines, order, cache);
    if i < |lines| - 1 {
      ExpandAllLength(lines[..|lines| - 1], order, cache);
      ExpandedAt(lines[..|lines| - 1], order, cache, i);
    }
  }

  /** The expanded file prints these lines, and ends in a newline exactly if the file does. */
  lemma ExpandedText(file: string, order: seq<string>, cache: Cache)
    requires file != ""
    ensures var text := Unlines(ExpandAll(Lines(file), order, cache));
      EndsWithNewline(text) &&
        Expanded(file, order, cache) == if EndsWithNewline(file) then text else text[..|text| - 1]
  {
    ExpandAllLength(Lines(file), order, cache);
    UnlinesEnds(ExpandAll(Lines(file), order, cache));
  }
}
