/** What the filter makes of a file, with the marker texts written out. */
module Markers {
  import opened Text
  import opened SimplifyIgnore
  import opened RoundTrip

  /** The text occurs in the line. */
  ghost predicate Has(line: string, text: string) {
    exists a: string, b: string :: line == a + text + b
  }

  lemma ContainsExactly(s: string, pat: string)
    ensures Contains(s, pat) <==> Has(s, pat)
  {
    if Contains(s, pat) {
      var k :| 0 <= k <= |s| && At(s, k, pat);
      assert s == s[..k] + pat + s[k + |pat|..];
    }
    if Has(s, pat) {
      var a: string, b: string :| s == a + pat + b;
      assert At(s, |a|, pat);
    }
  }

  predicate BlankChar(c: char) {
    c == ' ' || c == '\t' || c == '\n' || c == '\U{0b}' || c == '\U{0c}' || c == '\r'
  }

  predicate Blank(s: string) {
    forall i :: 0 <= i < |s| ==> BlankChar(s[i])
  }

  // ---- The first line of a block ----

  lemma NoOverlap(s: string, i: nat, j: nat)
    requires At(s, i, "simplify-ignore-start") && At(s, j, "simplify-ignore-start") && i <= j
    ensures i == j || i + 21 <= j
  {
    var v, w := s[i..i + 21], s[j..j + 21];
    assert v == w == "simplify-ignore-start";
    assert s[j] == w[0] == 's' && s[j + 1] == w[1] == 'i';
    assert forall m :: 0 <= m < 21 ==> s[i + m] == v[m];
    assert forall m :: 0 < m < 21 && v[m] == 's' ==> m == 16;
    assert v[17] == 't';
  }

  /** The prefix is the text before the first marker. */
  lemma PrefixOf(p: string, t: string)
    requires !Has(p, "simplify-ignore-start")
    ensures Prefix(p + "simplify-ignore-start" + t) == p
  {
    var line := p + "simplify-ignore-start" + t;
    var k := Find(line, START, 0);
    assert At(line, |p|, START);
    if k < |p| {
      NoOverlap(line, k, |p|);
      assert At(p, k, START);
      ContainsExactly(p, START);
    }
  }

  /** The suffix closes the kind of comment that the line closes, the first kind first. */
  lemma SuffixOf(line: string)
    ensures Suffix(line) == if Has(line, "*/") then " */" else if Has(line, "-->") then " -->" else ""
  {
    ContainsExactly(line, "*/");
    ContainsExactly(line, "-->");
  }

  lemma {:induction false} SkipBlank(line: string, lo: nat, hi: nat)
    requires lo <= hi <= |line| && Blank(line[lo..hi]) && (hi < |line| ==> !BlankChar(line[hi]))
    ensures SkipSpaces(line, lo) == hi
    decreases hi - lo
  {
    if lo < hi {
      assert line[lo..hi][0] == line[lo] && line[lo..hi][1..] == line[lo + 1..hi];
      SkipBlank(line, lo + 1, hi);
    }
  }

  lemma {:induction false} TrimBlank(line: string, lo: nat, end: nat, hi: nat)
    requires lo <= end <= hi <= |line| && Blank(line[end..hi]) && (lo < end ==> !BlankChar(line[end - 1]))
    ensures TrimEnd(line, lo, hi) == end
    decreases hi
  {
    if end < hi {
      assert line[end..hi][hi - 1 - end] == line[hi - 1] && line[end..hi][..hi - 1 - end] == line[end..hi - 1];
      TrimBlank(line, lo, end, hi - 1);
    }
  }

  lemma FindIs(s: string, pat: string, from: nat, k: nat)
    requires from <= k && At(s, k, pat) && forall j :: from <= j < k ==> !At(s, j, pat)
    ensures Find(s, pat, from) == k
  {
  }

  lemma {:induction false} FindLastIs(s: string, pat: string, from: nat, k: nat)
    requires k <= from && At(s, k, pat) && forall j :: k < j <= from ==> !At(s, j, pat)
    ensures FindLast(s, pat, from) == k
    decreases from
  {
    if k < from {
      FindLastIs(s, pat, from - 1, k);
    }
  }

  // ---- The reason ----

  lemma NotInside(line: string, lo: nat, pos: nat, text: string, pat: string)
    requires lo <= pos <= |line| && line[lo..pos] == text && !Has(text, pat)
    ensures forall k :: lo <= k && k + |pat| <= pos ==> !At(line, k, pat)
  {
    ContainsExactly(text, pat);
    forall k | lo <= k && k + |pat| <= pos ensures !At(line, k, pat) {
      SliceOfSlice(line, lo, pos, k - lo, k - lo + |pat|);
      assert !At(text, k - lo, pat);
    }
  }

  lemma {:induction false} TrimStops(line: string, lo: nat, m: nat, hi: nat)
    requires lo < m <= hi <= |line| && !BlankChar(line[m - 1])
    ensures TrimEnd(line, lo, hi) >= m
    decreases hi
  {
    if m < hi {
      TrimStops(line, lo, m, hi - 1);
    }
  }

  /** line[lo..end] is a text without blanks at its ends or comment closers, and blanks
      follow up to pos. */
  ghost predicate Reads(line: string, lo: nat, end: nat, pos: nat) {
    && lo <= end <= pos <= |line| && Blank(line[end..pos]) && (lo < end ==> !BlankChar(line[end - 1]))
    && (forall k :: lo <= k && k + 2 <= pos ==> !At(line, k, "*/"))
    && (forall k :: lo <= k && k + 3 <= pos ==> !At(line, k, "-->"))
  }

  function Cut(line: string, lo: nat): nat
    requires lo <= |line|
  {
    var a := CutBefore(line, lo, |line|, "*/");
    TrimEnd(line, lo, CutBefore(line, lo, a, "-->"))
  }

  lemma NoDashes(line: string, lo: nat, end: nat, pos: nat)
    requires Reads(line, lo, end, pos)
    ensures CutBefore(line, lo, end, "-->") == end
  {
    forall k | lo <= k ensures !At(line[..end], k, "-->") {
      PrefixAt(line, end, k, "-->");
    }
  }

  lemma StarChars(line: string, k: int)
    requires At(line, k, "*/")
    ensures line[k] == '*' && line[k + 1] == '/'
  {
    var w := line[k..k + 2];
    assert line[k] == w[0] && line[k + 1] == w[1];
  }

  lemma DashChars(line: string, k: int)
    requires At(line, k, "-->")
    ensures line[k] == '-' && line[k + 1] == '-' && line[k + 2] == '>'
  {
    var w := line[k..k + 3];
    assert line[k] == w[0] && line[k + 1] == w[1] && line[k + 2] == w[2];
  }

  lemma NoStarBefore(line: string, lo: nat, end: nat, pos: nat)
    requires Reads(line, lo, end, pos) && pos < |line| && line[pos] != '/'
    ensures forall k :: lo <= k < pos ==> !At(line, k, "*/")
  {
    forall k | lo <= k < pos ensures !At(line, k, "*/") {
      if At(line, k, "*/") {
        StarChars(line, k);
      }
    }
  }

  lemma CutAtStar(line: string, lo: nat, end: nat, pos: nat)
    requires Reads(line, lo, end, pos) && At(line, pos, "*/")
    ensures Cut(line, lo) == end
  {
    assert line[..|line|] == line;
    StarChars(line, pos);
    NoStarBefore(line, lo, end, pos);
    FindIs(line, "*/", lo, pos);
    TrimBlank(line, lo, end, pos);
    NoDashes(line, lo, end, pos);
    assert line[end..end] == "";
    TrimBlank(line, lo, end, end);
  }

  /** Nothing is cut by the first cut before the dashes. */
  lemma StarIsLater(line: string, lo: nat, end: nat, pos: nat)
    requires Reads(line, lo, end, pos) && At(line, pos, "-->")
    ensures pos + 3 <= CutBefore(line, lo, |line|, "*/")
  {
    assert line[..|line|] == line;
    DashChars(line, pos);
    NoStarBefore(line, lo, end, pos);
    var k := Find(line, "*/", lo);
    if k >= 0 {
      StarChars(line, k);
      TrimStops(line, lo, pos + 3, k);
    }
  }

  lemma PrefixAt(line: string, a: nat, k: int, pat: string)
    requires a <= |line|
    ensures At(line[..a], k, pat) ==> At(line, k, pat)
  {
    if At(line[..a], k, pat) {
      assert line[..a][k..k + |pat|] == line[k..k + |pat|];
    }
  }

  lemma NoDashesBefore(line: string, a: nat, lo: nat, end: nat, pos: nat)
    requires Reads(line, lo, end, pos) && At(line, pos, "-->") && pos + 3 <= a <= |line|
    ensures At(line[..a], pos, "-->") && forall k :: lo <= k < pos ==> !At(line[..a], k, "-->")
  {
    DashChars(line, pos);
    assert line[..a][pos..pos + 3] == line[pos..pos + 3];
    forall k | lo <= k < pos ensures !At(line[..a], k, "-->") {
      PrefixAt(line, a, k, "-->");
      if At(line, k, "-->") {
        DashChars(line, k);
      }
    }
  }

  lemma CutAtDashes(line: string, lo: nat, end: nat, pos: nat)
    requires Reads(line, lo, end, pos) && At(line, pos, "-->")
    ensures Cut(line, lo) == end
  {
    StarIsLater(line, lo, end, pos);
    var a := CutBefore(line, lo, |line|, "*/");
    NoDashesBefore(line, a, lo, end, pos);
    FindIs(line[..a], "-->", lo, pos);
    TrimBlank(line, lo, end, pos);
    assert line[end..end] == "";
    TrimBlank(line, lo, end, end);
  }

  lemma CutAtEnd(line: string, lo: nat, end: nat)
    requires Reads(line, lo, end, |line|)
    ensures Cut(line, lo) == end
  {
    assert line[..|line|] == line;
    assert Find(line, "*/", lo) < 0 && Find(line, "-->", lo) < 0;
    TrimBlank(line, lo, end, |line|);
  }

  /** A comment closer, and whatever comes after it. */
  predicate Closer(c: string) {
    c == "" || At(c, 0, "*/") || At(c, 0, "-->")
  }

  /** No blank at either end. */
  predicate Trimmed(r: string) {
    r != "" ==> !BlankChar(r[0]) && !BlankChar(r[|r| - 1])
  }

  lemma ThreeParts(line: string, lo: nat, r: string, v: string, c: string)
    requires lo <= |line| && line[lo..] == r + v + c
    ensures var end, pos := lo + |r|, lo + |r| + |v|;
      && pos <= |line| && line[lo..end] == r && line[end..pos] == v && line[pos..] == c && line[lo..pos] == r + v
  {
    var t, end, pos := r + v + c, lo + |r|, lo + |r| + |v|;
    assert |t| == |line| - lo;
    assert t[..|r|] == r && t[|r|..|r| + |v|] == v && t[|r| + |v|..] == c && t[..|r| + |v|] == r + v;
    assert line[lo..end] == t[..|r|] && line[end..pos] == t[|r|..|r| + |v|];
    assert line[pos..] == t[|r| + |v|..] && line[lo..pos] == t[..|r| + |v|];
  }

  lemma CutAtCloser(line: string, lo: nat, r: string, v: string, c: string)
    requires lo <= |line| && line[lo..] == r + v + c && Closer(c) && Blank(v) && Trimmed(r)
    requires !Has(r + v, "*/") && !Has(r + v, "-->")
    ensures Cut(line, lo) == lo + |r|
  {
    var end, pos := lo + |r|, lo + |r| + |v|;
    ThreeParts(line, lo, r, v, c);
    assert end > lo ==> line[end - 1] == r[|r| - 1];
    NotInside(line, lo, pos, r + v, "*/");
    NotInside(line, lo, pos, r + v, "-->");
    if At(c, 0, "*/") {
      assert line[pos..pos + 2] == c[0..2];
      CutAtStar(line, lo, end, pos);
    } else if At(c, 0, "-->") {
      assert line[pos..pos + 3] == c[0..3];
      CutAtDashes(line, lo, end, pos);
    } else {
      CutAtEnd(line, lo, end);
    }
  }

  lemma MarkerWithColon(line: string, j: nat)
    requires At(line, j, START_REASON)
    ensures At(line, j, START) && line[j] == 's' && line[j + 21] == ':'
  {
    var w := line[j..j + 22];
    assert line[j] == w[0] && line[j + 21] == w[21];
    assert line[j..j + 21] == w[..21] == START;
  }

  /** The last marker with a colon is the one at |p|. */
  lemma LastMarker(p: string, t: string)
    requires !Has(t, "simplify-ignore-start:")
    ensures var line := p + "simplify-ignore-start:" + t; FindLast(line, START_REASON, |line|) == |p|
  {
    var front := p + "simplify-ignore-start:";
    var line := front + t;
    ContainsExactly(t, START_REASON);
    assert At(line, |p|, START_REASON);
    MarkerWithColon(line, |p|);
    forall j | |p| < j <= |line| ensures !At(line, j, START_REASON) {
      if At(line, j, START_REASON) {
        MarkerWithColon(line, j);
        NoOverlap(line, |p|, j);
        AtConcat(front, t, j, START_REASON);
      }
    }
    FindLastIs(line, START_REASON, |line|, |p|);
  }

  lemma ReasonIsCut(line: string, k: nat, lo: nat)
    requires FindLast(line, START_REASON, |line|) == k && k + 22 <= lo <= |line| && SkipSpaces(line, k + 22) == lo
    ensures lo <= Cut(line, lo) <= |line| && Reason(line) == line[lo..Cut(line, lo)]
  {
  }

  lemma ReasonText(line: string, k: nat, w: string, r: string, v: string, c: string)
    requires k + 22 <= |line| && FindLast(line, START_REASON, |line|) == k && line[k + 22..] == w + r + v + c
    requires Blank(w) && Blank(v) && Trimmed(r) && Closer(c) && (r == "" ==> v == "")
    requires !Has(r + v, "*/") && !Has(r + v, "-->")
    ensures Reason(line) == r
  {
    hide Cut, SkipSpaces, Reason, Blank, Closer, Has, Trimmed;
    var lo := k + 22 + |w|;
    Parts(line, k + 22, w, r, v, c);
    SkipToText(line, k + 22, w, r, v, c);
    CutAtCloser(line, lo, r, v, c);
    ReasonIsCut(line, k, lo);
  }

  lemma Parts(line: string, from: nat, w: string, r: string, v: string, c: string)
    requires from <= |line| && line[from..] == w + r + v + c
    ensures var lo := from + |w|;
      lo + |r| <= |line| && line[from..lo] == w && line[lo..] == r + v + c && line[lo..lo + |r|] == r
  {
    var lo, t := from + |w|, w + r + v + c;
    assert t[..|w|] == w && t[|w|..] == r + v + c && t[|w|..|w| + |r|] == r;
    assert line[from..lo] == t[..|w|] && line[lo..] == t[|w|..] && line[lo..lo + |r|] == t[|w|..|w| + |r|];
  }

  lemma SkipToText(line: string, from: nat, w: string, r: string, v: string, c: string)
    requires from + |w| <= |line| && line[from..from + |w|] == w && line[from + |w|..] == r + v + c
    requires Blank(w) && Trimmed(r) && Closer(c) && (r == "" ==> v == "")
    ensures SkipSpaces(line, from) == from + |w|
  {
    var lo := from + |w|;
    if lo < |line| {
      assert line[lo] == line[lo..][0] == (r + v + c)[0];
      if r == "" {
        assert (r + v + c) == c;
        CloserChar(c);
      }
    }
    SkipBlank(line, from, lo);
  }

  /** The reason is the text between the last marker with a colon and the comment closer,
      or the end of the line, without the blanks around it. */
  lemma ReasonOf(p: string, w: string, r: string, v: string, c: string)
    requires Blank(w) && Blank(v) && Trimmed(r) && Closer(c)
    requires !Has(r + v, "*/") && !Has(r + v, "-->")
    requires !Has(w + r + v + c, "simplify-ignore-start:")
    ensures Reason(p + "simplify-ignore-start:" + (w + r + v + c)) == r
  {
    var t := w + r + v + c;
    var line := p + "simplify-ignore-start:" + t;
    LastMarker(p, t);
    assert line[|p| + 22..] == t;
    if r == "" {
      NothingHas("" + "", "*/");
      NothingHas("" + "", "-->");
      assert (w + v) + "" + "" + c == t;
      ReasonText(line, |p|, w + v, "", "", c);
    } else {
      ReasonText(line, |p|, w, r, v, c);
    }
  }

  lemma CloserChar(c: string)
    requires Closer(c) && c != ""
    ensures !BlankChar(c[0])
  {
    if At(c, 0, "*/") {
      StarChars(c, 0);
    } else {
      DashChars(c, 0);
    }
  }

  lemma NothingHas(s: string, pat: string)
    requires |s| < |pat|
    ensures !Has(s, pat)
  {
  }

  lemma NoReason(line: string)
    requires !Has(line, "simplify-ignore-start:")
    ensures Reason(line) == ""
  {
    ContainsExactly(line, START_REASON);
    assert FindLast(line, START_REASON, |line|) < 0 ||
      At(line, FindLast(line, START_REASON, |line|), START_REASON);
  }

  // ---- The placeholder line ----

  lemma BlankEnd(r: string)
    requires !Has(r, "*/") && !Has(r, "-->")
    ensures !Has(r + " ", "*/") && !Has(r + " ", "-->")
  {
    var t := r + " ";
    ContainsExactly(r, "*/");
    ContainsExactly(r, "-->");
    ContainsExactly(t, "*/");
    ContainsExactly(t, "-->");
    assert t[..|r|] == r;
    forall k ensures !At(t, k, "*/") {
      if At(t, k, "*/") {
        StarChars(t, k);
        AtConcat(r, " ", k, "*/");
      }
    }
    forall k ensures !At(t, k, "-->") {
      if At(t, k, "-->") {
        DashChars(t, k);
        AtConcat(r, " ", k, "-->");
      }
    }
  }

  /** The comment on a marker's line is closed by `tail`, and x follows. */
  ghost predicate Closes(line: string, r: string, tail: string, x: string) {
    || tail == " */"
    || (tail == " -->" && !Has(line, "*/"))
    || (tail == "" && (r != "" ==> x == "") && !Has(line, "*/") && !Has(line, "-->"))
  }

  /** A reason that the line can carry: no blanks at its ends, no comment closer. */
  ghost predicate PlainReason(r: string) {
    Trimmed(r) && !Has(r, "*/") && !Has(r, "-->")
  }

  lemma SuffixIsTail(front: string, r: string, tail: string, x: string)
    requires Closes(front + tail + x, r, tail, x)
    ensures Suffix(front + tail + x) == tail
  {
    var line := front + tail + x;
    SuffixOf(line);
    if tail == " */" {
      assert line == (front + " ") + "*/" + x;
    } else if tail == " -->" {
      assert line == (front + " ") + "-->" + x;
    }
  }

  lemma ReasonBeforeTail(p: string, r: string, tail: string, x: string)
    requires r != "" && PlainReason(r) && (tail == "" ==> x == "") && tail in {" */", " -->", ""}
    requires !Has(" " + r + tail + x, "simplify-ignore-start:")
    ensures Reason(p + "simplify-ignore-start: " + r + tail + x) == r
  {
    var line, marker := p + "simplify-ignore-start: " + r + tail + x, "simplify-ignore-start:";
    BlankEnd(r);
    if tail == "" {
      assert r + "" == r && " " + r + "" + "" == " " + r + tail + x;
      assert line == p + marker + (" " + r + "" + "");
      ReasonOf(p, " ", r, "", "");
    } else {
      var c := tail[1..] + x;
      assert " " + r + " " + c == " " + r + tail + x;
      assert line == p + marker + (" " + r + " " + c);
      assert tail == " */" ==> c[0..2] == "*/";
      assert tail == " -->" ==> c[0..3] == "-->";
      ReasonOf(p, " ", r, " ", c);
    }
  }

  /** What is kept of a first line `p simplify-ignore-start: r tail x`. */
  lemma EntryIs(p: string, r: string, tail: string, x: string, content: string)
    requires !Has(p, "simplify-ignore-start") && PlainReason(r)
    requires var first := p + "simplify-ignore-start" + (if r != "" then ": " + r else "") + tail + x;
      && Closes(first, r, tail, x)
      && if r == "" then !Has(first, "simplify-ignore-start:")
         else !Has(" " + r + tail + x, "simplify-ignore-start:")
    ensures var first := p + "simplify-ignore-start" + (if r != "" then ": " + r else "") + tail + x;
      EntryOf(first, content) == Entry(content, p, tail, r)
  {
    var part := if r != "" then ": " + r else "";
    var front := p + "simplify-ignore-start";
    var first := front + part + tail + x;
    assert first == front + (part + tail + x);
    hide Prefix, Suffix, Reason, Has;
    PrefixOf(p, part + tail + x);
    SuffixIsTail(front + part, r, tail, x);
    if r == "" {
      NoReason(first);
    } else {
      assert front + (": " + r) + tail + x == p + "simplify-ignore-start: " + r + tail + x;
      ReasonBeforeTail(p, r, tail, x);
    }
  }

  lemma PlaceholderText(e: Entry, hash: string)
    ensures Placeholder(e, hash) ==
      e.prefix + "BLOCK_" + hash + (if e.reason != "" then ": " + e.reason else "") + e.suffix
  {
  }

  /** The placeholder of a block keeps the text before the marker, the reason and the comment
      closer of its first line: for `p simplify-ignore-start: r tail x` it is
      `p BLOCK_hash: r tail`. */
  lemma PlaceholderOf(p: string, r: string, tail: string, x: string, content: string, hash: string)
    requires !Has(p, "simplify-ignore-start") && PlainReason(r)
    requires var first := p + "simplify-ignore-start" + (if r != "" then ": " + r else "") + tail + x;
      && Closes(first, r, tail, x)
      && if r == "" then !Has(first, "simplify-ignore-start:")
         else !Has(" " + r + tail + x, "simplify-ignore-start:")
    ensures var first := p + "simplify-ignore-start" + (if r != "" then ": " + r else "") + tail + x;
      Placeholder(EntryOf(first, content), hash) ==
        p + "BLOCK_" + hash + (if r != "" then ": " + r else "") + tail
  {
    hide EntryOf, Placeholder, Has;
    EntryIs(p, r, tail, x, content);
    PlaceholderText(Entry(content, p, tail, r), hash);
  }

  // ---- The lines that are shown ----

  function Shown(h: Hash, lines: seq<string>): seq<string> {
    EmitAll(h, Chunks(lines))
  }

  lemma {:induction false} EmitCons(h: Hash, c: Chunk, cs: seq<Chunk>)
    ensures EmitAll(h, [c] + cs) == [Emit(h, c)] + EmitAll(h, cs)
    decreases |cs|
  {
    hide Emit;
    var all, n := [c] + cs, |cs| - 1;
    assert EmitAll(h, all) == EmitAll(h, all[..|cs|]) + [Emit(h, all[|cs|])];
    if cs == [] {
      assert all[..0] == [];
    } else {
      assert all[..|cs|] == [c] + cs[..n] && all[|cs|] == cs[n];
      EmitCons(h, c, cs[..n]);
    }
  }

  /** A line without a start marker outside the blocks is shown as it is. */
  lemma PlainIsShown(h: Hash, line: string, rest: seq<string>)
    requires !Has(line, "simplify-ignore-start")
    ensures Shown(h, [line] + rest) == [line] + Shown(h, rest)
  {
    ContainsExactly(line, "simplify-ignore-start");
    PlainChunk([line] + rest, 0);
    assert ([line] + rest)[0..] == [line] + rest && ([line] + rest)[1..] == rest;
    EmitCons(h, Plain(line), Chunks(rest));
  }

  lemma {:induction false} PlainLinesAreShown(h: Hash, before: seq<string>, rest: seq<string>)
    requires forall i :: 0 <= i < |before| ==> !Has(before[i], "simplify-ignore-start")
    ensures Shown(h, before + rest) == before + Shown(h, rest)
  {
    hide Shown, Has;
    if before == [] {
      assert before + rest == rest;
    } else {
      assert before + rest == [before[0]] + (before[1..] + rest);
      PlainIsShown(h, before[0], before[1..] + rest);
      PlainLinesAreShown(h, before[1..], rest);
    }
  }

  /** From a start marker to the first end marker: the same line, or a later one. */
  ghost predicate IsBlock(block: seq<string>) {
    && block != [] && Has(block[0], "simplify-ignore-start") && Has(block[|block| - 1], "simplify-ignore-end")
    && forall i :: 0 <= i < |block| - 1 ==> !Has(block[i], "simplify-ignore-end")
  }

  /** A block is shown as the one line of its placeholder. */
  lemma BlockIsShown(h: Hash, block: seq<string>, rest: seq<string>)
    requires IsBlock(block)
    ensures Shown(h, block + rest) ==
      [Placeholder(EntryOf(block[0], Join(block)), h(Join(block)))] + Shown(h, rest)
  {
    var lines, n := block + rest, |block| - 1;
    ContainsExactly(block[0], "simplify-ignore-start");
    forall i | 0 <= i <= n ensures HasEnd(lines[i]) <==> Has(block[i], "simplify-ignore-end") {
      ContainsExactly(block[i], "simplify-ignore-end");
    }
    BlockChunk(lines, 0, n);
    assert lines[0..] == lines && lines[0..n + 1] == block && lines[n + 1..] == rest;
    EmitCons(h, Block(block), Chunks(rest));
  }

  /** A start marker that no end marker follows hides nothing. */
  lemma UnclosedIsShown(h: Hash, lines: seq<string>)
    requires lines != [] && Has(lines[0], "simplify-ignore-start")
    requires forall i :: 0 <= i < |lines| ==> !Has(lines[i], "simplify-ignore-end")
    ensures Shown(h, lines) == lines
  {
    ContainsExactly(lines[0], "simplify-ignore-start");
    forall i | 0 <= i < |lines| ensures !HasEnd(lines[i]) {
      ContainsExactly(lines[i], "simplify-ignore-end");
    }
    OpenCloses(lines, 0, |lines|);
    assert lines[0..] == lines;
    EmitAllPlain(h, lines);
  }

  lemma {:induction false} EmitAllPlain(h: Hash, lines: seq<string>)
    ensures EmitAll(h, AllPlain(lines)) == lines
  {
    if lines != [] {
      EmitAllPlain(h, lines[1..]);
      EmitCons(h, Plain(lines[0]), AllPlain(lines[1..]));
    }
  }

  /** For every file: the lines before a block are shown as they are, the block as one line
      `p BLOCK_hash: reason tail`, and then what is shown of the rest. */
  lemma MarkedBlockIsShown(h: Hash, before: seq<string>, p: string, r: string, tail: string, x: string,
                           inner: seq<string>, after: seq<string>)
    requires forall i :: 0 <= i < |before| ==> !Has(before[i], "simplify-ignore-start")
    requires !Has(p, "simplify-ignore-start") && PlainReason(r)
    requires var first := p + "simplify-ignore-start" + (if r != "" then ": " + r else "") + tail + x;
      && Closes(first, r, tail, x) && IsBlock([first] + inner)
      && if r == "" then !Has(first, "simplify-ignore-start:")
         else !Has(" " + r + tail + x, "simplify-ignore-start:")
    ensures var first := p + "simplify-ignore-start" + (if r != "" then ": " + r else "") + tail + x;
      var hash := h(Join([first] + inner));
      Shown(h, before + ([first] + inner) + after) ==
        before + [p + "BLOCK_" + hash + (if r != "" then ": " + r else "") + tail] + Shown(h, after)
  {
    var first := p + "simplify-ignore-start" + (if r != "" then ": " + r else "") + tail + x;
    var block := [first] + inner;
    hide Shown, Has, Closes, PlainReason;
    assert before + block + after == before + (block + after);
    PlainLinesAreShown(h, before, block + after);
    BlockIsShown(h, block, after);
    PlaceholderOf(p, r, tail, x, Join(block), h(Join(block)));
  }

  /** The filtered file has these lines, and ends in a newline exactly if the file does. */
  lemma FilteredIsShown(h: Hash, src: string)
    requires GoodHash(h)
    ensures Lines(Filtered(h, src)) == Shown(h, Lines(src))
    ensures src != "" ==> (EndsWithNewline(Filtered(h, src)) <==> EndsWithNewline(src))
    ensures Filtered(h, src) == "" <==> src == ""
  {
    FilteredLines(h, src);
  }
}
