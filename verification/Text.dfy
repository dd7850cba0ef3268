/** Lines, substring search and literal replacement, as the shell and sed do them. */
module Text {

  // ---- Lines ----

  /** What `while IFS= read -r line || [ -n "$line" ]` yields: a last line without newline
      counts unless it is empty. */
  function Lines(s: string): (ls: seq<string>)
    ensures s != "" ==> ls != []
  {
    if s == "" then []
    else if s[0] == '\n' then [""] + Lines(s[1..])
    else if |s| == 1 then [s]
    else
      var rest := Lines(s[1..]);
      [[s[0]] + rest[0]] + rest[1..]
  }

  /** `printf '%s\n'` of each line. */
  function Unlines(ls: seq<string>): string {
    if ls == [] then "" else ls[0] + "\n" + Unlines(ls[1..])
  }

  /** Lines joined by newlines, without a final one. */
  function Join(ls: seq<string>): string {
    if ls == [] then ""
    else if |ls| == 1 then ls[0]
    else ls[0] + "\n" + Join(ls[1..])
  }

  predicate EndsWithNewline(s: string) {
    s != "" && s[|s| - 1] == '\n'
  }

  /** Give dest the trailing-newline state of src (`perl -pe 'chomp if eof'`). */
  function MatchTrailingNewline(dest: string, src: string): string {
    if dest != "" && src != "" && !EndsWithNewline(src) && EndsWithNewline(dest) then dest[..|dest| - 1]
    else dest
  }

  lemma {:induction false} UnlinesConcat(a: seq<string>, b: seq<string>)
    ensures Unlines(a + b) == Unlines(a) + Unlines(b)
  {
    if a == [] {
      assert a + b == b;
    } else {
      assert (a + b)[1..] == a[1..] + b;
      UnlinesConcat(a[1..], b);
    }
  }

  lemma UnlinesSnoc(ls: seq<string>, l: string)
    ensures Unlines(ls + [l]) == Unlines(ls) + (l + "\n")
  {
    UnlinesConcat(ls, [l]);
    assert [l][1..] == [];
    assert Unlines([l]) == l + "\n";
  }

  lemma {:induction false} JoinIsUnlines(ls: seq<string>)
    requires ls != []
    ensures Join(ls) + "\n" == Unlines(ls)
  {
    if |ls| == 1 {
      assert ls[0] + "\n" + Unlines(ls[1..]) == ls[0] + "\n";
    } else {
      JoinIsUnlines(ls[1..]);
    }
  }

  lemma {:induction false} JoinSnoc(ls: seq<string>, l: string)
    requires ls != []
    ensures Join(ls + [l]) == Join(ls) + "\n" + l
  {
    if |ls| > 1 {
      assert (ls + [l])[1..] == ls[1..] + [l];
      JoinSnoc(ls[1..], l);
    } else {
      assert (ls + [l])[1..] == [l];
    }
  }

  lemma {:induction false} UnlinesEnds(ls: seq<string>)
    requires ls != []
    ensures EndsWithNewline(Unlines(ls))
  {
    if |ls| > 1 {
      UnlinesEnds(ls[1..]);
    }
  }

  lemma UnlinesCons(ls: seq<string>)
    requires ls != []
    ensures Unlines(ls) == (ls[0] + "\n") + Unlines(ls[1..])
  {
  }

  lemma Associative(a: string, b: string, c: string)
    ensures (a + b) + c == a + (b + c)
  {
  }

  lemma {:induction false} PrefixFirst(c: char, ls: seq<string>)
    requires ls != []
    ensures Unlines([[c] + ls[0]] + ls[1..]) == [c] + Unlines(ls)
  {
    var longer := [[c] + ls[0]] + ls[1..];
    assert longer[1..] == ls[1..];
    UnlinesCons(longer);
    UnlinesCons(ls);
    hide Unlines;
    Associative([c], ls[0], "\n");
    Associative([c], ls[0] + "\n", Unlines(ls[1..]));
  }

  /** Splitting and printing again gives the text back, up to the final newline. */
  lemma {:induction false} UnlinesOfLines(s: string)
    ensures Unlines(Lines(s)) == if s == "" || EndsWithNewline(s) then s else s + "\n"
  {
    if s != "" {
      var t := s[1..];
      UnlinesOfLines(t);
      assert s == [s[0]] + t;
      if s[0] == '\n' {
        assert Lines(s)[1..] == Lines(t) && Lines(s)[0] == "";
        assert Unlines(Lines(s)) == "\n" + Unlines(Lines(t));
      } else if |s| == 1 {
        assert Lines(s)[1..] == [];
      } else {
        PrefixFirst(s[0], Lines(t));
        assert Unlines(Lines(s)) == [s[0]] + Unlines(Lines(t));
      }
    }
  }

  lemma LinesRoundTrip(s: string)
    ensures MatchTrailingNewline(Unlines(Lines(s)), s) == s
  {
    UnlinesOfLines(s);
  }

  lemma {:induction false} LinesHaveNoNewline(s: string)
    ensures forall l :: l in Lines(s) ==> '\n' !in l
  {
    if s != "" && s[0] == '\n' {
      LinesHaveNoNewline(s[1..]);
    } else if |s| > 1 {
      LinesHaveNoNewline(s[1..]);
      var rest := Lines(s[1..]);
      assert rest[0] in rest && forall l :: l in rest[1..] ==> l in rest;
    }
  }

  lemma {:induction false} LinesOfLine(l: string, rest: string)
    requires '\n' !in l
    ensures Lines(l + "\n" + rest) == [l] + Lines(rest)
  {
    if l == "" {
      assert ("\n" + rest)[1..] == rest;
      assert l + "\n" + rest == "\n" + rest;
    } else {
      var s := l + "\n" + rest;
      assert s[1..] == l[1..] + "\n" + rest;
      LinesOfLine(l[1..], rest);
      assert [s[0]] + l[1..] == l;
    }
  }

  lemma {:induction false} LinesOfUnlines(ls: seq<string>)
    requires forall l :: l in ls ==> '\n' !in l
    ensures Lines(Unlines(ls)) == ls
  {
    if ls != [] {
      LinesOfLine(ls[0], Unlines(ls[1..]));
      LinesOfUnlines(ls[1..]);
    }
  }

  lemma {:induction false} LinesOfOne(l: string)
    requires '\n' !in l && l != ""
    ensures Lines(l) == [l]
  {
    if |l| > 1 {
      LinesOfOne(l[1..]);
      assert [l[0]] + l[1..] == l;
    }
  }

  /** The same when the final newline is missing and the last line is not empty. */
  lemma {:induction false} LinesOfJoin(ls: seq<string>)
    requires ls != [] && (forall l :: l in ls ==> '\n' !in l) && ls[|ls| - 1] != ""
    ensures Lines(Join(ls)) == ls
  {
    if |ls| == 1 {
      LinesOfOne(ls[0]);
    } else {
      LinesOfLine(ls[0], Join(ls[1..]));
      LinesOfJoin(ls[1..]);
    }
  }

  lemma {:induction false} LastLine(s: string)
    requires s != ""
    ensures !EndsWithNewline(s) ==> Lines(s)[|Lines(s)| - 1] != ""
  {
    if s[0] == '\n' {
      if |s| > 1 {
        LastLine(s[1..]);
      }
    } else if |s| > 1 {
      LastLine(s[1..]);
      var rest := Lines(s[1..]);
      assert |rest| == 1 || Lines(s)[|Lines(s)| - 1] == rest[|rest| - 1];
    }
  }

  // ---- Substrings ----

  predicate At(s: string, k: int, pat: string) {
    0 <= k && k + |pat| <= |s| && s[k..k + |pat|] == pat
  }

  predicate Contains(s: string, pat: string) {
    exists k :: 0 <= k <= |s| && At(s, k, pat)
  }

  /** The first position at or after `from`. */
  function Find(s: string, pat: string, from: nat): (r: int)
    ensures r == -1 || (from <= r && At(s, r, pat))
    ensures forall k :: from <= k < (if r == -1 then |s| + 1 else r) ==> !At(s, k, pat)
    decreases |s| - from
  {
    if from > |s| then -1
    else if At(s, from, pat) then from
    else Find(s, pat, from + 1)
  }

  /** `${s//pat/repl}` with a literal pattern. */
  function ReplaceAll(s: string, pat: string, repl: string): string
    decreases |s|
  {
    if pat == "" || |s| < |pat| then s
    else if At(s, 0, pat) then repl + ReplaceAll(s[|pat|..], pat, repl)
    else [s[0]] + ReplaceAll(s[1..], pat, repl)
  }

  lemma ReplaceWhole(s: string, repl: string)
    requires s != ""
    ensures ReplaceAll(s, s, repl) == repl
  {
    assert s[|s|..] == "";
    assert s[0..|s|] == s;
  }

  lemma SliceOfSlice(s: string, i: nat, j: nat, a: nat, b: nat)
    requires i <= j <= |s| && a <= b <= j - i
    ensures s[i..j][a..b] == s[i + a..i + b]
  {
    var x, y := s[i..j][a..b], s[i + a..i + b];
    assert |x| == |y|;
    forall n | 0 <= n < |x| ensures x[n] == y[n] {}
  }

  lemma ContainsSlice(s: string, i: nat, j: nat, pat: string)
    requires i <= j <= |s| && Contains(s[i..j], pat)
    ensures Contains(s, pat)
  {
    var k :| 0 <= k <= |s[i..j]| && At(s[i..j], k, pat);
    SliceOfSlice(s, i, j, k, k + |pat|);
    assert At(s, i + k, pat);
  }

  ghost predicate IsSlice(l: string, s: string) {
    exists a, b :: 0 <= a <= b <= |s| && l == s[a..b]
  }

  lemma {:induction false} LinesAreSlices(s: string)
    ensures forall i :: 0 <= i < |Lines(s)| ==> IsSlice(Lines(s)[i], s)
  {
    if s != "" {
      LinesAreSlices(s[1..]);
      forall i | 0 <= i < |Lines(s)| ensures IsSlice(Lines(s)[i], s) {
        LineIsSlice(s, i);
      }
    }
  }

  lemma SliceOfTail(l: string, s: string)
    requires s != "" && IsSlice(l, s[1..])
    ensures IsSlice(l, s)
  {
    var a: nat, b: nat :| a <= b <= |s[1..]| && l == s[1..][a..b];
    assert s[1..|s|] == s[1..];
    SliceOfSlice(s, 1, |s|, a, b);
    assert l == s[a + 1..b + 1];
  }

  lemma {:induction false} LineIsSlice(s: string, i: nat)
    requires s != "" && i < |Lines(s)|
    requires forall k :: 0 <= k < |Lines(s[1..])| ==> IsSlice(Lines(s[1..])[k], s[1..])
    ensures IsSlice(Lines(s)[i], s)
  {
    var ls, rest := Lines(s), Lines(s[1..]);
    if s[0] == '\n' && i == 0 {
      assert ls[i] == s[0..0];
    } else if s[0] != '\n' && |s| == 1 {
      assert ls[i] == s[0..1];
    } else if s[0] == '\n' || i > 0 {
      hide IsSlice;
      var k := if s[0] == '\n' then i - 1 else i;
      assert ls[i] == rest[k];
      SliceOfTail(rest[k], s);
    } else {
      FirstLineIsPrefix(s[1..]);
      assert ls[0] == s[0..1 + |rest[0]|];
    }
  }

  lemma {:induction false} FirstLineIsPrefix(s: string)
    requires s != ""
    ensures |Lines(s)[0]| <= |s| && Lines(s)[0] == s[..|Lines(s)[0]|]
  {
    if s[0] != '\n' && |s| > 1 {
      FirstLineIsPrefix(s[1..]);
    }
  }
}
