/** The specification of how tiny-sh splits an input line into words.

    The shell splits with strtok over the delimiter set TOKEN_DELIM. This module
    states what that splitting computes, independently of any buffer: `Split`
    takes the maximal delimiter-free runs of a line, in order. `Join` and `Gaps`
    give a second, independent description of the same thing (a line is its
    words with runs of delimiters between them), and the lemmas show that the
    two descriptions agree in both directions.
 */
module Tokens {

  /** TOKEN_DELIM: space, tab, carriage return, newline and the bell character. */
  const Delimiters: set<char> := {' ', '\t', '\r', '\n', '\U{7}'}

  predicate IsDelim(c: char) {
    c in Delimiters
  }

  /** Every character of `s` is a delimiter (the empty string included). */
  predicate AllDelims(s: string) {
    forall i :: 0 <= i < |s| ==> IsDelim(s[i])
  }

  /** A word is a non-empty string that holds no delimiter. */
  predicate IsWord(s: string) {
    s != [] && forall i :: 0 <= i < |s| ==> !IsDelim(s[i])
  }

  /** The length of the longest delimiter-free prefix of `s`: the run strtok
      takes once it has skipped the leading delimiters. */
  function RunLength(s: string): (n: nat)
    ensures n <= |s|
    ensures forall i :: 0 <= i < n ==> !IsDelim(s[i])
    ensures n == |s| || IsDelim(s[n])
  {
    if s == [] || IsDelim(s[0]) then 0 else 1 + RunLength(s[1..])
  }

  /** The words of a line, in order: repeatedly skip delimiters and take a
      maximal run of non-delimiters, as successive strtok calls do. */
  function Split(s: string): (words: seq<string>)
    ensures forall i :: 0 <= i < |words| ==> IsWord(words[i])
    decreases |s|
  {
    if s == [] then []
    else if IsDelim(s[0]) then Split(s[1..])
    else
      var n := RunLength(s);
      [s[..n]] + Split(s[n..])
  }

  /** The line made of `words` with `gaps[i]` written before word `i` and the
      last gap after the last word. */
  function Join(words: seq<string>, gaps: seq<string>): string
    requires |gaps| == |words| + 1
    decreases |words|
  {
    if words == [] then gaps[0] else gaps[0] + words[0] + Join(words[1..], gaps[1..])
  }

  /** `gaps` lay out `words` as a line: every word is a word, every gap is
      made of delimiters only, and the gap between two words is non-empty.
      The leading and trailing gaps may be empty. Stated word by word, in the
      order `Join` writes them. */
  predicate Layout(words: seq<string>, gaps: seq<string>)
    decreases |words|
  {
    && |gaps| == |words| + 1
    && AllDelims(gaps[0])
    && (words != [] ==>
          && IsWord(words[0])
          && (|words| > 1 ==> gaps[1] != [])
          && Layout(words[1..], gaps[1..]))
  }

  /** The runs of delimiters of a line: before the first word, between words,
      and after the last word. */
  function Gaps(s: string): (gaps: seq<string>)
    ensures |gaps| == |Split(s)| + 1
    decreases |s|
  {
    if s == [] then [[]]
    else if IsDelim(s[0]) then
      var g := Gaps(s[1..]);
      [[s[0]] + g[0]] + g[1..]
    else
      var n := RunLength(s);
      [[]] + Gaps(s[n..])
  }

  /** Leading delimiters never contribute a word. */
  lemma {:induction false} SplitSkipsDelims(s: string, k: nat)
    requires k <= |s|
    requires forall i :: 0 <= i < k ==> IsDelim(s[i])
    ensures Split(s) == Split(s[k..])
    decreases k
  {
    if k > 0 {
      SplitSkipsDelims(s[1..], k - 1);
      assert s[1..][k - 1..] == s[k..];
    }
  }

  /** A word followed by nothing or by a delimiter is taken whole. */
  lemma SplitTakesWord(w: string, rest: string)
    requires IsWord(w)
    requires rest == [] || IsDelim(rest[0])
    ensures Split(w + rest) == [w] + Split(rest)
  {
    var s := w + rest;
    var n := RunLength(s);
    assert forall i :: 0 <= i < |w| ==> s[i] == w[i];
    assert |w| < |s| ==> s[|w|] == rest[0];
    assert n == |w|;
    assert s[..n] == w;
    assert s[n..] == rest;
  }

  /** A line splits into no words exactly when it holds only delimiters. */
  lemma {:induction false} SplitEmptyIff(s: string)
    ensures Split(s) == [] <==> AllDelims(s)
    decreases |s|
  {
    if s != [] {
      if IsDelim(s[0]) {
        SplitEmptyIff(s[1..]);
        assert AllDelims(s[1..]) && IsDelim(s[0]) ==> AllDelims(s) by {
          if AllDelims(s[1..]) && IsDelim(s[0]) {
            forall i | 1 <= i < |s| ensures IsDelim(s[i]) {
              assert s[i] == s[1..][i - 1];
            }
          }
        }
        assert AllDelims(s) ==> AllDelims(s[1..]) by {
          if AllDelims(s) {
            forall i | 0 <= i < |s| - 1 ensures IsDelim(s[1..][i]) {
              assert s[1..][i] == s[i + 1];
            }
          }
        }
      }
    }
  }

  /** The first character of a non-empty line starts its first gap. */
  lemma JoinStartsWithGap(words: seq<string>, gaps: seq<string>)
    requires |gaps| == |words| + 1 && gaps[0] != []
    ensures Join(words, gaps) != [] && Join(words, gaps)[0] == gaps[0][0]
  {
  }

  /** Round trip: splitting a line laid out from `words` gives back `words`,
      whatever runs of delimiters separate or surround them. */
  lemma {:induction false} SplitJoin(words: seq<string>, gaps: seq<string>)
    requires Layout(words, gaps)
    ensures Split(Join(words, gaps)) == words
    decreases |words|
  {
    if words == [] {
      SplitEmptyIff(gaps[0]);
    } else {
      var rest := Join(words[1..], gaps[1..]);
      SplitJoin(words[1..], gaps[1..]);
      var s := gaps[0] + words[0] + rest;
      assert s == gaps[0] + (words[0] + rest);
      assert forall i :: 0 <= i < |gaps[0]| ==> s[i] == gaps[0][i];
      SplitSkipsDelims(s, |gaps[0]|);
      assert s[|gaps[0]|..] == words[0] + rest;
      if gaps[1] != [] {
        JoinStartsWithGap(words[1..], gaps[1..]);
        assert IsDelim(gaps[1..][0][0]);
      } else {
        assert |words| == 1;
        assert rest == [];
      }
      SplitTakesWord(words[0], rest);
    }
  }

  /** A line that starts with a delimiter has a non-empty first gap. */
  lemma GapsLeadingDelim(s: string)
    requires s != [] && IsDelim(s[0])
    ensures Gaps(s)[0] != []
  {
  }

  /** Putting a delimiter in front of a laid-out line only widens its first gap. */
  lemma LayoutPrependDelim(c: char, words: seq<string>, gaps: seq<string>)
    requires IsDelim(c) && Layout(words, gaps)
    ensures Layout(words, [[c] + gaps[0]] + gaps[1..])
    ensures Join(words, [[c] + gaps[0]] + gaps[1..]) == [c] + Join(words, gaps)
  {
    var gs := [[c] + gaps[0]] + gaps[1..];
    assert gs[1..] == gaps[1..];
    assert AllDelims([c] + gaps[0]) by {
      forall i | 0 < i < |[c] + gaps[0]| ensures IsDelim(([c] + gaps[0])[i]) {
        assert ([c] + gaps[0])[i] == gaps[0][i - 1];
      }
    }
    if words != [] {
      calc {
        Join(words, gs);
        ([c] + gaps[0]) + words[0] + Join(words[1..], gaps[1..]);
        [c] + (gaps[0] + words[0] + Join(words[1..], gaps[1..]));
      }
    }
  }

  /** A word in front of a laid-out line that is empty or starts with a
      delimiter becomes its first word, behind an empty first gap. */
  lemma LayoutPrependWord(word: string, words: seq<string>, gaps: seq<string>)
    requires IsWord(word) && Layout(words, gaps)
    requires words != [] ==> gaps[0] != []
    ensures Layout([word] + words, [[]] + gaps)
    ensures Join([word] + words, [[]] + gaps) == word + Join(words, gaps)
  {
    var ws, gs := [word] + words, [[]] + gaps;
    assert ws[1..] == words && gs[1..] == gaps;
  }

  /** Every line is the layout of its words with its gaps. */
  lemma {:induction false} SplitDecomposes(s: string)
    ensures Layout(Split(s), Gaps(s))
    ensures Join(Split(s), Gaps(s)) == s
    decreases |s|
  {
    if s == [] {
    } else if IsDelim(s[0]) {
      var w, g := Split(s[1..]), Gaps(s[1..]);
      SplitDecomposes(s[1..]);
      LayoutPrependDelim(s[0], w, g);
      assert Split(s) == w;
      assert Gaps(s) == [[s[0]] + g[0]] + g[1..];
      assert [s[0]] + s[1..] == s;
    } else {
      var n := RunLength(s);
      var w, g := Split(s[n..]), Gaps(s[n..]);
      SplitDecomposes(s[n..]);
      if w != [] {
        GapsLeadingDelim(s[n..]);
      }
      LayoutPrependWord(s[..n], w, g);
      assert Split(s) == [s[..n]] + w;
      assert Gaps(s) == [[]] + g;
      assert s[..n] + s[n..] == s;
    }
  }

  /** `Split` is characterised by layouts: a line splits into `words` exactly
      when it is `words` laid out with some runs of delimiters. */
  lemma SplitCharacterization(s: string, words: seq<string>)
    ensures Split(s) == words <==> exists gaps :: Layout(words, gaps) && Join(words, gaps) == s
  {
    if Split(s) == words {
      SplitDecomposes(s);
      assert Layout(words, Gaps(s)) && Join(words, Gaps(s)) == s;
    }
    if exists gaps :: Layout(words, gaps) && Join(words, gaps) == s {
      var gaps :| Layout(words, gaps) && Join(words, gaps) == s;
      SplitJoin(words, gaps);
    }
  }

  /** Runs of delimiters collapse: "  a   b\tc\n" holds the words a, b, c. */
  lemma CollapseExample()
    ensures Split("  a   b\tc\n") == ["a", "b", "c"]
  {
    var gaps := ["  ", "   ", "\t", "\n"];
    assert Layout(["a", "b", "c"], gaps);
    assert Join(["a", "b", "c"], gaps) == "  a   b\tc\n";
    SplitJoin(["a", "b", "c"], gaps);
  }
}
