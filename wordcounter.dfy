/**
 The standalone word counter of the first exercise (PCTR_P1_A02 counter.c):
 a two-state machine walks a C string up to and including its terminating
 NUL and counts the maximal runs of characters that are not separators.
 */
module WordCounter {
  import opened Definitions
  import opened CStrings

  const EXIT_SUCCESS: int := 0
  const EXIT_FAILURE: int := 1

  /** The characters the switch in run sends to the separator branch. */
  predicate IsSeparator(c: char) {
    c == ' ' || c == '\t' || c == '\n' || c == '\r' || c == '\0'
  }

  /** A word starts at i: s[i] is no separator and nothing but a separator (or the start) precedes it. */
  predicate StartsWord(s: string, i: nat)
    requires i < |s|
  {
    !IsSeparator(s[i]) && (i == 0 || IsSeparator(s[i - 1]))
  }

  /** Reference count: the number of maximal runs of non-separators, counted at their first character. */
  function WordCount(s: string): nat {
    if s == [] then 0
    else WordCount(s[..|s| - 1]) + (if StartsWord(s, |s| - 1) then 1 else 0)
  }

  /**
   run: the do-while walks the line up to and including its NUL; a word is
   counted when the walk leaves it, which the final NUL also does. Returns
   the counter and the machine's final state.
   */
  method Run(line: string) returns (nWords: nat, insideWord: bool)
    ensures nWords == WordCount(CStr(line))
    ensures !insideWord
  {
    var n := StrLen(line);
    nWords := 0;
    insideWord := false;
    var it := 0;
    var more := true;
    while more
      invariant it <= n + 1
      invariant more <==> it <= n
      invariant insideWord <==> 0 < it <= n && !IsSeparator(line[it - 1])
      invariant nWords + (if insideWord then 1 else 0) == WordCount(line[..if it <= n then it else n])
      decreases n + 1 - it
    {
      var c := CharAt(line, it);
      assert it < n ==> c == line[it] && line[it] != '\0' by {
        if it < n {
          assert line[..n][it] == line[it];
        }
      }
      assert it < n ==> line[..it + 1][..it] == line[..it];
      if IsSeparator(c) {
        if insideWord {
          insideWord := false;
          nWords := nWords + 1;
        }
      } else {
        insideWord := true;
      }
      more := c != '\0';
      it := it + 1;
    }
  }

  /** A separator cuts the count in two: words never span it. */
  lemma {:induction false} SeparatorSplits(a: string, c: char, b: string)
    requires IsSeparator(c)
    ensures WordCount(a + [c] + b) == WordCount(a) + WordCount(b)
    decreases |b|
  {
    var s := a + [c] + b;
    if b == [] {
      assert s[..|s| - 1] == a;
    } else {
      var b' := b[..|b| - 1];
      assert s[..|s| - 1] == a + [c] + b';
      SeparatorSplits(a, c, b');
      assert b[..|b| - 1] == b';
      if |b| == 1 {
        assert s[|s| - 2] == c;
      } else {
        assert s[|s| - 2] == b[|b| - 2];
      }
    }
  }

  /** Consecutive separators never add to the count. */
  lemma RepeatedSeparators(a: string, c: char, d: char, b: string)
    requires IsSeparator(c) && IsSeparator(d)
    ensures WordCount(a + [c, d] + b) == WordCount(a + [c] + b)
  {
    assert a + [c, d] + b == a + [c] + ([d] + b);
    SeparatorSplits(a, c, [d] + b);
    SeparatorSplits(a, c, b);
    assert [d] + b == [] + [d] + b;
    SeparatorSplits([], d, b);
  }

  /** A string made only of separators, the empty one included, holds no word. */
  lemma {:induction false} SeparatorsOnly(s: string)
    requires forall i :: 0 <= i < |s| ==> IsSeparator(s[i])
    ensures WordCount(s) == 0
    decreases |s|
  {
    if s != [] {
      SeparatorsOnly(s[..|s| - 1]);
    }
  }

  /** A single word is counted once even with no separator after it. */
  lemma {:induction false} SingleWord(w: string)
    requires w != []
    requires forall i :: 0 <= i < |w| ==> !IsSeparator(w[i])
    ensures WordCount(w) == 1
    decreases |w|
  {
    if |w| > 1 {
      SingleWord(w[..|w| - 1]);
    }
  }

  /** Twice the count is at most the length, plus one when the string ends inside a word. */
  lemma {:induction false} WordCountBound(s: string)
    ensures 2 * WordCount(s) <= |s| + (if s != [] && !IsSeparator(s[|s| - 1]) then 1 else 0)
    decreases |s|
  {
    if s != [] {
      var p := s[..|s| - 1];
      WordCountBound(p);
      if |s| > 1 {
        assert p[|p| - 1] == s[|s| - 2];
      }
    }
  }

  /** Each word needs a separator after it except the last: at most (len + 1) / 2 words. */
  lemma AtMostHalf(s: string)
    ensures WordCount(s) <= (|s| + 1) / 2
  {
    WordCountBound(s);
  }

  /** parse_argv: exactly three arguments (the program name, the line and its number) are accepted. */
  function ParseArgv(args: seq<string>): (r: Option<(string, string)>)
    ensures r.Some? <==> |args| == 3
    ensures r.Some? ==> r.value.0 == args[1] && r.value.1 == args[2]
  {
    if |args| != 3 then None else Some((args[1], args[2]))
  }

  /**
   main: a malformed command line exits with failure; otherwise the line is
   counted and the program exits with success.
   */
  method CounterMain(args: seq<string>) returns (status: int, nWords: Option<nat>)
    ensures |args| != 3 ==> status == EXIT_FAILURE && nWords == None
    ensures |args| == 3 ==> status == EXIT_SUCCESS && nWords == Some(WordCount(CStr(args[1])))
  {
    var parsed := ParseArgv(args);
    if parsed.None? {
      return EXIT_FAILURE, None;
    }
    var count, _ := Run(parsed.value.0);
    return EXIT_SUCCESS, Some(count);
  }
}
