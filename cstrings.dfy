/**
 The C string functions the pipeline relies on, stated over `seq<char>`:
 strlen over a fixed buffer, strcpy, strncmp and strtok. A C string value
 is the sequence of its characters before the terminating NUL.
 */
module CStrings {
  import opened Definitions

  /** strlen: the index of the first NUL, or the whole buffer when it holds none. */
  function StrLen(buf: seq<char>): (n: nat)
    ensures n <= |buf|
    ensures '\0' !in buf[..n]
    ensures n < |buf| ==> buf[n] == '\0'
  {
    if buf == [] || buf[0] == '\0' then 0
    else
      var n := 1 + StrLen(buf[1..]);
      assert buf[..n] == [buf[0]] + buf[1..][..n - 1];
      n
  }

  /** The C string held in a buffer: what strcpy copies out of it. */
  function CStr(buf: seq<char>): (s: string)
    ensures s <= buf && '\0' !in s
    ensures '\0' !in buf ==> s == buf
  {
    buf[..StrLen(buf)]
  }

  /** Whatever follows the first NUL of a buffer is not part of its string. */
  lemma IgnoresAfterNul(w: string, junk: seq<char>)
    requires '\0' !in w
    ensures StrLen(w + ['\0'] + junk) == |w|
    ensures CStr(w + ['\0'] + junk) == w
  {
    var buf := w + ['\0'] + junk;
    assert buf[..|w|] == w && buf[|w|] == '\0';
  }

  /** The character strncmp reads at index i: a string is followed by its NUL. */
  function CharAt(s: string, i: nat): char {
    if i < |s| then s[i] else '\0'
  }

  /**
   strncmp(a, b, n): compares at most n characters, stopping after a common
   NUL. Nothing is compared when n is 0; a string equals itself, and two
   strings whose first n characters agree compare equal whatever follows.
   */
  function Strncmp(a: string, b: string, n: nat): (r: int)
    ensures n == 0 ==> r == 0
    ensures a == b ==> r == 0
    ensures n <= |a| && n <= |b| && a[..n] == b[..n] ==> r == 0
    decreases n
  {
    if n == 0 then 0
    else if CharAt(a, 0) != CharAt(b, 0) then CharAt(a, 0) as int - CharAt(b, 0) as int
    else if CharAt(a, 0) == '\0' then 0
    else Strncmp(a[1..], b[1..], n - 1)
  }

  /**
   Comparing the first strlen(p) characters of w with p yields 0 exactly when
   p is a prefix of w; so a word shorter than p never compares equal, and the
   empty pattern compares equal with every word.
   */
  lemma {:induction false} StrncmpPrefix(w: string, p: string)
    requires '\0' !in w && '\0' !in p
    ensures Strncmp(w, p, |p|) == 0 <==> p <= w
    decreases |p|
  {
    if p != [] {
      assert CharAt(p, 0) == p[0];
      if w == [] {
        assert CharAt(w, 0) == '\0';
      } else if w[0] != p[0] {
        assert CharAt(w, 0) == w[0];
      } else {
        assert '\0' !in w[1..] && '\0' !in p[1..] by {
          assert forall i :: 0 <= i < |w| - 1 ==> w[1..][i] == w[i + 1];
          assert forall i :: 0 <= i < |p| - 1 ==> p[1..][i] == p[i + 1];
        }
        StrncmpPrefix(w[1..], p[1..]);
        assert p <= w <==> p[1..] <= w[1..] by {
          if p <= w {
            assert p[1..] == w[1..][..|p| - 1];
          }
          if p[1..] <= w[1..] {
            assert p == [p[0]] + p[1..];
            assert w[..|p|] == [w[0]] + w[1..][..|p| - 1];
          }
        }
      }
    }
  }

  /** The longest prefix of s holding no delimiter (strcspn). */
  function Span(s: string, delim: string): (w: string)
    ensures w <= s
    ensures forall c :: c in w ==> c !in delim
    ensures |w| < |s| ==> s[|w|] in delim
  {
    if s == [] || s[0] in delim then []
    else
      var w := [s[0]] + Span(s[1..], delim);
      assert w[1..] == Span(s[1..], delim);
      w
  }

  /**
   One call of strtok on the rest of the string: skip leading delimiters,
   return the next token and what follows the delimiter that ends it, or
   None (NULL) when only delimiters remain.
   */
  function Strtok(s: string, delim: string): (r: Option<(string, string)>)
    ensures r.Some? ==> r.value.0 != [] && |r.value.1| < |s|
    ensures r.Some? ==> forall c :: c in r.value.0 ==> c !in delim
    ensures r.Some? && '\0' !in s ==> '\0' !in r.value.0 && '\0' !in r.value.1
    decreases |s|
  {
    if s == [] then None
    else if s[0] in delim then
      assert '\0' !in s ==> '\0' !in s[1..];
      Strtok(s[1..], delim)
    else
      var w := Span(s, delim);
      assert w == s[..|w|];
      if |w| == |s| then Some((w, []))
      else
        assert '\0' !in s ==> '\0' !in s[|w| + 1..];
        Some((w, s[|w| + 1..]))
  }

  predicate NoDelim(w: string, delim: string) {
    forall c :: c in w ==> c !in delim
  }

  /** The tokens successive strtok calls return, starting on s. */
  function Tokens(s: string, delim: string): (r: seq<string>)
    ensures forall i :: 0 <= i < |r| ==> r[i] != []
    ensures forall i :: 0 <= i < |r| ==> NoDelim(r[i], delim)
    ensures '\0' !in s ==> forall i :: 0 <= i < |r| ==> '\0' !in r[i]
    decreases |s|
  {
    var tok := Strtok(s, delim);
    if tok.None? then []
    else
      var t := Tokens(tok.value.1, delim);
      var r := [tok.value.0] + t;
      assert r[0] == tok.value.0 && NoDelim(r[0], delim);
      assert forall i :: 0 <= i < |t| ==> r[i + 1] == t[i];
      r
  }

  /** One strtok call peels the first token off the rest. */
  lemma TokensStep(s: string, delim: string)
    ensures Strtok(s, delim).None? ==> Tokens(s, delim) == []
    ensures Strtok(s, delim).Some? ==>
      Tokens(s, delim) == [Strtok(s, delim).value.0] + Tokens(Strtok(s, delim).value.1, delim)
  {
  }

  /** Span stops exactly at the first delimiter after a delimiter-free word. */
  lemma {:induction false} SpanOfWord(w: string, tail: string, delim: string)
    requires NoDelim(w, delim)
    requires tail == [] || tail[0] in delim
    ensures Span(w + tail, delim) == w
    decreases |w|
  {
    if w != [] {
      assert (w + tail)[0] == w[0] && (w + tail)[1..] == w[1..] + tail;
      SpanOfWord(w[1..], tail, delim);
    } else {
      assert w + tail == tail;
    }
  }

  /** strtok on a word followed by one delimiter returns the word and what follows the delimiter. */
  lemma StrtokWord(w: string, d: char, rest: string, delim: string)
    requires w != [] && NoDelim(w, delim) && d in delim
    ensures Strtok(w + [d] + rest, delim) == Some((w, rest))
  {
    var s := w + [d] + rest;
    SpanOfWord(w, [d] + rest, delim);
    assert s == w + ([d] + rest) && s[0] == w[0] && s[|w| + 1..] == rest;
  }

  /** strtok on a last word with no delimiter after it returns the whole word and an empty rest. */
  lemma StrtokLastWord(w: string, delim: string)
    requires w != [] && NoDelim(w, delim)
    ensures Strtok(w, delim) == Some((w, []))
  {
    SpanOfWord(w, [], delim);
    assert w + [] == w;
  }

  /** Reference splitting: cut s at every delimiter, keeping the empty fields. */
  function Split(s: string, delim: string): (r: seq<string>)
    decreases |s|
  {
    var w := Span(s, delim);
    if |w| == |s| then [s] else [w] + Split(s[|w| + 1..], delim)
  }

  /** The fields of ws that are not empty, in order. */
  function NonEmpty(ws: seq<string>): seq<string> {
    if ws == [] then []
    else (if ws[0] == [] then [] else [ws[0]]) + NonEmpty(ws[1..])
  }

  /**
   strtok's tokens are exactly the non-empty fields between delimiters:
   repeated, leading or trailing delimiters give no empty token.
   */
  lemma {:induction false} TokensAreNonEmptyFields(s: string, delim: string)
    ensures Tokens(s, delim) == NonEmpty(Split(s, delim))
    decreases |s|
  {
    if s == [] {
      assert Split(s, delim) == [[]];
    } else if s[0] in delim {
      assert Strtok(s, delim) == Strtok(s[1..], delim);
      assert Tokens(s, delim) == Tokens(s[1..], delim);
      assert Split(s, delim) == [[]] + Split(s[1..], delim);
      TokensAreNonEmptyFields(s[1..], delim);
    } else {
      var w := Span(s, delim);
      if |w| == |s| {
        assert w == s;
        assert Tokens(s, delim) == [s] + Tokens([], delim);
      } else {
        var rest := s[|w| + 1..];
        assert Tokens(s, delim) == [w] + Tokens(rest, delim);
        assert Split(s, delim) == [w] + Split(rest, delim);
        TokensAreNonEmptyFields(rest, delim);
      }
    }
  }

  /** s without its delimiters. */
  function RemoveDelims(s: string, delim: string): string {
    if s == [] then [] else (if s[0] in delim then [] else [s[0]]) + RemoveDelims(s[1..], delim)
  }

  function Concat(ws: seq<string>): string {
    if ws == [] then [] else ws[0] + Concat(ws[1..])
  }

  lemma {:induction false} RemoveDelimsSpan(s: string, delim: string)
    ensures RemoveDelims(s, delim) == Span(s, delim) + RemoveDelims(s[|Span(s, delim)|..], delim)
    decreases |s|
  {
    var w := Span(s, delim);
    if s == [] || s[0] in delim {
      assert w == [] && s[|w|..] == s;
    } else {
      var w' := Span(s[1..], delim);
      assert w == [s[0]] + w';
      RemoveDelimsSpan(s[1..], delim);
      assert s[1..][|w'|..] == s[|w|..];
      AppendAssoc([s[0]], w', RemoveDelims(s[|w|..], delim));
    }
  }

  /** Tokenising loses no character other than the delimiters, and keeps their order. */
  lemma {:induction false} TokensKeepText(s: string, delim: string)
    ensures Concat(Tokens(s, delim)) == RemoveDelims(s, delim)
    decreases |s|
  {
    if s == [] {
    } else if s[0] in delim {
      assert Tokens(s, delim) == Tokens(s[1..], delim);
      TokensKeepText(s[1..], delim);
    } else {
      var w := Span(s, delim);
      RemoveDelimsSpan(s, delim);
      if |w| == |s| {
        assert w == s;
        assert Tokens(s, delim) == [s] + Tokens([], delim);
        assert s[|w|..] == [];
      } else {
        var rest := s[|w| + 1..];
        var ts := Tokens(rest, delim);
        assert Tokens(s, delim) == [w] + ts;
        assert ([w] + ts)[1..] == ts;
        assert Concat([w] + ts) == w + Concat(ts);
        TokensKeepText(rest, delim);
        var tail := s[|w|..];
        assert tail[0] in delim && tail[1..] == rest;
        assert RemoveDelims(tail, delim) == RemoveDelims(rest, delim);
      }
    }
  }
}
