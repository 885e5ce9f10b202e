/** The string primitives the port-proxy manager relies on: Python's
    `str.split()`, `str.strip()`, `str.splitlines()`, `str.isdigit()` and the
    substring test `pat in s`, over `seq<char>`. */
module Text {

  /** Python's whitespace table (`str.isspace`), which `split()` and `strip()`
      without arguments use. */
  predicate IsSpace(c: char) {
    c == ' ' || ('\t' <= c <= '\r') || ('\U{1C}' <= c <= '\U{1F}')
    || c == '\U{85}' || c == '\U{A0}' || c == '\U{1680}'
    || ('\U{2000}' <= c <= '\U{200A}') || c == '\U{2028}' || c == '\U{2029}'
    || c == '\U{202F}' || c == '\U{205F}' || c == '\U{3000}'
  }

  /** The line boundaries `str.splitlines()` recognises ("\r\n" counts once). */
  predicate IsLineBreak(c: char) {
    c == '\n' || c == '\r' || c == '\U{0B}' || c == '\U{0C}'
    || ('\U{1C}' <= c <= '\U{1E}') || c == '\U{85}' || c == '\U{2028}' || c == '\U{2029}'
  }

  /** ASCII decimal digits only; Python's `isdigit` also accepts other
      Unicode digits. */
  predicate IsDigit(c: char) {
    '0' <= c <= '9'
  }

  predicate AllSpace(s: string) {
    forall k :: 0 <= k < |s| ==> IsSpace(s[k])
  }

  predicate NoSpace(s: string) {
    forall k :: 0 <= k < |s| ==> !IsSpace(s[k])
  }

  predicate NoLineBreak(s: string) {
    forall k :: 0 <= k < |s| ==> !IsLineBreak(s[k])
  }

  /** `s.isdigit()`: non-empty and made of digits only. A digit string
      holds no whitespace and no line boundary. */
  function IsDigits(s: string): (r: bool)
    ensures r ==> |s| > 0 && NoSpace(s) && NoLineBreak(s)
  {
    |s| > 0 && forall k :: 0 <= k < |s| ==> IsDigit(s[k])
  }

  // ---------------------------------------------------------------- strip

  /** The number of whitespace characters `s` starts with. */
  function LeadingSpaces(s: string): (n: nat)
    ensures n <= |s| && AllSpace(s[..n])
    ensures n < |s| ==> !IsSpace(s[n])
  {
    if s == [] || !IsSpace(s[0]) then 0 else 1 + LeadingSpaces(s[1..])
  }

  /** The number of whitespace characters `s` ends with. */
  function TrailingSpaces(s: string): (n: nat)
    ensures n <= |s| && AllSpace(s[|s| - n..])
    ensures n < |s| ==> !IsSpace(s[|s| - 1 - n])
  {
    if s == [] || !IsSpace(s[|s| - 1]) then 0 else 1 + TrailingSpaces(s[..|s| - 1])
  }

  /** `s.strip()`: the part of `s` between its leading and trailing
      whitespace. */
  function Strip(s: string): (r: string)
    ensures r == [] <==> AllSpace(s)
    ensures r != [] ==> !IsSpace(r[0]) && !IsSpace(r[|r| - 1])
    ensures |r| <= |s| - LeadingSpaces(s)
    ensures r == s[LeadingSpaces(s)..LeadingSpaces(s) + |r|]
    ensures AllSpace(s[LeadingSpaces(s) + |r|..])
  {
    var lead := LeadingSpaces(s);
    if lead == |s| then
      []
    else
      var trail := TrailingSpaces(s);
      s[lead..|s| - trail]
  }

  /** Stripping twice is stripping once. */
  lemma StripIdempotent(s: string)
    ensures Strip(Strip(s)) == Strip(s)
  {
    var r := Strip(s);
    if r != [] {
      assert LeadingSpaces(r) == 0;
      assert TrailingSpaces(r) == 0;
    }
  }

  /** Whitespace put around an already stripped text is exactly what Strip
      removes. */
  lemma StripPadded(pre: string, s: string, post: string)
    requires AllSpace(pre) && AllSpace(post) && Strip(s) == s
    ensures Strip(pre + s + post) == s
  {
    assert s != [] ==> !IsSpace(s[0]) && !IsSpace(s[|s| - 1]);
    StripAround(pre, s, post);
  }

  /** The two ensures of LeadingSpaces determine it. */
  lemma {:induction false} LeadingSpacesUnique(s: string, n: nat)
    requires n <= |s| && AllSpace(s[..n])
    requires n < |s| ==> !IsSpace(s[n])
    ensures LeadingSpaces(s) == n
  {
    if n > 0 {
      assert s[..n][0] == s[0];
      assert s[1..][..n - 1] == s[..n][1..];
      assert n - 1 < |s[1..]| ==> s[1..][n - 1] == s[n];
      LeadingSpacesUnique(s[1..], n - 1);
    }
  }

  /** The two ensures of TrailingSpaces determine it. */
  lemma {:induction false} TrailingSpacesUnique(s: string, n: nat)
    requires n <= |s| && AllSpace(s[|s| - n..])
    requires n < |s| ==> !IsSpace(s[|s| - 1 - n])
    ensures TrailingSpaces(s) == n
  {
    if n > 0 {
      var init := s[..|s| - 1];
      assert s[|s| - n..][n - 1] == s[|s| - 1];
      assert init[|init| - (n - 1)..] == s[|s| - n..][..n - 1];
      assert n - 1 < |init| ==> init[|init| - 1 - (n - 1)] == s[|s| - 1 - n];
      TrailingSpacesUnique(init, n - 1);
    }
  }

  /** Whitespace around a text that neither starts nor ends with whitespace
      is exactly what Strip removes. */
  lemma StripAround(pre: string, s: string, post: string)
    requires AllSpace(pre) && AllSpace(post)
    requires s != [] ==> !IsSpace(s[0]) && !IsSpace(s[|s| - 1])
    ensures Strip(pre + s + post) == s
  {
    var t := pre + s + post;
    if s == [] {
      assert AllSpace(t) by {
        forall k | 0 <= k < |t| ensures IsSpace(t[k]) {
          if k < |pre| {
            assert t[k] == pre[k];
          } else {
            assert t[k] == post[k - |pre|];
          }
        }
      }
    } else {
      assert t[..|pre|] == pre;
      assert t[|pre|] == s[0];
      LeadingSpacesUnique(t, |pre|);
      assert t[|t| - |post|..] == post;
      assert t[|t| - 1 - |post|] == s[|s| - 1];
      TrailingSpacesUnique(t, |post|);
      assert t[|pre|..|t| - |post|] == s;
    }
  }

  // ---------------------------------------------------------------- split

  /** The length of the run of non-whitespace characters `s` starts with. */
  function TokenLength(s: string): (n: nat)
    ensures n <= |s| && NoSpace(s[..n])
    ensures n < |s| ==> IsSpace(s[n])
  {
    if s == [] || IsSpace(s[0]) then 0 else 1 + TokenLength(s[1..])
  }

  /** The two ensures of TokenLength determine it. */
  lemma TokenLengthUnique(s: string, n: nat)
    requires n <= |s| && NoSpace(s[..n])
    requires n < |s| ==> IsSpace(s[n])
    ensures TokenLength(s) == n
  {
    var t := TokenLength(s);
    assert forall k :: 0 <= k < n ==> !IsSpace(s[k]) by {
      forall k | 0 <= k < n ensures !IsSpace(s[k]) { assert s[..n][k] == s[k]; }
    }
    assert forall k :: 0 <= k < t ==> !IsSpace(s[k]) by {
      forall k | 0 <= k < t ensures !IsSpace(s[k]) { assert s[..t][k] == s[k]; }
    }
  }

  /** `s.split()`: the maximal runs of non-whitespace characters, in order.
      The ensures give the shape of the tokens; which tokens they are is
      pinned by SplitCons, SplitPrefixSpace, SplitSuffixSpace and
      SplitUnwords below. */
  function Split(s: string): (tokens: seq<string>)
    decreases |s|
    ensures forall k :: 0 <= k < |tokens| ==> tokens[k] != [] && NoSpace(tokens[k])
    ensures tokens == [] <==> AllSpace(s)
  {
    if s == [] then
      []
    else if IsSpace(s[0]) then
      assert AllSpace(s) <==> AllSpace(s[1..]) by {
        assert forall k :: 1 <= k < |s| ==> s[k] == s[1..][k - 1];
      }
      Split(s[1..])
    else
      var n := TokenLength(s);
      [s[..n]] + Split(s[n..])
  }

  /** Words joined by single blanks, the inverse of Split. */
  function Unwords(words: seq<string>): string {
    if words == [] then []
    else if |words| == 1 then words[0]
    else words[0] + " " + Unwords(words[1..])
  }

  /** Splitting words joined by blanks gives the words back. */
  lemma {:induction false} SplitUnwords(words: seq<string>)
    requires forall k :: 0 <= k < |words| ==> words[k] != [] && NoSpace(words[k])
    ensures Split(Unwords(words)) == words
  {
    if words == [] {
    } else if |words| == 1 {
      var w := words[0];
      TokenLengthUnique(w, |w|);
      assert w[..|w|] == w && w[|w|..] == [];
    } else {
      var w, s := words[0], Unwords(words);
      var rest := Unwords(words[1..]);
      assert s == w + (" " + rest);
      assert s[..|w|] == w;
      TokenLengthUnique(s, |w|);
      assert s[|w|..] == " " + rest;
      assert (" " + rest)[1..] == rest;
      SplitUnwords(words[1..]);
    }
  }

  /** A word followed by whitespace is the first token. */
  lemma SplitCons(word: string, gap: string, rest: string)
    requires word != [] && NoSpace(word)
    requires gap != [] && AllSpace(gap)
    ensures Split(word + gap + rest) == [word] + Split(rest)
  {
    var s := word + gap + rest;
    assert s[..|word|] == word;
    assert s[|word|] == gap[0];
    TokenLengthUnique(s, |word|);
    assert s[|word|..] == gap + rest;
    SplitPrefixSpace(gap, rest);
  }

  /** A lone word is its own single token. */
  lemma SplitWord(word: string)
    requires word != [] && NoSpace(word)
    ensures Split(word) == [word]
  {
    SplitUnwords([word]);
  }

  /** Four columns separated by whitespace split into those columns. */
  lemma SplitColumns(a: string, g1: string, b: string, g2: string, c: string, g3: string, d: string)
    requires a != [] && NoSpace(a) && b != [] && NoSpace(b) && c != [] && NoSpace(c) && d != [] && NoSpace(d)
    requires g1 != [] && AllSpace(g1) && g2 != [] && AllSpace(g2) && g3 != [] && AllSpace(g3)
    ensures Split(a + g1 + (b + g2 + (c + g3 + d))) == [a, b, c, d]
  {
    SplitCons(a, g1, b + g2 + (c + g3 + d));
    SplitCons(b, g2, c + g3 + d);
    SplitCons(c, g3, d);
    SplitWord(d);
  }

  /** Leading whitespace does not change what Split returns. */
  lemma {:induction false} SplitPrefixSpace(pad: string, s: string)
    requires AllSpace(pad)
    ensures Split(pad + s) == Split(s)
  {
    if pad != [] {
      assert (pad + s)[0] == pad[0] && IsSpace(pad[0]);
      assert (pad + s)[1..] == pad[1..] + s;
      assert Split(pad + s) == Split(pad[1..] + s);
      SplitPrefixSpace(pad[1..], s);
    } else {
      assert pad + s == s;
    }
  }

  /** Trailing whitespace does not change what Split returns. */
  lemma {:induction false} SplitSuffixSpace(s: string, pad: string)
    requires AllSpace(pad)
    ensures Split(s + pad) == Split(s)
    decreases |s|
  {
    var t := s + pad;
    if s == [] {
      assert t == pad;
    } else if IsSpace(s[0]) {
      assert t[1..] == s[1..] + pad;
      SplitSuffixSpace(s[1..], pad);
    } else {
      var m := TokenLength(s);
      assert t[..m] == s[..m];
      if m < |s| {
        assert t[m] == s[m];
      } else if pad != [] {
        assert t[m] == pad[0];
      }
      TokenLengthUnique(t, m);
      assert t[m..] == s[m..] + pad;
      SplitSuffixSpace(s[m..], pad);
    }
  }

  /** Splitting the stripped text is splitting the text. */
  lemma SplitStrip(s: string)
    ensures Split(Strip(s)) == Split(s)
  {
    var lead, r := LeadingSpaces(s), Strip(s);
    var pre, post := s[..lead], s[lead + |r|..];
    assert s[lead..] == r + post;
    assert s == pre + (r + post);
    SplitPrefixSpace(pre, r + post);
    SplitSuffixSpace(r, post);
  }

  // ----------------------------------------------------------- splitlines

  /** The length of the text before the first line boundary. */
  function LineLength(s: string): (n: nat)
    ensures n <= |s| && NoLineBreak(s[..n])
    ensures n < |s| ==> IsLineBreak(s[n])
  {
    if s == [] || IsLineBreak(s[0]) then 0 else 1 + LineLength(s[1..])
  }

  /** `s.splitlines()`: the lines of `s` without their boundaries; a final
      boundary does not open an empty last line. The ensures give the shape
      of the lines; SplitLinesJoinCrLf below pins which lines they are. */
  function SplitLines(s: string): (lines: seq<string>)
    decreases |s|
    ensures forall k :: 0 <= k < |lines| ==> NoLineBreak(lines[k])
    ensures s == [] <==> lines == []
  {
    if s == [] then
      []
    else
      var n := LineLength(s);
      if n == |s| then
        [s]
      else
        var next := if s[n] == '\r' && n + 1 < |s| && s[n + 1] == '\n' then n + 2 else n + 1;
        [s[..n]] + SplitLines(s[next..])
  }

  /** Lines each ended by "\r\n", as Windows console tools print them. */
  function JoinCrLf(lines: seq<string>): string {
    if lines == [] then [] else lines[0] + "\r\n" + JoinCrLf(lines[1..])
  }

  /** SplitLines recovers the lines of a CRLF-terminated text. */
  lemma {:induction false} SplitLinesJoinCrLf(lines: seq<string>)
    requires forall k :: 0 <= k < |lines| ==> NoLineBreak(lines[k])
    ensures SplitLines(JoinCrLf(lines)) == lines
  {
    if lines != [] {
      var l, rest := lines[0], JoinCrLf(lines[1..]);
      var s := JoinCrLf(lines);
      assert s == l + ("\r\n" + rest);
      assert s[..|l|] == l;
      assert s[|l|] == '\r' && s[|l| + 1] == '\n';
      LineLengthUnique(s, |l|);
      assert s[|l| + 2..] == rest;
      SplitLinesJoinCrLf(lines[1..]);
    }
  }

  /** The two ensures of LineLength determine it. */
  lemma LineLengthUnique(s: string, n: nat)
    requires n <= |s| && NoLineBreak(s[..n])
    requires n < |s| ==> IsLineBreak(s[n])
    ensures LineLength(s) == n
  {
    var t := LineLength(s);
    assert forall k :: 0 <= k < n ==> !IsLineBreak(s[k]) by {
      forall k | 0 <= k < n ensures !IsLineBreak(s[k]) { assert s[..n][k] == s[k]; }
    }
    assert forall k :: 0 <= k < t ==> !IsLineBreak(s[k]) by {
      forall k | 0 <= k < t ensures !IsLineBreak(s[k]) { assert s[..t][k] == s[k]; }
    }
  }

  // ------------------------------------------------------------ substring

  /** `pat` occurs in `s` starting at index `i`. */
  predicate OccursAt(s: string, pat: string, i: int) {
    0 <= i <= |s| - |pat| && s[i..i + |pat|] == pat
  }

  /** `pat in s`: whether `pat` occurs in `s`. A match needs the pattern to
      fit in the text, and a text that starts with the pattern contains it;
      ContainsOccurs below characterises it fully. */
  function Contains(s: string, pat: string): (r: bool)
    decreases |s|
    ensures r ==> |pat| <= |s|
    ensures |pat| <= |s| && s[..|pat|] == pat ==> r
  {
    if |s| < |pat| then false
    else if s[..|pat|] == pat then true
    else s != [] && Contains(s[1..], pat)
  }

  /** Contains holds exactly when `pat` occurs in `s` at some index. */
  lemma {:induction false} ContainsOccurs(s: string, pat: string)
    ensures Contains(s, pat) <==> exists i :: OccursAt(s, pat, i)
    decreases |s|
  {
    if |s| < |pat| {
    } else if s[..|pat|] == pat {
      assert OccursAt(s, pat, 0);
    } else if s != [] {
      ContainsOccurs(s[1..], pat);
      if i :| OccursAt(s[1..], pat, i) {
        assert s[1..][i..i + |pat|] == s[i + 1..i + 1 + |pat|];
        assert OccursAt(s, pat, i + 1);
      }
      if i :| OccursAt(s, pat, i) {
        assert i != 0;
        assert s[1..][i - 1..i - 1 + |pat|] == s[i..i + |pat|];
        assert OccursAt(s[1..], pat, i - 1);
      }
    }
  }

  /** A text without the first character of `pat` does not contain `pat`. */
  lemma NotContainsWithoutChar(s: string, pat: string)
    requires pat != [] && pat[0] !in s
    ensures !Contains(s, pat)
  {
    ContainsOccurs(s, pat);
  }

  /** Joining two texts without line boundaries makes none. */
  lemma NoLineBreakAppend(a: string, b: string)
    requires NoLineBreak(a) && NoLineBreak(b)
    ensures NoLineBreak(a + b)
  {
    assert forall k :: |a| <= k < |a| + |b| ==> (a + b)[k] == b[k - |a|];
  }

  /** Text of printable ASCII characters has no line boundary. */
  lemma PrintableNoLineBreak(s: string)
    requires forall c :: c in s ==> ' ' <= c <= '~'
    ensures NoLineBreak(s)
  {
    assert forall k :: 0 <= k < |s| ==> s[k] in s;
  }

  /** A text that starts with `pat` contains it. */
  lemma ContainsPrefix(s: string, pat: string)
    requires |pat| <= |s| && s[..|pat|] == pat
    ensures Contains(s, pat)
  {
  }
}
