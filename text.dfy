/**
 * The string primitives that the chat route relies on: JavaScript's notion of
 * white space (what `String.prototype.trim` removes and what the regular
 * expression class `\s` matches), `trim`, ASCII case mapping, splitting into
 * white-space separated words, joining with single spaces, and `split('\n')`.
 */
module Text {

  /** ECMAScript WhiteSpace and LineTerminator code points. */
  const SpaceChars: set<char> := {
    ' ', '\t', '\n', '\r', '\U{000B}', '\U{000C}', '\U{00A0}', '\U{1680}',
    '\U{2000}', '\U{2001}', '\U{2002}', '\U{2003}', '\U{2004}', '\U{2005}',
    '\U{2006}', '\U{2007}', '\U{2008}', '\U{2009}', '\U{200A}',
    '\U{2028}', '\U{2029}', '\U{202F}', '\U{205F}', '\U{3000}', '\U{FEFF}'
  }

  /** What `trim()` removes and what `\s` matches. */
  predicate IsSpace(c: char) {
    c in SpaceChars
  }

  predicate AllSpace(s: string) {
    forall i :: 0 <= i < |s| ==> IsSpace(s[i])
  }

  /** A non-empty run of characters none of which is white space. */
  predicate IsWord(w: string) {
    w != [] && forall i :: 0 <= i < |w| ==> !IsSpace(w[i])
  }

  predicate IsUpper(c: char) { 'A' <= c <= 'Z' }

  predicate IsLower(c: char) { 'a' <= c <= 'z' }

  /** ASCII `toUpperCase` of one character. */
  function ToUpper(c: char): (r: char)
    ensures !IsLower(r)
    ensures IsSpace(r) <==> IsSpace(c)
    ensures IsLower(c) ==> IsUpper(r)
    ensures !IsLower(c) ==> r == c
  {
    if IsLower(c) then (c as int - 32) as char else c
  }

  /** ASCII `toLowerCase` of one character. */
  function ToLower(c: char): (r: char)
    ensures !IsUpper(r)
    ensures IsSpace(r) <==> IsSpace(c)
    ensures IsUpper(c) ==> IsLower(r)
    ensures !IsUpper(c) ==> r == c
  {
    if IsUpper(c) then (c as int + 32) as char else c
  }

  lemma LowerOfUpper(c: char)
    ensures ToLower(ToUpper(c)) == ToLower(c)
  {
  }

  /** ASCII `toLowerCase` of a string. */
  function LowerAll(s: string): (r: string)
    ensures |r| == |s|
    ensures forall i {:trigger r[i]} :: 0 <= i < |r| ==> r[i] == ToLower(s[i])
  {
    if s == [] then [] else [ToLower(s[0])] + LowerAll(s[1..])
  }

  lemma LowerAllAppend(a: string, b: string)
    ensures LowerAll(a + b) == LowerAll(a) + LowerAll(b)
  {
    forall i | 0 <= i < |a + b|
      ensures LowerAll(a + b)[i] == (LowerAll(a) + LowerAll(b))[i]
    {
      if i < |a| {
        assert (a + b)[i] == a[i];
      } else {
        assert (a + b)[i] == b[i - |a|];
      }
    }
  }

  /** Concatenation is associative. */
  lemma AppendAssociates<T>(x: seq<T>, y: seq<T>, z: seq<T>)
    ensures x + (y + z) == (x + y) + z
  {
  }

  /** The first element and the rest of a concatenation whose left part is not empty. */
  lemma HeadTailOfAppend<T>(a: seq<T>, b: seq<T>)
    requires a != []
    ensures (a + b)[0] == a[0] && (a + b)[1..] == a[1..] + b
  {
  }

  // ---------------------------------------------------------------------------
  // trim()

  /** The number of white-space characters that `s` starts with. */
  function LeadingSpace(s: string): (n: nat)
    ensures n <= |s|
    ensures forall j :: 0 <= j < n ==> IsSpace(s[j])
    ensures n == |s| || !IsSpace(s[n])
  {
    if s != [] && IsSpace(s[0]) then 1 + LeadingSpace(s[1..]) else 0
  }

  /** The number of white-space characters that `s` ends with. */
  function TrailingSpace(s: string): (n: nat)
    ensures n <= |s|
    ensures forall j :: |s| - n <= j < |s| ==> IsSpace(s[j])
    ensures n == |s| || !IsSpace(s[|s| - n - 1])
  {
    if s != [] && IsSpace(s[|s| - 1]) then 1 + TrailingSpace(s[..|s| - 1]) else 0
  }

  /** `s.trimStart()`: drops the leading white space. */
  function TrimStart(s: string): (r: string)
    ensures |r| <= |s| && r == s[|s| - |r|..]
    ensures AllSpace(s[..|s| - |r|])
    ensures r == [] || !IsSpace(r[0])
  {
    s[LeadingSpace(s)..]
  }

  /** `s.trim()`: the part of `s` between its leading and trailing white space. */
  function Trim(s: string): (r: string)
    ensures |r| <= |s|
    ensures r == [] || (!IsSpace(r[0]) && !IsSpace(r[|r| - 1]))
    ensures r == [] <==> AllSpace(s)
  {
    var i := LeadingSpace(s);
    if i == |s| then [] else s[i..|s| - TrailingSpace(s)]
  }

  /**
   * What `trim` keeps is the slice of `s` that starts after its leading white
   * space, and only white space follows it.
   */
  lemma TrimIsMiddle(s: string)
    ensures var i := LeadingSpace(s);
            && i + |Trim(s)| <= |s| && Trim(s) == s[i..i + |Trim(s)|]
            && AllSpace(s[..i]) && AllSpace(s[i + |Trim(s)|..])
  {
    var i := LeadingSpace(s);
    var k := if i == |s| then i else |s| - TrailingSpace(s);
    assert Trim(s) == s[i..k];
    SpaceAroundSlice(s, i, k, Trim(s));
  }

  lemma SpaceAroundSlice(s: string, i: nat, k: nat, r: string)
    requires i <= k <= |s| && r == s[i..k]
    requires forall j :: 0 <= j < i ==> IsSpace(s[j])
    requires forall j :: k <= j < |s| ==> IsSpace(s[j])
    ensures i + |r| <= |s| && r == s[i..i + |r|]
    ensures AllSpace(s[..i]) && AllSpace(s[i + |r|..])
  {
    assert forall j :: 0 <= j < i ==> s[..i][j] == s[j];
    assert forall j :: k <= j < |s| ==> s[k..][j - k] == s[j];
  }

  /** White space in front of text that does not start with white space is all that `s` starts with. */
  lemma LeadingSpaceOfSpaced(a: string, t: string)
    requires AllSpace(a)
    requires t == [] || !IsSpace(t[0])
    ensures LeadingSpace(a + t) == |a|
  {
    var s := a + t;
    assert forall j :: 0 <= j < |a| ==> s[j] == a[j];
    assert t != [] ==> s[|a|] == t[0];
  }

  /** White space after text that does not end with white space is all that `s` ends with. */
  lemma TrailingSpaceOfSpaced(t: string, b: string)
    requires AllSpace(b)
    requires t == [] || !IsSpace(t[|t| - 1])
    ensures TrailingSpace(t + b) == |b|
  {
    var s := t + b;
    assert forall j :: |t| <= j < |s| ==> s[j] == b[j - |t|];
    assert t != [] ==> s[|t| - 1] == t[|t| - 1];
  }

  /** Text whose ends are not white space is what `trim` gives back after white space is put around it. */
  lemma TrimOfPadded(a: string, m: string, b: string)
    requires AllSpace(a) && AllSpace(b)
    requires m == [] || (!IsSpace(m[0]) && !IsSpace(m[|m| - 1]))
    ensures Trim(a + m + b) == m
  {
    var s := a + m + b;
    if m == [] {
      assert forall j :: 0 <= j < |s| ==> s[j] == if j < |a| then a[j] else b[j - |a|];
      assert AllSpace(s);
    } else {
      assert (m + b)[0] == m[0];
      assert s == a + (m + b) == (a + m) + b;
      LeadingSpaceOfSpaced(a, m + b);
      TrailingSpaceOfSpaced(a + m, b);
      assert s[|a|..|s| - |b|] == m;
    }
  }

  // ---------------------------------------------------------------------------
  // split(/\s+/).filter(w => w.length > 0) and join(' ')

  /** Length of the run of non-space characters that `s` starts with. */
  function WordLength(s: string): (n: nat)
    ensures n <= |s|
    ensures forall i :: 0 <= i < n ==> !IsSpace(s[i])
    ensures n == |s| || IsSpace(s[n])
  {
    if s == [] || IsSpace(s[0]) then 0 else 1 + WordLength(s[1..])
  }

  /**
   * The maximal runs of non-space characters of `s`, left to right: what
   * `s.split(/\s+/)` yields once its empty pieces (before leading or after
   * trailing white space) are filtered out.
   */
  function Words(s: string): (ws: seq<string>)
    ensures forall i :: 0 <= i < |ws| ==> IsWord(ws[i])
    decreases |s|
  {
    if s == [] then []
    else if IsSpace(s[0]) then Words(s[1..])
    else
      var n := WordLength(s);
      [s[..n]] + Words(s[n..])
  }

  /** `ws.join(' ')`. */
  function Join(ws: seq<string>): string {
    if ws == [] then ""
    else if |ws| == 1 then ws[0]
    else ws[0] + " " + Join(ws[1..])
  }

  lemma WordsOfSpaceIsEmpty(s: string)
    requires AllSpace(s)
    ensures Words(s) == []
    decreases |s|
  {
    if s != [] {
      WordsOfSpaceIsEmpty(s[1..]);
    }
  }

  /** A word followed by nothing or by white space is the first word. */
  lemma WordsOfWordThen(w: string, rest: string)
    requires IsWord(w)
    requires rest == [] || IsSpace(rest[0])
    ensures Words(w + rest) == [w] + Words(rest)
  {
    var s := w + rest;
    var n := WordLength(s);
    assert forall i :: 0 <= i < |w| ==> s[i] == w[i];
    assert |w| < |s| ==> s[|w|] == rest[0];
    assert n == |w|;
    assert s[..n] == w && s[n..] == rest;
  }

  /** Leading white space contributes no word. */
  lemma {:induction false} WordsAfterSpace(sp: string, b: string)
    requires AllSpace(sp)
    ensures Words(sp + b) == Words(b)
  {
    if sp == [] {
      assert sp + b == b;
    } else {
      HeadTailOfAppend(sp, b);
      WordsAfterSpace(sp[1..], b);
    }
  }

  /**
   * White space splits: the words of two texts with white space between them
   * are the words of the first followed by the words of the second.
   */
  lemma {:induction false} WordsOfSpaced(a: string, sp: string, b: string)
    requires sp != [] && AllSpace(sp)
    ensures Words(a + sp + b) == Words(a) + Words(b)
    decreases |a|
  {
    var rest := sp + b;
    AppendAssociates(a, sp, b);
    if a == [] {
      assert a + rest == rest;
      WordsAfterSpace(sp, b);
    } else if IsSpace(a[0]) {
      HeadTailOfAppend(a, rest);
      AppendAssociates(a[1..], sp, b);
      WordsOfSpaced(a[1..], sp, b);
    } else {
      var k := WordLength(a);
      var w := a[..k];
      if k < |a| {
        var tail := a[k..];
        assert a == w + tail;
        AppendAssociates(w, tail, rest);
        WordsOfWordThen(w, tail + rest);
        WordsOfWordThen(w, tail);
        AppendAssociates(tail, sp, b);
        WordsOfSpaced(tail, sp, b);
      } else {
        assert a == w;
        WordsOfWordThen(a, rest);
        WordsAfterSpace(sp, b);
        WordsOfWordThen(a, "");
        assert a + "" == a;
      }
    }
  }

  /** Splitting a space-joined list of words gives the words back. */
  lemma {:induction false} WordsOfJoin(ws: seq<string>)
    requires forall i :: 0 <= i < |ws| ==> IsWord(ws[i])
    ensures Words(Join(ws)) == ws
  {
    if |ws| == 1 {
      WordsOfWordThen(ws[0], "");
      assert ws[0] + "" == ws[0];
    } else if |ws| > 1 {
      var tail := Join(ws[1..]);
      var rest := " " + tail;
      assert Join(ws) == ws[0] + rest;
      WordsOfWordThen(ws[0], rest);
      assert rest[1..] == tail;
      assert Words(rest) == Words(tail);
      WordsOfJoin(ws[1..]);
      assert ws == [ws[0]] + ws[1..];
    }
  }

  /** Each string of `ws` lower-cased. */
  function LowerEach(ws: seq<string>): (ls: seq<string>)
    ensures |ls| == |ws|
    ensures forall i {:trigger ls[i]} :: 0 <= i < |ws| ==> ls[i] == LowerAll(ws[i])
  {
    seq(|ws|, i requires 0 <= i < |ws| => LowerAll(ws[i]))
  }

  /** Lower-casing the words one by one and then joining them is lower-casing the joined text. */
  lemma {:induction false} JoinLowerEach(ws: seq<string>)
    ensures Join(LowerEach(ws)) == LowerAll(Join(ws))
  {
    if |ws| > 1 {
      JoinLowerEach(ws[1..]);
      assert LowerEach(ws)[1..] == LowerEach(ws[1..]);
      LowerAllAppend(ws[0] + " ", Join(ws[1..]));
      LowerAllAppend(ws[0], " ");
    }
  }

  // ---------------------------------------------------------------------------
  // split('\n')

  /** `s.split('\n')`: the pieces between line feeds, empty pieces included. */
  function SplitLines(s: string): (r: seq<string>)
    ensures |r| >= 1
    ensures forall i :: 0 <= i < |r| ==> '\n' !in r[i]
  {
    if s == [] then [""]
    else
      var rest := SplitLines(s[1..]);
      if s[0] == '\n' then [""] + rest
      else [[s[0]] + rest[0]] + rest[1..]
  }

  /** Text without a line feed is a single piece. */
  lemma {:induction false} SplitLinesWithoutNewline(s: string)
    requires '\n' !in s
    ensures SplitLines(s) == [s]
  {
    if s != [] {
      assert '\n' !in s[1..] by {
        assert forall i :: 0 <= i < |s| - 1 ==> s[1..][i] == s[i + 1];
      }
      SplitLinesWithoutNewline(s[1..]);
      assert s == [s[0]] + s[1..];
    }
  }

  /** Text on both sides of a line feed is split independently. */
  lemma {:induction false} SplitLinesAppend(a: string, b: string)
    ensures SplitLines(a + "\n" + b) == SplitLines(a) + SplitLines(b)
  {
    var s := a + "\n" + b;
    if a == [] {
      assert s == "\n" + b && s[1..] == b;
    } else {
      HeadTailOfAppend(a, "\n" + b);
      assert s == a + ("\n" + b) && s[1..] == a[1..] + "\n" + b;
      SplitLinesAppend(a[1..], b);
      var r := SplitLines(a[1..]);
      var sb := SplitLines(b);
      assert SplitLines(s[1..]) == r + sb;
      if a[0] != '\n' {
        HeadTailOfAppend(r, sb);
        assert SplitLines(s) == [[a[0]] + r[0]] + (r[1..] + sb);
        AppendAssociates([[a[0]] + r[0]], r[1..], sb);
      } else {
        assert SplitLines(s) == [""] + (r + sb);
        AppendAssociates([""], r, sb);
      }
    }
  }

  /** `ls.join('\n')`. */
  function JoinLines(ls: seq<string>): string {
    if ls == [] then ""
    else if |ls| == 1 then ls[0]
    else ls[0] + "\n" + JoinLines(ls[1..])
  }

  /** Splitting on line feeds loses nothing: joining the pieces with line feeds restores the text. */
  lemma {:induction false} SplitLinesRoundTrip(s: string)
    ensures JoinLines(SplitLines(s)) == s
  {
    if s != [] {
      var rest := SplitLines(s[1..]);
      SplitLinesRoundTrip(s[1..]);
      if s[0] == '\n' {
        assert SplitLines(s) == [""] + rest;
        assert s == "" + "\n" + s[1..];
      } else {
        var r := SplitLines(s);
        assert r[0] == [s[0]] + rest[0] && r[1..] == rest[1..];
        if |rest| == 1 {
          assert s == [s[0]] + s[1..];
        } else {
          assert JoinLines(rest) == rest[0] + "\n" + JoinLines(rest[1..]);
          assert s == [s[0]] + s[1..];
        }
      }
    }
  }
}
