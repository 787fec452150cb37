/**
 * The title synthesiser of the chat route (`generateConversationTitle`): a
 * total, deterministic transformation of the first user message into a short
 * sentence-cased label.
 */
module Title {
  import opened Wrappers
  import opened Text

  /** The alternatives of the leading-word pattern, in the order the pattern lists them. */
  const StopWords: seq<string> := [
    "what", "how", "why", "when", "where", "who", "is", "are", "can", "could",
    "would", "should", "explain", "tell", "describe", "help", "show"
  ]

  /** The label used when no word is left. */
  const Fallback: string := "New Conversation"

  /** At most this many words are kept. */
  const MaxWords: nat := 7

  /** `s` starts with the lower-case word `w`, in any letter case, directly followed by white space. */
  predicate StartsWithWordThenSpace(s: string, w: string) {
    |w| < |s| && LowerAll(s[..|w|]) == w && IsSpace(s[|w|])
  }

  /** Some word of `alternatives` followed by white space starts `s`. */
  predicate HasLeadingWord(s: string, alternatives: seq<string>) {
    exists i :: 0 <= i < |alternatives| && StartsWithWordThenSpace(s, alternatives[i])
  }

  /**
   * The position in `alternatives` of the first of `alternatives[k..]` that
   * starts `s` followed by white space: how `/^(w0|w1|...)\s+/i` picks its
   * alternative.
   */
  function LeadingWordIndex(s: string, alternatives: seq<string>, k: nat): (r: Option<nat>)
    requires k <= |alternatives|
    ensures r.Some? ==> k <= r.value < |alternatives| && StartsWithWordThenSpace(s, alternatives[r.value])
    ensures r.Some? ==> forall i :: k <= i < r.value ==> !StartsWithWordThenSpace(s, alternatives[i])
    ensures r.None? ==> forall i :: k <= i < |alternatives| ==> !StartsWithWordThenSpace(s, alternatives[i])
    decreases |alternatives| - k
  {
    if k == |alternatives| then None
    else if StartsWithWordThenSpace(s, alternatives[k]) then Some(k)
    else LeadingWordIndex(s, alternatives, k + 1)
  }

  /** Drops `s[..n]` and the run of white space that follows it, which is not empty. */
  function DropThroughSpace(s: string, n: nat): (r: string)
    requires n < |s| && IsSpace(s[n])
    ensures |r| < |s| - n && r == s[|s| - |r|..]
    ensures AllSpace(s[n..|s| - |r|])
    ensures r == [] || !IsSpace(r[0])
  {
    var t := s[n + 1..];
    var r := TrimStart(t);
    SpaceRunExtends(s, n, |s| - |r|);
    r
  }

  lemma SpaceRunExtends(s: string, n: nat, m: nat)
    requires n < m <= |s| && IsSpace(s[n]) && AllSpace(s[n + 1..][..m - n - 1])
    ensures AllSpace(s[n..m])
  {
    assert forall j :: n < j < m ==> s[j] == s[n + 1..][..m - n - 1][j - n - 1];
  }

  /**
   * `s.replace(/^(w0|w1|...)\s+/i, '')`: removes ONE leading word of
   * `alternatives` together with the whole run of white space after it, or
   * nothing.
   */
  function StripLeadingWord(s: string, alternatives: seq<string>): (r: string)
    ensures |r| <= |s| && r == s[|s| - |r|..]
    ensures r == s <==> !HasLeadingWord(s, alternatives)
    ensures r != s ==> r == [] || !IsSpace(r[0])
  {
    match LeadingWordIndex(s, alternatives, 0)
    case None => s
    case Some(i) => DropThroughSpace(s, |alternatives[i]|)
  }

  /** `s.replace(/\?+$/, '')`: removes the run of question marks that ends `s`. */
  function StripTrailingQuestionMarks(s: string): (r: string)
    ensures |r| <= |s| && r == s[..|r|]
    ensures forall i :: |r| <= i < |s| ==> s[i] == '?'
    ensures r == [] || r[|r| - 1] != '?'
  {
    if s != [] && s[|s| - 1] == '?' then StripTrailingQuestionMarks(s[..|s| - 1]) else s
  }

  /** The text the title's words are taken from: trimmed, stop-word and question marks removed, trimmed again. */
  function Cleaned(firstMessage: string): string {
    Trim(StripTrailingQuestionMarks(StripLeadingWord(Trim(firstMessage), StopWords)))
  }

  /** First character upper-cased, the rest lower-cased. */
  function Capitalised(w: string): string {
    if w == [] then [] else [ToUpper(w[0])] + LowerAll(w[1..])
  }

  /** The first word capitalised and every later word lower-cased. */
  function SentenceCase(ws: seq<string>): seq<string> {
    if ws == [] then [] else [Capitalised(ws[0])] + LowerEach(ws[1..])
  }

  /** `words.slice(0, MaxWords)`. */
  function Kept(words: seq<string>): (kept: seq<string>)
    ensures |kept| == if |words| < MaxWords then |words| else MaxWords
    ensures kept == words[..|kept|]
  {
    words[..if |words| < MaxWords then |words| else MaxWords]
  }

  /** The title built from the words of the cleaned message. */
  function TitleOf(words: seq<string>): (r: string)
    requires forall i :: 0 <= i < |words| ==> IsWord(words[i])
    ensures r != []
    ensures r == Fallback <==> words == []
  {
    var kept := Kept(words);
    if kept == [] then Fallback
    else
      SentenceCasedIsNotFallback(kept);
      Join(SentenceCase(kept))
  }

  /** `generateConversationTitle`. */
  function ConversationTitle(firstMessage: string): (r: string)
    ensures r != []
    ensures r == Fallback <==> Words(Cleaned(firstMessage)) == []
  {
    TitleOf(Words(Cleaned(firstMessage)))
  }

  // ---------------------------------------------------------------------------
  // Properties

  /** Sentence-casing and joining the words is upper-casing the first character of the joined text and lower-casing the rest. */
  lemma CasedJoin(ws: seq<string>)
    requires ws != [] && forall i :: 0 <= i < |ws| ==> IsWord(ws[i])
    ensures |ws[0]| > 0 && Join(ws) != [] && Join(ws)[0] == ws[0][0]
    ensures Join(SentenceCase(ws)) == [ToUpper(Join(ws)[0])] + LowerAll(Join(ws)[1..])
  {
    if |ws| == 1 {
      assert IsWord(ws[0]);
      assert SentenceCase(ws) == [Capitalised(ws[0])];
    } else {
      CasedJoinOfMany(ws);
    }
  }

  lemma CasedJoinOfMany(ws: seq<string>)
    requires |ws| > 1 && forall i :: 0 <= i < |ws| ==> IsWord(ws[i])
    ensures |ws[0]| > 0 && Join(ws) != [] && Join(ws)[0] == ws[0][0]
    ensures Join(SentenceCase(ws)) == [ToUpper(Join(ws)[0])] + LowerAll(Join(ws)[1..])
  {
    var w := ws[0];
    assert IsWord(w);
    var cased := SentenceCase(ws);
    var u, a := [ToUpper(w[0])], LowerAll(w[1..]);
    var tail := Join(ws[1..]);
    var t := LowerAll(tail);
    assert Join(ws) == w + " " + tail;
    DropFirstOfSpaced(w, tail);
    assert Join(cased) == (u + a) + " " + t by {
      assert cased[1..] == LowerEach(ws[1..]);
      JoinLowerEach(ws[1..]);
    }
    assert LowerAll(w[1..] + " " + tail) == a + " " + t by {
      LowerAllAppend(w[1..] + " ", tail);
      LowerAllAppend(w[1..], " ");
      assert LowerAll(" ") == " ";
    }
    SpacedAssociates(u, a, t);
  }

  lemma DropFirstOfSpaced(w: string, tail: string)
    requires w != []
    ensures (w + " " + tail)[0] == w[0]
    ensures (w + " " + tail)[1..] == w[1..] + " " + tail
  {
  }

  lemma SpacedAssociates(u: string, a: string, t: string)
    ensures (u + a) + " " + t == u + (a + " " + t)
  {
  }

  /** Only the first character of `[c] + LowerAll(s)` can be upper case. */
  lemma NoUpperAfterFirst(c: char, s: string)
    ensures forall k :: 0 < k < |[c] + LowerAll(s)| ==> !IsUpper(([c] + LowerAll(s))[k])
  {
    var l := LowerAll(s);
    assert forall k :: 0 < k < |[c] + l| ==> ([c] + l)[k] == l[k - 1];
  }

  /** A sentence-cased title has no upper-case letter after its first character, so it is never the fallback label. */
  lemma SentenceCasedIsNotFallback(ws: seq<string>)
    requires ws != [] && forall i :: 0 <= i < |ws| ==> IsWord(ws[i])
    ensures Join(SentenceCase(ws)) != Fallback
  {
    CasedJoin(ws);
    var j := Join(ws);
    NoUpperAfterFirst(ToUpper(j[0]), j[1..]);
    assert IsUpper(Fallback[4]);
  }

  /** Lower-casing a word gives a word that lower-casing leaves alone. */
  lemma LowerAllWord(w: string)
    requires IsWord(w)
    ensures IsWord(LowerAll(w)) && LowerAll(LowerAll(w)) == LowerAll(w)
  {
  }

  /** Capitalising a word gives a word equal to it up to letter case. */
  lemma CapitalisedWord(w: string)
    requires IsWord(w)
    ensures IsWord(Capitalised(w)) && LowerAll(Capitalised(w)) == LowerAll(w)
  {
    var c := Capitalised(w);
    LowerOfUpper(w[0]);
    assert forall k :: 0 < k < |c| ==> c[k] == ToLower(w[k]);
  }

  /** Lower-casing words one by one keeps them words, equal to the originals up to letter case. */
  lemma LowerEachWords(ws: seq<string>)
    requires forall i :: 0 <= i < |ws| ==> IsWord(ws[i])
    ensures forall i :: 0 <= i < |ws| ==> IsWord(LowerEach(ws)[i]) && LowerAll(LowerEach(ws)[i]) == LowerAll(ws[i])
  {
    forall i | 0 <= i < |ws|
      ensures IsWord(LowerEach(ws)[i]) && LowerAll(LowerEach(ws)[i]) == LowerAll(ws[i])
    {
      LowerAllWord(ws[i]);
    }
  }

  /** Sentence-casing keeps every word a word, equal to the original up to letter case. */
  lemma SentenceCaseWords(ws: seq<string>)
    requires forall i :: 0 <= i < |ws| ==> IsWord(ws[i])
    ensures |SentenceCase(ws)| == |ws|
    ensures forall i :: 0 <= i < |ws| ==> IsWord(SentenceCase(ws)[i])
    ensures forall i :: 0 <= i < |ws| ==> LowerAll(SentenceCase(ws)[i]) == LowerAll(ws[i])
  {
    if ws != [] {
      var first, rest := Capitalised(ws[0]), LowerEach(ws[1..]);
      CapitalisedWord(ws[0]);
      LowerEachWords(ws[1..]);
      assert SentenceCase(ws) == [first] + rest;
      assert forall i :: 1 <= i < |ws| ==> ([first] + rest)[i] == rest[i - 1];
    }
  }

  /**
   * The title's words are the first (at most seven) of the given words, in
   * order and equal up to letter case, and the title is those words joined
   * by single spaces.
   */
  lemma TitleOfKeepsFirstWords(words: seq<string>)
    requires words != [] && forall i :: 0 <= i < |words| ==> IsWord(words[i])
    ensures var t := TitleOf(words);
            && 1 <= |Words(t)| <= MaxWords
            && |Words(t)| == (if |words| < MaxWords then |words| else MaxWords)
            && (forall i :: 0 <= i < |Words(t)| ==> LowerAll(Words(t)[i]) == LowerAll(words[i]))
            && Join(Words(t)) == t
  {
    var kept := Kept(words);
    SentenceCaseWords(kept);
    WordsOfJoin(SentenceCase(kept));
  }

  /** The title's words are the first (at most seven) words of the cleaned message, up to letter case, joined by single spaces. */
  lemma TitleKeepsFirstWords(firstMessage: string)
    requires Words(Cleaned(firstMessage)) != []
    ensures var t := ConversationTitle(firstMessage);
            var ws := Words(Cleaned(firstMessage));
            && 1 <= |Words(t)| <= MaxWords
            && |Words(t)| == (if |ws| < MaxWords then |ws| else MaxWords)
            && (forall i :: 0 <= i < |Words(t)| ==> LowerAll(Words(t)[i]) == LowerAll(ws[i]))
            && Join(Words(t)) == t
  {
    TitleOfKeepsFirstWords(Words(Cleaned(firstMessage)));
  }

  /** The first character of the title is the first word's first character upper-cased; no later character is upper case. */
  lemma TitleOfIsSentenceCased(words: seq<string>)
    requires words != [] && forall i :: 0 <= i < |words| ==> IsWord(words[i])
    ensures var t := TitleOf(words);
            && t[0] == ToUpper(words[0][0])
            && forall k :: 0 < k < |t| ==> !IsUpper(t[k])
  {
    var kept := Kept(words);
    var j := Join(kept);
    CasedJoin(kept);
    NoUpperAfterFirst(ToUpper(j[0]), j[1..]);
  }

  /** The first character of the title is the first word's first character upper-cased; no later character is upper case. */
  lemma TitleIsSentenceCased(firstMessage: string)
    requires Words(Cleaned(firstMessage)) != []
    ensures var t := ConversationTitle(firstMessage);
            && t[0] == ToUpper(Words(Cleaned(firstMessage))[0][0])
            && forall k :: 0 < k < |t| ==> !IsUpper(t[k])
  {
    TitleOfIsSentenceCased(Words(Cleaned(firstMessage)));
  }

  /** What `StripLeadingWord` removes is one word of `alternatives` and the white space after it. */
  lemma StrippedPrefix(s: string, alternatives: seq<string>)
    requires StripLeadingWord(s, alternatives) != s
    ensures var r := StripLeadingWord(s, alternatives);
            exists i :: 0 <= i < |alternatives| && StartsWithWordThenSpace(s, alternatives[i])
                        && |alternatives[i]| < |s| - |r| && AllSpace(s[|alternatives[i]|..|s| - |r|])
  {
    var i := LeadingWordIndex(s, alternatives, 0).value;
    assert StripLeadingWord(s, alternatives) == DropThroughSpace(s, |alternatives[i]|);
  }

  lemma LowerPrefixAt(s: string, a: string, k: nat)
    ensures k < |a| <= |s| && LowerAll(s[..|a|]) == a ==> a[k] == ToLower(s[k])
  {
  }

  lemma SpaceInside(s: string, lo: nat, hi: nat, k: nat)
    ensures lo <= k < hi <= |s| && AllSpace(s[lo..hi]) ==> IsSpace(s[k])
  {
    if lo <= k < hi <= |s| {
      assert s[lo..hi][k - lo] == s[k];
    }
  }

  lemma SuffixHead(s: string, r: string)
    ensures 0 < |r| <= |s| && r == s[|s| - |r|..] ==> s[|s| - |r|] == r[0]
  {
  }

  /** An alternative that starts `s` followed by white space is as long as the word `s` starts with. */
  lemma MatchedWordLength(s: string, w: string, a: string)
    requires IsWord(w) && IsWord(a) && |w| < |s| && s[..|w|] == w && IsSpace(s[|w|])
    requires StartsWithWordThenSpace(s, a)
    ensures |a| == |w|
  {
    assert forall n :: 0 <= n < |w| ==> s[n] == w[n];
    LowerPrefixAt(s, a, |w|);
  }

  /** Dropping a word and the white space after it leaves what follows the white space. */
  lemma DropsWordAndSpace(w: string, space: string, rest: string)
    requires space != [] && AllSpace(space)
    requires rest == [] || !IsSpace(rest[0])
    ensures var s := w + space + rest;
            |w| < |s| && IsSpace(s[|w|]) && DropThroughSpace(s, |w|) == rest
  {
    var s := w + space + rest;
    assert s[|w|] == space[0];
    var r := DropThroughSpace(s, |w|);
    SpaceInside(s, |w|, |s| - |r|, |s| - |rest|);
    if rest != [] {
      assert s[|s| - |rest|] == rest[0];
    }
    if |r| > |rest| {
      assert false;
    } else if |r| < |rest| {
      assert false;
    }
    assert s[|s| - |rest|..] == rest;
  }

  /**
   * Exactly one word is stripped: when `s` is a word matching an alternative
   * in any letter case, then white space, then `rest`, the result is `rest`,
   * even when `rest` itself starts with an alternative.
   */
  lemma StripsExactlyOneWord(w: string, space: string, rest: string, alternatives: seq<string>)
    requires IsWord(w) && LowerAll(w) in alternatives
    requires forall i :: 0 <= i < |alternatives| ==> IsWord(alternatives[i])
    requires space != [] && AllSpace(space)
    requires rest == [] || !IsSpace(rest[0])
    ensures StripLeadingWord(w + space + rest, alternatives) == rest
  {
    var s := w + space + rest;
    DropsWordAndSpace(w, space, rest);
    assert s[..|w|] == w;
    var i :| 0 <= i < |alternatives| && alternatives[i] == LowerAll(w);
    assert StartsWithWordThenSpace(s, alternatives[i]);
    var j := LeadingWordIndex(s, alternatives, 0).value;
    MatchedWordLength(s, w, alternatives[j]);
  }

  lemma LowerLettersAreWord(w: string)
    requires w != [] && forall k :: 0 <= k < |w| ==> IsLower(w[k])
    ensures IsWord(w)
  {
  }

  lemma StopWordsAreWords()
    ensures forall i :: 0 <= i < |StopWords| ==> IsWord(StopWords[i])
  {
    forall i | 0 <= i < |StopWords|
      ensures IsWord(StopWords[i])
    {
      LowerLettersAreWord(StopWords[i]);
    }
  }

  /**
   * Of a message that opens with a stop-word (in any letter case) and white
   * space, only that word is removed: "What is the capital of France?" is
   * cleaned to "is the capital of France", keeping the second stop-word "is".
   */
  lemma CleanedDropsOneStopWord(w: string, space: string, rest: string)
    requires IsWord(w) && LowerAll(w) in StopWords
    requires space != [] && AllSpace(space)
    requires rest != [] && !IsSpace(rest[0]) && !IsSpace(rest[|rest| - 1])
    ensures Cleaned(w + space + rest) == Trim(StripTrailingQuestionMarks(rest))
  {
    var m := w + space + rest;
    assert m[0] == w[0] && m[|m| - 1] == rest[|rest| - 1];
    assert Trim(m) == m by {
      assert [] + m + [] == m;
      TrimOfPadded([], m, []);
    }
    StopWordsAreWords();
    StripsExactlyOneWord(w, space, rest, StopWords);
  }
}
