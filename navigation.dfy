/**
 * The bottom navigation of components/ui/navigation.tsx: which tab a path
 * selects, and the initials shown in the avatar.
 */
module Navigation {
  import opened Common
  import opened Strings

  // ---------------------------------------------------------------------------
  // Active tab
  // ---------------------------------------------------------------------------

  /** The tab hrefs, in display order; the first is the default. */
  const TabHrefs: seq<string> := ["/todos", "/supplements", "/profile"]

  /** A tab matches a path equal to its href or below it, at a `/` boundary. */
  predicate TabMatches(path: string, href: string)
  {
    path == href || StartsWith(path, href + "/")
  }

  /** Some tab among the first `n` matches the path. */
  predicate AnyMatch(path: string, n: nat)
    requires n <= |TabHrefs|
  {
    exists k | 0 <= k < n :: TabMatches(path, TabHrefs[k])
  }

  /**
   * `resolveActiveFromPath`: "/todos" for a missing or empty path; otherwise
   * the longest matching href, or "/todos" when no tab matches.
   */
  method ResolveActiveFromPath(path: Option<string>) returns (href: string)
    ensures href in TabHrefs
    ensures !TruthyStr(path) ==> href == TabHrefs[0]
    ensures TruthyStr(path) && !AnyMatch(path.value, |TabHrefs|) ==> href == TabHrefs[0]
    ensures TruthyStr(path) && AnyMatch(path.value, |TabHrefs|) ==>
      TabMatches(path.value, href)
      && forall k | 0 <= k < |TabHrefs| :: TabMatches(path.value, TabHrefs[k]) ==> |TabHrefs[k]| <= |href|
  {
    if !TruthyStr(path) {
      return TabHrefs[0];
    }
    var p := path.value;
    var best: Option<string> := None;
    for i := 0 to |TabHrefs|
      invariant best.None? <==> !AnyMatch(p, i)
      invariant best.Some? ==> best.value in TabHrefs && TabMatches(p, best.value)
      invariant best.Some? ==> forall k | 0 <= k < i :: TabMatches(p, TabHrefs[k]) ==> |TabHrefs[k]| <= |best.value|
    {
      var t := TabHrefs[i];
      var isExact := p == t;
      var isPrefix := StartsWith(p, t + "/");
      if isExact || isPrefix {
        if best.None? || |t| > |best.value| {
          best := Some(t);
        }
      }
    }
    href := if best.Some? then best.value else TabHrefs[0];
  }

  /** "/todos-archive" is not under "/todos": the prefix must end at a `/`. */
  lemma PrefixNeedsSlash()
    ensures !TabMatches("/todos-archive", "/todos")
    ensures TabMatches("/todos/today", "/todos")
  {
    assert ("/todos-archive")[6] == '-';
    assert "/todos/today"[..7] == "/todos/";
  }

  /** No tab href lies below another, so at most one tab ever matches a path. */
  lemma AtMostOneTabMatches(path: string, i: nat, j: nat)
    requires i < j < |TabHrefs|
    ensures !(TabMatches(path, TabHrefs[i]) && TabMatches(path, TabHrefs[j]))
  {
    if TabMatches(path, TabHrefs[i]) {
      MatchFixesSecondChar(path, TabHrefs[i]);
      MatchFixesSecondChar(path, TabHrefs[j]);
      assert TabHrefs[0][1] == 't' && TabHrefs[1][1] == 's' && TabHrefs[2][1] == 'p';
    }
  }

  /** A matching href of two or more characters agrees with the path on its second character. */
  lemma MatchFixesSecondChar(path: string, href: string)
    requires |href| >= 2
    ensures TabMatches(path, href) ==> |path| >= 2 && path[1] == href[1]
  {
    if StartsWith(path, href + "/") {
      assert path[1] == path[..|href| + 1][1] == (href + "/")[1];
    }
  }

  // ---------------------------------------------------------------------------
  // Initials
  // ---------------------------------------------------------------------------

  /** The length of the run of non-whitespace characters `s` starts with. */
  function WordLength(s: string): (n: nat)
    ensures n <= |s|
    ensures forall i | 0 <= i < n :: !IsWhitespace(s[i])
    ensures n < |s| ==> IsWhitespace(s[n])
  {
    if |s| == 0 || IsWhitespace(s[0]) then 0 else 1 + WordLength(s[1..])
  }

  /**
   * `s.split(/\s+/).filter(Boolean)`: the maximal runs of non-whitespace
   * characters, in order.
   */
  function Words(s: string): (ws: seq<string>)
    ensures forall k | 0 <= k < |ws| :: |ws[k]| > 0 && forall i | 0 <= i < |ws[k]| :: !IsWhitespace(ws[k][i])
    decreases |s|
  {
    if |s| == 0 then []
    else if IsWhitespace(s[0]) then Words(s[1..])
    else
      var n := WordLength(s);
      [s[..n]] + Words(s[n..])
  }

  /** A name has no words exactly when it is blank. */
  lemma {:induction false} WordsEmptyIffBlank(s: string)
    ensures Words(s) == [] <==> forall i | 0 <= i < |s| :: IsWhitespace(s[i])
    decreases |s|
  {
    if |s| > 0 {
      WordsEmptyIffBlank(s[1..]);
      if IsWhitespace(s[0]) {
        assert forall i | 1 <= i < |s| :: s[i] == s[1..][i - 1];
      }
    }
  }

  /** A single word is its own only word. */
  lemma WordsOfOneWord(w: string)
    requires |w| > 0 && forall i | 0 <= i < |w| :: !IsWhitespace(w[i])
    ensures Words(w) == [w]
  {
    assert w[..WordLength(w)] == w;
  }

  /** Words around whitespace: the words of `a + " " + b` for two single words are the two. */
  lemma WordsOfTwoWords(a: string, b: string)
    requires |a| > 0 && forall i | 0 <= i < |a| :: !IsWhitespace(a[i])
    requires |b| > 0 && forall i | 0 <= i < |b| :: !IsWhitespace(b[i])
    ensures Words(a + " " + b) == [a, b]
  {
    var s := a + " " + b;
    WordLengthOfWord(a, " " + b);
    assert s == a + (" " + b);
    assert s[0] == a[0];
    assert s[..|a|] == a && s[|a|..] == " " + b;
    assert Words(s) == [a] + Words(" " + b);
    assert (" " + b)[1..] == b;
    assert Words(" " + b) == Words(b);
    WordsOfOneWord(b);
  }

  lemma {:induction false} WordLengthOfWord(w: string, rest: string)
    requires forall i | 0 <= i < |w| :: !IsWhitespace(w[i])
    requires |rest| > 0 && IsWhitespace(rest[0])
    ensures WordLength(w + rest) == |w|
    decreases |w|
  {
    if |w| > 0 {
      WordLengthOfWord(w[1..], rest);
      assert (w + rest)[1..] == w[1..] + rest;
    }
  }

  /**
   * The avatar initials: "U" without a display name or without a word in it;
   * otherwise the upper-cased first characters of the first two words.
   */
  function Initials(displayName: Option<string>): (r: string)
    ensures 1 <= |r| <= 2
    ensures !TruthyStr(displayName) || Words(displayName.value) == [] ==> r == "U"
    ensures TruthyStr(displayName) && |Words(displayName.value)| >= 1 ==>
      var ws := Words(displayName.value);
      |r| == (if |ws| >= 2 then 2 else 1)
      && r[0] == UpperChar(ws[0][0])
      && (|ws| >= 2 ==> r[1] == UpperChar(ws[1][0]))
  {
    if !TruthyStr(displayName) then "U"
    else
      var ws := Words(displayName.value);
      var n := if |ws| >= 2 then 2 else |ws|;
      var firsts := seq(n, k requires 0 <= k < n => [UpperChar(ws[k][0])]);
      var parts := Join(firsts, "");
      JoinOfLetters(firsts);
      if parts == "" then "U" else parts
  }

  /** Joining at most two one-letter strings with "" gives the letters. */
  lemma JoinOfLetters(letters: seq<string>)
    requires |letters| <= 2 && forall k | 0 <= k < |letters| :: |letters[k]| == 1
    ensures var r := Join(letters, "");
      |r| == |letters| && forall k | 0 <= k < |letters| :: r[k] == letters[k][0]
  {
    if |letters| == 2 {
      assert Join(letters, "") == letters[0] + "" + Join(letters[1..], "");
    }
  }

  /** "ada lovelace" shows "AL"; "ada" shows "A"; a blank name shows "U". */
  lemma InitialsOfNames(a: string, b: string)
    requires |a| > 0 && forall i | 0 <= i < |a| :: !IsWhitespace(a[i])
    requires |b| > 0 && forall i | 0 <= i < |b| :: !IsWhitespace(b[i])
    ensures Initials(Some(a + " " + b)) == [UpperChar(a[0]), UpperChar(b[0])]
    ensures Initials(Some(a)) == [UpperChar(a[0])]
    ensures Initials(Some("   ")) == "U"
  {
    WordsOfTwoWords(a, b);
    WordsOfOneWord(a);
    WordsEmptyIffBlank("   ");
  }
}
