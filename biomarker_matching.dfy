/**
 * Matching the biomarker names read from a lab report to the biomarker
 * catalogue, as in lib/utils/biomarker-matching.ts: names are cleaned of
 * French filler words and trailing punctuation, normalised, matched exactly
 * against canonical names and synonyms, and otherwise handed to a fuzzy
 * search whose best hit must reach a score threshold. The catalogue rows
 * and the fuzzy search's ranked hits are parameters.
 */
module BiomarkerMatching {
  import opened Common
  import opened Strings

  // ---------------------------------------------------------------------------
  // Normalisation
  // ---------------------------------------------------------------------------

  /** `replace(/\s+/g, " ")`: every run of whitespace becomes one space. */
  function CollapseWhitespace(s: string): (r: string)
    ensures |r| == 0 <==> |s| == 0
    ensures |s| > 0 ==> (IsWhitespace(r[0]) <==> IsWhitespace(s[0]))
  {
    if |s| == 0 then ""
    else if IsWhitespace(s[0]) then " " + CollapseWhitespace(TrimStart(s))
    else [s[0]] + CollapseWhitespace(s[1..])
  }

  /** The collapsed text ends in whitespace exactly when the input does. */
  lemma {:induction false} CollapseLast(s: string)
    ensures var r := CollapseWhitespace(s);
      |s| > 0 ==> (IsWhitespace(r[|r| - 1]) <==> IsWhitespace(s[|s| - 1]))
    decreases |s|
  {
    var r := CollapseWhitespace(s);
    if |s| == 0 {
    } else if IsWhitespace(s[0]) {
      var rest := TrimStart(s);
      assert r == " " + CollapseWhitespace(rest);
      if |rest| == 0 {
        assert IsWhitespace(s[|s| - 1]);
      } else {
        assert rest[|rest| - 1] == s[|s| - 1];
        CollapseLast(rest);
      }
    } else if |s| > 1 {
      assert r == [s[0]] + CollapseWhitespace(s[1..]);
      CollapseLast(s[1..]);
    }
  }

  /** Every character of `r` is a space or a non-whitespace character of `s`. */
  predicate CharsFrom(r: string, s: string)
  {
    forall i | 0 <= i < |r| :: r[i] == ' ' || (r[i] in s && !IsWhitespace(r[i]))
  }

  /** Every character of the collapsed text is a space or a non-whitespace character of the input. */
  lemma {:induction false} CollapseChars(s: string)
    ensures CharsFrom(CollapseWhitespace(s), s)
    decreases |s|
  {
    if |s| > 0 {
      var rest := if IsWhitespace(s[0]) then TrimStart(s) else s[1..];
      CollapseChars(rest);
      assert rest == s[|s| - |rest|..];
      CharsFromCons(if IsWhitespace(s[0]) then ' ' else s[0], CollapseWhitespace(rest), rest, s);
      assert CollapseWhitespace(s) == [if IsWhitespace(s[0]) then ' ' else s[0]] + CollapseWhitespace(rest);
    }
  }

  /** A space or a non-whitespace character of `s`, in front of characters of a suffix of `s`. */
  lemma CharsFromCons(x: char, tail: string, rest: string, s: string)
    requires CharsFrom(tail, rest)
    requires |rest| <= |s| && rest == s[|s| - |rest|..]
    requires x == ' ' || (x in s && !IsWhitespace(x))
    ensures CharsFrom([x] + tail, s)
  {
    var r := [x] + tail;
    forall i | 0 < i < |r|
      ensures r[i] == ' ' || (r[i] in s && !IsWhitespace(r[i]))
    {
      assert r[i] == tail[i - 1];
      if tail[i - 1] != ' ' {
        var j :| 0 <= j < |rest| && rest[j] == tail[i - 1];
        assert s[|s| - |rest| + j] == rest[j];
      }
    }
  }

  /** The collapsed text never holds two whitespace characters in a row. */
  lemma {:induction false} CollapseNoRuns(s: string)
    ensures var r := CollapseWhitespace(s);
      forall i | 0 <= i < |r| - 1 :: !(IsWhitespace(r[i]) && IsWhitespace(r[i + 1]))
    decreases |s|
  {
    if |s| > 0 {
      var r := CollapseWhitespace(s);
      if IsWhitespace(s[0]) {
        var rest := TrimStart(s);
        CollapseNoRuns(rest);
        assert r == " " + CollapseWhitespace(rest);
      } else {
        CollapseNoRuns(s[1..]);
        assert r == [s[0]] + CollapseWhitespace(s[1..]);
      }
    }
  }

  /** Text that is already collapsed: whitespace only as single spaces. */
  predicate Collapsed(s: string)
  {
    (forall i | 0 <= i < |s| :: IsWhitespace(s[i]) ==> s[i] == ' ')
    && forall i | 0 <= i < |s| - 1 :: NoRunAt(s, i)
  }

  /** The characters at `i` and `i + 1` are not both whitespace. */
  predicate NoRunAt(s: string, i: nat)
    requires i < |s| - 1
  {
    !(IsWhitespace(s[i]) && IsWhitespace(s[i + 1]))
  }

  lemma {:induction false} CollapseNoop(s: string)
    requires Collapsed(s)
    ensures CollapseWhitespace(s) == s
  {
    if |s| > 0 {
      assert Collapsed(s[1..]) by {
        forall i | 0 <= i < |s| - 2 ensures NoRunAt(s[1..], i) {
          assert NoRunAt(s, i + 1);
        }
      }
      if IsWhitespace(s[0]) {
        if |s| > 1 {
          assert NoRunAt(s, 0);
        }
        TrimStartNoop(s[1..]);
        assert TrimStart(s) == s[1..];
      }
      CollapseNoop(s[1..]);
    }
  }

  /** No upper-case ASCII letter. */
  predicate LowerCased(s: string)
  {
    forall i | 0 <= i < |s| :: !IsUpperAscii(s[i])
  }

  lemma TrimKeepsChars(s: string)
    ensures forall c | c in Trim(s) :: c in s
  {
    var t := TrimStart(s);
    assert forall c | c in t :: c in s;
    assert forall c | c in TrimEnd(t) :: c in t;
  }

  /**
   * `normalizeString`: lower-cased, trimmed, and with every whitespace run
   * collapsed to one space.
   */
  function NormalizeString(s: string): (r: string)
    ensures LowerCased(r)
    ensures NoEdgeWhitespace(r)
    ensures Collapsed(r)
  {
    var trimmed := Trim(ToLower(s));
    TrimmedLowerCased(s);
    CollapseOfClean(trimmed);
    CollapseWhitespace(trimmed)
  }

  lemma TrimmedLowerCased(s: string)
    ensures LowerCased(Trim(ToLower(s)))
  {
    TrimKeepsChars(ToLower(s));
  }

  /** Collapsing text that is lower-cased and trimmed keeps it so, and leaves no runs. */
  lemma CollapseOfClean(t: string)
    requires LowerCased(t) && NoEdgeWhitespace(t)
    ensures var r := CollapseWhitespace(t); LowerCased(r) && NoEdgeWhitespace(r) && Collapsed(r)
  {
    CollapseChars(t);
    CollapseNoRuns(t);
    CollapseLast(t);
  }

  lemma ToLowerNoop(s: string)
    requires LowerCased(s)
    ensures ToLower(s) == s
  {
  }

  /** Normalising a normalised name changes nothing. */
  lemma NormalizeIdempotent(s: string)
    ensures NormalizeString(NormalizeString(s)) == NormalizeString(s)
  {
    var n := NormalizeString(s);
    ToLowerNoop(n);
    TrimNoop(n);
    CollapseNoop(n);
  }

  // ---------------------------------------------------------------------------
  // Cleaning OCR names
  // ---------------------------------------------------------------------------

  /**
   * The trailing filler patterns of `cleanOcrName`, each anchored at the end
   * of the text and starting with at least one whitespace character:
   * a filler word (matched case-insensitively) followed by an optional colon,
   * with or without whitespace required after the word; a percent sign; or
   * an optional colon alone.
   */
  datatype FillerPattern = WordTail(word: string, spaceAfterWord: bool) | PercentTail | ColonTail

  const FillerPatterns: seq<FillerPattern> := [
    WordTail("soit", false),
    WordTail("dont", false),
    WordTail("soit", true),
    WordTail("dont", true),
    PercentTail,
    ColonTail
  ]

  /** `t` matches `\s*:?\s*$`: whitespace, at most one colon, whitespace, then the end. */
  predicate ColonThenEnd(t: string)
  {
    var u := TrimStart(t);
    |u| == 0 || (u[0] == ':' && |TrimStart(u[1..])| == 0)
  }

  /**
   * The whole of `t` is one match of the pattern. The leading `\s+` takes
   * every leading whitespace character, since what follows it never starts
   * with whitespace.
   */
  predicate MatchesWhole(p: FillerPattern, t: string)
  {
    |t| > 0 && IsWhitespace(t[0]) && MatchesAfterSpace(p, TrimStart(t))
  }

  /** What follows the leading whitespace matches the rest of the pattern. */
  predicate MatchesAfterSpace(p: FillerPattern, u: string)
  {
    match p
    case WordTail(word, spaceAfterWord) =>
      |word| <= |u| && ToLower(u[..|word|]) == word &&
      var v := u[|word|..];
      (spaceAfterWord ==> |v| > 0 && IsWhitespace(v[0])) && ColonThenEnd(v)
    case PercentTail => |u| > 0 && u[0] == '%' && |TrimStart(u[1..])| == 0
    case ColonTail => ColonThenEnd(u)
  }

  /** The pattern matches the text of `s` from index `j` to its end. */
  predicate MatchAt(p: FillerPattern, s: string, j: nat)
    requires j <= |s|
  {
    MatchesWhole(p, s[j..])
  }

  /** The leftmost index from `k` on where the rest of `s` matches the pattern. */
  function FirstMatchFrom(p: FillerPattern, s: string, k: nat): (r: Option<nat>)
    requires k <= |s|
    ensures r.Some? ==> k <= r.value < |s| && MatchAt(p, s, r.value)
    ensures r.Some? ==> forall j | k <= j < r.value :: !MatchAt(p, s, j)
    ensures r.None? ==> forall j | k <= j <= |s| :: !MatchAt(p, s, j)
    decreases |s| - k
  {
    if k == |s| then None
    else if MatchAt(p, s, k) then Some(k)
    else FirstMatchFrom(p, s, k + 1)
  }

  /**
   * `s.replace(pattern, "")` for an end-anchored pattern: the leftmost match
   * runs to the end, so what is left is the text before it.
   */
  function StripFiller(p: FillerPattern, s: string): (r: string)
    ensures |r| <= |s| && r == s[..|r|]
    ensures |r| < |s| ==> MatchAt(p, s, |r|)
    ensures forall j | 0 <= j < |r| :: !MatchAt(p, s, j)
    ensures |r| == |s| <==> forall j | 0 <= j <= |s| :: !MatchAt(p, s, j)
  {
    match FirstMatchFrom(p, s, 0)
    case Some(k) => s[..k]
    case None => s
  }

  /** The patterns applied one after the other, each once. */
  function StripAll(patterns: seq<FillerPattern>, s: string): (r: string)
    ensures |r| <= |s| && r == s[..|r|]
  {
    if |patterns| == 0 then s
    else
      var before := StripAll(patterns[..|patterns| - 1], s);
      var r := StripFiller(patterns[|patterns| - 1], before);
      assert s[..|r|] == before[..|r|];
      r
  }

  /** What `cleanOcrName` returns: never longer than the input, and trimmed. */
  function CleanedName(name: string): (r: string)
    ensures |r| <= |name| && NoEdgeWhitespace(r)
  {
    Trim(StripAll(FillerPatterns, Trim(name)))
  }

  /** `cleanOcrName`: trim, strip each filler pattern once in order, trim again. */
  method CleanOcrName(name: string) returns (cleaned: string)
    ensures cleaned == CleanedName(name)
  {
    cleaned := StripEach(FillerPatterns, Trim(name));
    cleaned := Trim(cleaned);
  }

  /** The loop over the patterns: each applied once, in order. */
  method StripEach(patterns: seq<FillerPattern>, s: string) returns (r: string)
    ensures r == StripAll(patterns, s)
  {
    r := s;
    for i := 0 to |patterns|
      invariant r == StripAll(patterns[..i], s)
    {
      assert patterns[..i + 1][..i] == patterns[..i];
      r := StripFiller(patterns[i], r);
    }
    assert patterns[..|patterns|] == patterns;
  }

  /** Trimming a prefix of trimmed text gives a prefix of that text. */
  lemma TrimPrefix(t: string, prefix: string)
    requires NoEdgeWhitespace(t)
    requires |prefix| <= |t| && prefix == t[..|prefix|]
    ensures var c := Trim(prefix); |c| <= |t| && c == t[..|c|]
  {
    if |prefix| > 0 {
      assert prefix[0] == t[0];
      TrimStartNoop(prefix);
    }
    assert TrimStart(prefix) == prefix;
    var c := TrimEnd(prefix);
    assert c == prefix[..|c|];
  }

  /** A cleaned name is a trimmed prefix of the trimmed input: cleaning only cuts off a tail. */
  lemma CleanedNameIsPrefix(name: string)
    ensures var c := CleanedName(name); var t := Trim(name);
      NoEdgeWhitespace(c) && |c| <= |t| && c == t[..|c|]
  {
    var t := Trim(name);
    TrimPrefix(t, StripAll(FillerPatterns, t));
  }

  predicate NoWhitespace(s: string)
  {
    forall i | 0 <= i < |s| :: !IsWhitespace(s[i])
  }

  /** Every filler pattern starts with whitespace, so text without any is left alone. */
  lemma {:induction false} StripAllNoWhitespace(patterns: seq<FillerPattern>, s: string)
    requires NoWhitespace(s)
    ensures StripAll(patterns, s) == s
  {
    if |patterns| > 0 {
      StripAllNoWhitespace(patterns[..|patterns| - 1], s);
      StripFillerNoWhitespace(patterns[|patterns| - 1], s);
    }
  }

  /** One pattern leaves text without whitespace alone. */
  lemma StripFillerNoWhitespace(p: FillerPattern, s: string)
    requires NoWhitespace(s)
    ensures StripFiller(p, s) == s
  {
    forall j | 0 <= j <= |s|
      ensures !MatchAt(p, s, j)
    {
      if j < |s| {
        assert s[j..][0] == s[j];
      }
    }
  }

  /** A single word such as "Glucose" comes out of cleaning as it went in, trimmed. */
  lemma CleanKeepsSingleWord(name: string)
    requires NoWhitespace(Trim(name))
    ensures CleanedName(name) == Trim(name)
  {
    var t := Trim(name);
    StripAllNoWhitespace(FillerPatterns, t);
    TrimNoop(t);
  }

  /** Once the text has no whitespace left, the remaining patterns leave it alone. */
  lemma {:induction false} StripAllSettled(patterns: seq<FillerPattern>, k: nat, s: string)
    requires k <= |patterns|
    requires NoWhitespace(StripAll(patterns[..k], s))
    ensures StripAll(patterns, s) == StripAll(patterns[..k], s)
  {
    if k < |patterns| {
      var init := patterns[..|patterns| - 1];
      assert init[..k] == patterns[..k];
      StripAllSettled(init, k, s);
      assert patterns[..|patterns|] == patterns;
      StripFillerNoWhitespace(patterns[|patterns| - 1], StripAll(init, s));
    } else {
      assert patterns[..k] == patterns;
    }
  }

  const DontColon: string := " dont :"

  /** " :" is an optional colon between whitespace, up to the end. */
  lemma SpaceColonEnds()
    ensures TrimStart(" :") == ":" && ColonThenEnd(" :")
  {
    assert " :"[1..] == ":";
    assert TrimStart(" :") == ":";
    assert ":"[1..] == [];
  }

  lemma DontWordMatches()
    ensures MatchesAfterSpace(WordTail("dont", false), "dont :")
  {
    SpaceColonEnds();
    assert "dont :"[..4] == "dont";
    assert "dont :"[4..] == " :";
    assert ToLower("dont") == "dont";
  }

  /** " dont :" is one whole match of the `dont` pattern. */
  lemma DontColonTrimmed()
    ensures TrimStart(DontColon) == "dont :"
  {
    assert DontColon[0] == ' ' && DontColon[1] == 'd';
    TrimStartAfterSpace(DontColon);
    assert DontColon[1..] == "dont :";
  }

  /** One space before a non-blank character is all that trimming the start removes. */
  lemma TrimStartAfterSpace(s: string)
    requires |s| > 1 && s[0] == ' ' && !IsWhitespace(s[1])
    ensures TrimStart(s) == s[1..]
  {
    TrimStartNoop(s[1..]);
  }

  lemma DontColonMatches()
    ensures MatchesWhole(FillerPatterns[1], DontColon)
  {
    DontColonTrimmed();
    DontWordMatches();
  }

  lemma DontIsNotSoit()
    ensures !MatchesAfterSpace(WordTail("soit", false), "dont :")
  {
    assert "dont :"[..4] == "dont";
    assert ToLower("dont") == "dont";
  }

  lemma ColonIsNotSoit()
    ensures !MatchesAfterSpace(WordTail("soit", false), ":")
  {
  }

  /** No tail of " dont :" is a match of the `soit` pattern. */
  lemma DontColonNotSoit(k: nat)
    requires k <= |DontColon|
    ensures !MatchesWhole(FillerPatterns[0], DontColon[k..])
  {
    if k == 0 {
      DontColonTrimmed();
      DontIsNotSoit();
    } else if k == 5 {
      assert DontColon[k..] == " :";
      SpaceColonEnds();
      ColonIsNotSoit();
    } else if k < |DontColon| {
      DontColonSpaces(k);
      assert DontColon[k..][0] == DontColon[k];
    }
  }

  /** The only whitespace of " dont :" is the space before each word. */
  lemma DontColonSpaces(k: nat)
    requires k < |DontColon|
    ensures IsWhitespace(DontColon[k]) <==> k == 0 || k == 5
  {
    assert DontColon == [' ', 'd', 'o', 'n', 't', ' ', ':'];
  }

  /** A pattern that matches nowhere leaves the text as it is. */
  lemma NoMatchKeeps(p: FillerPattern, s: string)
    requires forall j | 0 <= j <= |s| :: !MatchAt(p, s, j)
    ensures StripFiller(p, s) == s
  {
  }

  /** The leftmost match cuts the text there. */
  lemma LeftmostMatchCuts(p: FillerPattern, s: string, k: nat)
    requires k < |s| && MatchAt(p, s, k)
    requires forall j | 0 <= j < k :: !MatchAt(p, s, j)
    ensures StripFiller(p, s) == s[..k]
  {
  }

  /** A one-word name never matches anywhere before its first whitespace. */
  lemma NoMatchInWord(p: FillerPattern, w: string, t: string, j: nat)
    requires NoWhitespace(w) && |w| <= |t| && w == t[..|w|] && j < |w|
    ensures !MatchAt(p, t, j)
  {
    assert t[j..][0] == w[j];
  }

  lemma SoitNowhereInDontTail(w: string)
    requires NoWhitespace(w)
    ensures StripFiller(FillerPatterns[0], w + DontColon) == w + DontColon
  {
    var t := w + DontColon;
    assert t[..|w|] == w;
    forall j | 0 <= j <= |t|
      ensures !MatchAt(FillerPatterns[0], t, j)
    {
      if j < |w| {
        NoMatchInWord(FillerPatterns[0], w, t, j);
      } else {
        assert t[j..] == DontColon[j - |w|..];
        DontColonNotSoit(j - |w|);
      }
    }
    NoMatchKeeps(FillerPatterns[0], t);
  }

  lemma DontCutsDontTail(w: string)
    requires NoWhitespace(w)
    ensures StripFiller(FillerPatterns[1], w + DontColon) == w
  {
    var t := w + DontColon;
    assert t[..|w|] == w;
    assert t[|w|..] == DontColon;
    DontColonMatches();
    forall j | 0 <= j < |w|
      ensures !MatchAt(FillerPatterns[1], t, j)
    {
      NoMatchInWord(FillerPatterns[1], w, t, j);
    }
    LeftmostMatchCuts(FillerPatterns[1], t, |w|);
  }

  /** The first pattern keeps " dont :", the second cuts it off. */
  lemma FirstTwoPatternsOnDontTail(w: string)
    requires NoWhitespace(w)
    ensures StripAll(FillerPatterns[..2], w + DontColon) == w
  {
    var t := w + DontColon;
    var one := FillerPatterns[..1];
    var two := FillerPatterns[..2];
    assert one[..0] == [] && one[0] == FillerPatterns[0];
    assert two[..1] == one && two[1] == FillerPatterns[1];
    SoitNowhereInDontTail(w);
    assert StripAll(one, t) == t;
    DontCutsDontTail(w);
  }

  /**
   * A one-word name followed by the filler " dont :" comes out of cleaning
   * as the word alone: "Cholesterol dont :" becomes "Cholesterol".
   */
  lemma CleanDropsTrailingFiller(w: string)
    requires |w| > 0 && NoWhitespace(w)
    ensures CleanedName(w + DontColon) == w
  {
    var t := w + DontColon;
    assert t[0] == w[0] && t[|t| - 1] == ':';
    TrimNoop(t);
    FirstTwoPatternsOnDontTail(w);
    StripAllSettled(FillerPatterns, 2, t);
    TrimNoop(w);
  }

  // ---------------------------------------------------------------------------
  // Exact and synonym matching
  // ---------------------------------------------------------------------------

  /** A catalogue biomarker with its synonyms. */
  datatype BiomarkerData = BiomarkerData(
    id: string,
    name: string,
    shortName: string,
    slug: string,
    categoryId: string,
    unit: string,
    synonyms: seq<string>)

  datatype MatchType = Exact | Synonym | Fuzzy

  datatype BiomarkerMatch = BiomarkerMatch(
    biomarkerId: string,
    biomarkerName: string,
    shortName: string,
    slug: string,
    categoryId: string,
    unit: string,
    matchedSynonym: Option<string>,
    matchScore: real,
    matchType: MatchType)

  /** The match reported for biomarker `b`, with the synonym that matched if any. */
  function MatchOf(b: BiomarkerData, synonym: Option<string>, score: real, kind: MatchType): BiomarkerMatch
  {
    BiomarkerMatch(b.id, b.name, b.shortName, b.slug, b.categoryId, b.unit, synonym, score, kind)
  }

  /** Synonym `i` normalises to the name. */
  predicate SynonymAt(normalized: string, synonyms: seq<string>, i: nat)
    requires i < |synonyms|
  {
    NormalizeString(synonyms[i]) == normalized
  }

  /** The normalised name equals the biomarker's normalised name or one of its normalised synonyms. */
  predicate NamesBiomarker(normalized: string, b: BiomarkerData)
  {
    NormalizeString(b.name) == normalized
    || exists i | 0 <= i < |b.synonyms| :: SynonymAt(normalized, b.synonyms, i)
  }

  /** The first synonym, from index `k` on, that normalises to the name. */
  function FirstSynonymFrom(normalized: string, synonyms: seq<string>, k: nat): (r: Option<nat>)
    requires k <= |synonyms|
    ensures r.Some? ==> k <= r.value < |synonyms| && SynonymAt(normalized, synonyms, r.value)
    ensures r.Some? ==> forall j | k <= j < r.value :: !SynonymAt(normalized, synonyms, j)
    ensures r.None? ==> forall j | k <= j < |synonyms| :: !SynonymAt(normalized, synonyms, j)
    decreases |synonyms| - k
  {
    if k == |synonyms| then None
    else if SynonymAt(normalized, synonyms, k) then Some(k)
    else FirstSynonymFrom(normalized, synonyms, k + 1)
  }

  /**
   * The match against one biomarker: its canonical name first, then its
   * synonyms in order; the score is 1 either way.
   */
  function MatchAgainst(normalized: string, b: BiomarkerData): (r: Option<BiomarkerMatch>)
    ensures r.Some? <==> NamesBiomarker(normalized, b)
    ensures NormalizeString(b.name) == normalized ==> r == Some(MatchOf(b, None, 1.0, Exact))
    ensures r.Some? && NormalizeString(b.name) != normalized ==>
      exists i | 0 <= i < |b.synonyms| ::
        SynonymAt(normalized, b.synonyms, i)
        && r.value == MatchOf(b, Some(b.synonyms[i]), 1.0, Synonym)
        && forall j | 0 <= j < i :: !SynonymAt(normalized, b.synonyms, j)
  {
    if NormalizeString(b.name) == normalized then Some(MatchOf(b, None, 1.0, Exact))
    else
      match FirstSynonymFrom(normalized, b.synonyms, 0)
      case Some(i) =>
        assert SynonymAt(normalized, b.synonyms, i);
        Some(MatchOf(b, Some(b.synonyms[i]), 1.0, Synonym))
      case None => None
  }

  /** Biomarker `i` is named by the name. */
  predicate NamedAt(normalized: string, biomarkers: seq<BiomarkerData>, i: nat)
    requires i < |biomarkers|
  {
    NamesBiomarker(normalized, biomarkers[i])
  }

  /** The first biomarker, from index `k` on, that the name names. */
  function FirstNamedFrom(normalized: string, biomarkers: seq<BiomarkerData>, k: nat): (r: Option<nat>)
    requires k <= |biomarkers|
    ensures r.Some? ==> k <= r.value < |biomarkers| && NamedAt(normalized, biomarkers, r.value)
    ensures r.Some? ==> forall j | k <= j < r.value :: !NamedAt(normalized, biomarkers, j)
    ensures r.None? ==> forall j | k <= j < |biomarkers| :: !NamedAt(normalized, biomarkers, j)
    decreases |biomarkers| - k
  {
    if k == |biomarkers| then None
    else if NamedAt(normalized, biomarkers, k) then Some(k)
    else FirstNamedFrom(normalized, biomarkers, k + 1)
  }

  /**
   * `tryExactMatch`: the match against the first biomarker whose name or one
   * of whose synonyms normalises to the given name; nothing when there is none.
   */
  function TryExactMatch(normalized: string, biomarkers: seq<BiomarkerData>): (r: Option<BiomarkerMatch>)
    ensures r.None? <==> forall j | 0 <= j < |biomarkers| :: !NamedAt(normalized, biomarkers, j)
    ensures r.Some? ==> r.value.matchScore == 1.0 && r.value.matchType != Fuzzy
    ensures r.Some? ==> exists i | 0 <= i < |biomarkers| ::
      r == MatchAgainst(normalized, biomarkers[i])
      && forall j | 0 <= j < i :: !NamedAt(normalized, biomarkers, j)
  {
    match FirstNamedFrom(normalized, biomarkers, 0)
    case Some(i) => MatchAgainst(normalized, biomarkers[i])
    case None => None
  }

  /** An exact match reports a biomarker of the catalogue, under a name that normalises to the input. */
  lemma ExactMatchNamesCatalogue(normalized: string, biomarkers: seq<BiomarkerData>)
    ensures var r := TryExactMatch(normalized, biomarkers);
      r.Some? ==>
        (exists i | 0 <= i < |biomarkers| :: r.value.biomarkerId == biomarkers[i].id)
        && (r.value.matchType == Exact ==> NormalizeString(r.value.biomarkerName) == normalized)
        && (r.value.matchType == Synonym ==>
              r.value.matchedSynonym.Some? && NormalizeString(r.value.matchedSynonym.value) == normalized)
  {
    var r := TryExactMatch(normalized, biomarkers);
    if r.Some? {
      var i := FirstNamedFrom(normalized, biomarkers, 0).value;
      assert r == MatchAgainst(normalized, biomarkers[i]);
    }
  }

  // ---------------------------------------------------------------------------
  // The fuzzy-search index and fuzzy matching
  // ---------------------------------------------------------------------------

  datatype ItemType = Canonical | SynonymItem

  /** One searchable entry of the fuzzy index: a biomarker under its name or one synonym. */
  datatype FuseItem = FuseItem(
    biomarkerId: string,
    biomarkerName: string,
    shortName: string,
    slug: string,
    categoryId: string,
    unit: string,
    searchText: string,
    matchedSynonym: Option<string>,
    itemType: ItemType)

  function ItemFor(b: BiomarkerData, synonym: Option<string>): FuseItem
  {
    FuseItem(b.id, b.name, b.shortName, b.slug, b.categoryId, b.unit,
      if synonym.Some? then synonym.value else b.name,
      synonym,
      if synonym.Some? then SynonymItem else Canonical)
  }

  /** The entries of one biomarker: its canonical name, then each synonym in order. */
  function ItemsOf(b: BiomarkerData): (r: seq<FuseItem>)
    ensures |r| == 1 + |b.synonyms|
    ensures r[0].itemType == Canonical && r[0].searchText == b.name && r[0].matchedSynonym.None?
    ensures forall i | 0 <= i < |b.synonyms| ::
      r[i + 1].itemType == SynonymItem && r[i + 1].searchText == b.synonyms[i]
      && r[i + 1].matchedSynonym == Some(b.synonyms[i])
    ensures forall i | 0 <= i < |r| :: r[i].biomarkerId == b.id && r[i].biomarkerName == b.name
  {
    [ItemFor(b, None)] + seq(|b.synonyms|, i requires 0 <= i < |b.synonyms| => ItemFor(b, Some(b.synonyms[i])))
  }

  /** Σ (1 + number of synonyms) over the catalogue. */
  function ItemCount(biomarkers: seq<BiomarkerData>): nat
  {
    if |biomarkers| == 0 then 0
    else ItemCount(biomarkers[..|biomarkers| - 1]) + 1 + |biomarkers[|biomarkers| - 1].synonyms|
  }

  /** `buildFuseIndex`'s searchable data: the catalogue flattened, biomarker by biomarker. */
  function SearchableData(biomarkers: seq<BiomarkerData>): (r: seq<FuseItem>)
    ensures |r| == ItemCount(biomarkers)
  {
    if |biomarkers| == 0 then []
    else SearchableData(biomarkers[..|biomarkers| - 1]) + ItemsOf(biomarkers[|biomarkers| - 1])
  }

  lemma {:induction false} ItemCountAppend(a: seq<BiomarkerData>, b: seq<BiomarkerData>)
    ensures ItemCount(a + b) == ItemCount(a) + ItemCount(b)
    decreases |b|
  {
    if |b| > 0 {
      var b' := b[..|b| - 1];
      assert (a + b)[..|a + b| - 1] == a + b';
      ItemCountAppend(a, b');
    } else {
      assert a + b == a;
    }
  }

  /** Flattening distributes over concatenation of catalogues. */
  lemma {:induction false} SearchableDataAppend(a: seq<BiomarkerData>, b: seq<BiomarkerData>)
    ensures SearchableData(a + b) == SearchableData(a) + SearchableData(b)
    decreases |b|
  {
    if |b| > 0 {
      var b' := b[..|b| - 1];
      assert (a + b)[..|a + b| - 1] == a + b';
      assert (a + b)[|a + b| - 1] == b[|b| - 1];
      SearchableDataAppend(a, b');
    } else {
      assert a + b == a;
    }
  }

  /**
   * Biomarker `i`'s entries sit together in the index, right after those of
   * the biomarkers before it, its canonical entry first.
   */
  lemma BiomarkerItemsInPlace(biomarkers: seq<BiomarkerData>, i: nat)
    requires i < |biomarkers|
    ensures var start := ItemCount(biomarkers[..i]); var data := SearchableData(biomarkers);
      start + 1 + |biomarkers[i].synonyms| <= |data|
      && data[start..start + 1 + |biomarkers[i].synonyms|] == ItemsOf(biomarkers[i])
  {
    var before := biomarkers[..i];
    var after := biomarkers[i + 1..];
    assert biomarkers == before + [biomarkers[i]] + after;
    SearchableDataAppend(before + [biomarkers[i]], after);
    SearchableDataAppend(before, [biomarkers[i]]);
    assert SearchableData([biomarkers[i]]) == ItemsOf(biomarkers[i]) by {
      assert [biomarkers[i]][..0] == [];
    }
  }

  /** The entry stands for biomarker `b`, under its name or one of its synonyms. */
  predicate EntryOf(item: FuseItem, b: BiomarkerData)
  {
    item.biomarkerId == b.id && (item.searchText == b.name || item.searchText in b.synonyms)
  }

  /** Every entry of the index belongs to a biomarker of the catalogue, under its name or a synonym. */
  lemma {:induction false} SearchableDataFromCatalogue(biomarkers: seq<BiomarkerData>)
    ensures forall k | 0 <= k < |SearchableData(biomarkers)| ::
      exists i | 0 <= i < |biomarkers| :: EntryOf(SearchableData(biomarkers)[k], biomarkers[i])
    decreases |biomarkers|
  {
    if |biomarkers| > 0 {
      var init := biomarkers[..|biomarkers| - 1];
      var last := biomarkers[|biomarkers| - 1];
      SearchableDataFromCatalogue(init);
      var data := SearchableData(biomarkers);
      var head := SearchableData(init);
      forall k | 0 <= k < |SearchableData(biomarkers)|
        ensures exists i | 0 <= i < |biomarkers| :: EntryOf(SearchableData(biomarkers)[k], biomarkers[i])
      {
        if k < |head| {
          assert data == head + ItemsOf(last);
          assert data[k] == head[k];
          var i :| 0 <= i < |init| && EntryOf(head[k], init[i]);
          assert biomarkers[i] == init[i];
        } else {
          var items := ItemsOf(last);
          assert data[k] == items[k - |head|];
          if k - |head| > 0 {
            assert items[k - |head|].searchText == last.synonyms[k - |head| - 1];
          }
          assert EntryOf(data[k], biomarkers[|biomarkers| - 1]);
        }
      }
    } else {
      assert SearchableData(biomarkers) == [];
    }
  }

  /** One ranked hit of the fuzzy search: the entry and its Fuse score, 0 best, when reported. */
  datatype FuseResult = FuseResult(item: FuseItem, score: Option<real>)

  /**
   * `tryFuzzyMatch`: the best hit, scored `1 - score` (a missing score
   * counts as 0), unless there is no hit or the match score falls below the
   * threshold.
   */
  function TryFuzzyMatch(results: seq<FuseResult>, threshold: real): (r: Option<BiomarkerMatch>)
    ensures r.None? <==> |results| == 0 || 1.0 - ScoreOf(results[0]) < threshold
    ensures r.Some? ==> threshold <= r.value.matchScore && r.value.matchType == Fuzzy
    ensures r.Some? ==> r.value.matchScore == 1.0 - ScoreOf(results[0])
    ensures r.Some? ==> var item := results[0].item;
      r.value.biomarkerId == item.biomarkerId && r.value.biomarkerName == item.biomarkerName
      && r.value.matchedSynonym == item.matchedSynonym && r.value.unit == item.unit
  {
    if |results| == 0 then None
    else
      var best := results[0];
      var matchScore := 1.0 - ScoreOf(best);
      if matchScore < threshold then None
      else
        var item := best.item;
        Some(BiomarkerMatch(item.biomarkerId, item.biomarkerName, item.shortName, item.slug,
          item.categoryId, item.unit, item.matchedSynonym, matchScore, Fuzzy))
  }

  /** `bestResult.score ?? 0`. */
  function ScoreOf(result: FuseResult): real
  {
    if result.score.Some? then result.score.value else 0.0
  }

  /** Fuse scores lie between 0 and 1, so a fuzzy match score lies between the threshold and 1. */
  lemma FuzzyScoreInRange(results: seq<FuseResult>, threshold: real)
    requires |results| > 0 ==> 0.0 <= ScoreOf(results[0]) <= 1.0
    ensures var r := TryFuzzyMatch(results, threshold);
      r.Some? ==> threshold <= r.value.matchScore <= 1.0
  {
  }

  // ---------------------------------------------------------------------------
  // Matching OCR names and enriching OCR results
  // ---------------------------------------------------------------------------

  /** The threshold `matchBiomarkerNames` gives the fuzzy search (also `matchBiomarkerName`'s default). */
  const FuzzyThreshold: real := 0.65

  datatype MatchResult = MatchResult(originalName: string, matched: Option<BiomarkerMatch>, confidence: real)

  /**
   * The fuzzy search over an index: the ranked hits for a query. Fuse's
   * scoring is not modelled; the hits are whatever the search returns.
   */
  type Search = (seq<FuseItem>, string) -> seq<FuseResult>

  /**
   * Matching one OCR name (`matchBiomarkerName`, and the body of
   * `matchBiomarkerNames`' loop): clean and normalise the name, try an exact
   * or synonym match with confidence 1, then a fuzzy match whose score is the
   * confidence, and otherwise report no match with confidence 0.
   */
  function MatchOne(
    name: string, biomarkers: seq<BiomarkerData>, index: seq<FuseItem>, search: Search, threshold: real)
    : (r: MatchResult)
    ensures r.originalName == name
    ensures var normalized := NormalizeString(CleanedName(name));
      var exact := TryExactMatch(normalized, biomarkers);
      var fuzzy := TryFuzzyMatch(search(index, normalized), threshold);
      (exact.Some? ==> r.matched == exact && r.confidence == 1.0)
      && (exact.None? ==> r.matched == fuzzy)
      && (r.matched.None? <==> exact.None? && fuzzy.None?)
    ensures r.matched.None? ==> r.confidence == 0.0
    ensures r.matched.Some? ==> r.confidence == r.matched.value.matchScore
  {
    var normalized := NormalizeString(CleanedName(name));
    var exact := TryExactMatch(normalized, biomarkers);
    if exact.Some? then MatchResult(name, exact, 1.0)
    else
      var fuzzy := TryFuzzyMatch(search(index, normalized), threshold);
      if fuzzy.Some? then MatchResult(name, fuzzy, fuzzy.value.matchScore)
      else MatchResult(name, None, 0.0)
  }

  /** A reported match always clears the threshold (for a threshold of at most 1). */
  lemma MatchedIsConfident(
    name: string, biomarkers: seq<BiomarkerData>, index: seq<FuseItem>, search: Search, threshold: real)
    requires threshold <= 1.0
    ensures var r := MatchOne(name, biomarkers, index, search, threshold);
      r.matched.Some? ==> threshold <= r.confidence
  {
  }

  /** The rows `fetchBiomarkersWithSynonyms` reads: a biomarker and its synonym rows, if the join gave any. */
  datatype BiomarkerRow = BiomarkerRow(
    id: string,
    name: string,
    shortName: string,
    slug: string,
    categoryId: string,
    unit: string,
    synonymRows: Option<seq<string>>)

  /**
   * `fetchBiomarkersWithSynonyms`: a query error is thrown; otherwise each
   * row (none when the data is missing) becomes a biomarker, with no
   * synonyms when the join gave none.
   */
  function FetchBiomarkers(queryError: Option<string>, data: Option<seq<BiomarkerRow>>)
    : (r: Outcome<seq<BiomarkerData>>)
    ensures queryError.Some? ==> r == Threw("Failed to fetch biomarkers: " + queryError.value)
    ensures queryError.None? && data.None? ==> r == Returned([])
    ensures queryError.None? && data.Some? ==> (r.Returned? && |r.value| == |data.value|
      && forall i | 0 <= i < |data.value| ::
        var row := data.value[i];
        r.value[i].id == row.id && r.value[i].name == row.name
        && r.value[i].shortName == row.shortName && r.value[i].slug == row.slug
        && r.value[i].categoryId == row.categoryId && r.value[i].unit == row.unit
        && r.value[i].synonyms == (if row.synonymRows.Some? then row.synonymRows.value else []))
  {
    if queryError.Some? then Threw("Failed to fetch biomarkers: " + queryError.value)
    else
      var rows := if data.Some? then data.value else [];
      Returned(seq(|rows|, i requires 0 <= i < |rows| =>
        var row := rows[i];
        BiomarkerData(row.id, row.name, row.shortName, row.slug, row.categoryId, row.unit,
          if row.synonymRows.Some? then row.synonymRows.value else [])))
  }

  /** One OCR reading: the name as read, its value and the value as printed. */
  datatype OcrBiomarkerResult = OcrBiomarkerResult(name: string, value: Option<real>, valueInText: Option<string>)

  datatype EnrichedType = EnrichedMatch(kind: MatchType) | EnrichedUnmatched

  datatype EnrichedBiomarkerResult = EnrichedBiomarkerResult(
    originalOcrName: string,
    biomarkerId: Option<string>,
    biomarkerName: Option<string>,
    shortName: Option<string>,
    slug: Option<string>,
    categoryId: Option<string>,
    unit: Option<string>,
    value: Option<real>,
    valueInText: Option<string>,
    matchType: EnrichedType,
    matchConfidence: real)

  /**
   * One row of `enrichOcrResults`: the OCR reading's value with the matched
   * biomarker's identity, or with no identity, type "unmatched" and
   * confidence 0.
   */
  function Enrich(m: MatchResult, reading: OcrBiomarkerResult): (r: EnrichedBiomarkerResult)
    ensures r.originalOcrName == m.originalName
    ensures r.value == reading.value && r.valueInText == reading.valueInText
    ensures m.matched.None? ==>
      r.biomarkerId.None? && r.biomarkerName.None? && r.shortName.None? && r.slug.None?
      && r.categoryId.None? && r.unit.None? && r.matchType == EnrichedUnmatched && r.matchConfidence == 0.0
    ensures m.matched.Some? ==>
      r.biomarkerId == Some(m.matched.value.biomarkerId) && r.biomarkerName == Some(m.matched.value.biomarkerName)
      && r.shortName == Some(m.matched.value.shortName) && r.slug == Some(m.matched.value.slug)
      && r.categoryId == Some(m.matched.value.categoryId) && r.unit == Some(m.matched.value.unit)
      && r.matchType == EnrichedMatch(m.matched.value.matchType) && r.matchConfidence == m.confidence
  {
    match m.matched
    case Some(b) =>
      EnrichedBiomarkerResult(m.originalName, Some(b.biomarkerId), Some(b.biomarkerName), Some(b.shortName),
        Some(b.slug), Some(b.categoryId), Some(b.unit), reading.value, reading.valueInText,
        EnrichedMatch(b.matchType), m.confidence)
    case None =>
      EnrichedBiomarkerResult(m.originalName, None, None, None, None, None, None, reading.value,
        reading.valueInText, EnrichedUnmatched, 0.0)
  }

  /**
   * An enriched row has a biomarker id exactly when it is not "unmatched",
   * and then its confidence is at least the threshold.
   */
  lemma EnrichedRowConfidence(
    reading: OcrBiomarkerResult, biomarkers: seq<BiomarkerData>, index: seq<FuseItem>, search: Search)
    ensures var e := Enrich(MatchOne(reading.name, biomarkers, index, search, FuzzyThreshold), reading);
      (e.biomarkerId.Some? <==> e.matchType != EnrichedUnmatched)
      && (e.biomarkerId.Some? ==> FuzzyThreshold <= e.matchConfidence)
      && (e.biomarkerId.None? ==> e.matchConfidence == 0.0)
  {
    MatchedIsConfident(reading.name, biomarkers, index, search, FuzzyThreshold);
  }

  /** The loop body of `matchBiomarkerNames` for one name. */
  method MatchName(name: string, catalogue: seq<BiomarkerData>, index: seq<FuseItem>, search: Search)
    returns (result: MatchResult)
    ensures result == MatchOne(name, catalogue, index, search, FuzzyThreshold)
  {
    var cleanedName := CleanOcrName(name);
    var normalizedName := NormalizeString(cleanedName);
    var exact := TryExactMatch(normalizedName, catalogue);
    if exact.Some? {
      result := MatchResult(name, exact, 1.0);
    } else {
      var fuzzy := TryFuzzyMatch(search(index, normalizedName), FuzzyThreshold);
      if fuzzy.Some? {
        result := MatchResult(name, fuzzy, fuzzy.value.matchScore);
      } else {
        result := MatchResult(name, None, 0.0);
      }
    }
  }

  /** The loop of `matchBiomarkerNames`: one result per name, pushed in order. */
  method MatchAll(names: seq<string>, catalogue: seq<BiomarkerData>, index: seq<FuseItem>, search: Search)
    returns (results: seq<MatchResult>)
    ensures |results| == |names|
    ensures forall i | 0 <= i < |names| :: results[i] == MatchOne(names[i], catalogue, index, search, FuzzyThreshold)
  {
    results := [];
    for i := 0 to |names|
      invariant |results| == i
      invariant forall j | 0 <= j < i :: results[j] == MatchOne(names[j], catalogue, index, search, FuzzyThreshold)
    {
      var result := MatchName(names[i], catalogue, index, search);
      results := results + [result];
    }
  }

  /**
   * The module-level caches: the catalogue, fetched once, and the fuzzy index,
   * built once from the catalogue first passed to it.
   */
  class BiomarkerCache {
    var biomarkers: Option<seq<BiomarkerData>>
    var fuseIndex: Option<seq<FuseItem>>

    /** The index, when built, is the flattening of the cached catalogue. */
    predicate Consistent()
      reads this
    {
      fuseIndex.Some? ==> biomarkers.Some? && fuseIndex.value == SearchableData(biomarkers.value)
    }

    constructor()
      ensures biomarkers.None? && fuseIndex.None? && Consistent()
    {
      biomarkers := None;
      fuseIndex := None;
    }

    /** `getBiomarkersCache`: the cached catalogue, or the fetched one, cached when the fetch succeeds. */
    method GetBiomarkers(fetch: Outcome<seq<BiomarkerData>>) returns (r: Outcome<seq<BiomarkerData>>)
      modifies this
      ensures old(biomarkers).Some? ==> r == Returned(old(biomarkers).value) && biomarkers == old(biomarkers)
      ensures old(biomarkers).None? ==> r == fetch
      ensures old(biomarkers).None? && fetch.Returned? ==> biomarkers == Some(fetch.value)
      ensures old(biomarkers).None? && fetch.Threw? ==> biomarkers.None?
      ensures fuseIndex == old(fuseIndex)
      ensures r.Returned? ==> biomarkers == Some(r.value)
    {
      if biomarkers.None? {
        if fetch.Returned? {
          biomarkers := Some(fetch.value);
        }
        r := fetch;
      } else {
        r := Returned(biomarkers.value);
      }
    }

    /**
     * `getFuseIndex`: the index built on the first call; later calls return
     * it whatever catalogue they pass.
     */
    method GetFuseIndex(catalogue: seq<BiomarkerData>) returns (index: seq<FuseItem>)
      modifies this
      ensures old(fuseIndex).Some? ==> index == old(fuseIndex).value && fuseIndex == old(fuseIndex)
      ensures old(fuseIndex).None? ==> index == SearchableData(catalogue) && fuseIndex == Some(index)
      ensures fuseIndex == Some(index) && biomarkers == old(biomarkers)
      ensures old(Consistent()) && biomarkers == Some(catalogue) ==> Consistent() && index == SearchableData(catalogue)
    {
      if fuseIndex.None? {
        fuseIndex := Some(SearchableData(catalogue));
      }
      index := fuseIndex.value;
    }

    /**
     * `matchBiomarkerNames`: one result per name, in order, each as
     * `MatchOne` gives it over the cached catalogue and index with the
     * threshold 0.65; a failed catalogue fetch is thrown.
     */
    method MatchBiomarkerNames(names: seq<string>, fetch: Outcome<seq<BiomarkerData>>, search: Search)
      returns (r: Outcome<seq<MatchResult>>)
      requires Consistent()
      modifies this
      ensures Consistent()
      ensures r.Threw? <==> old(biomarkers).None? && fetch.Threw?
      ensures r.Returned? ==> (biomarkers.Some? && fuseIndex.Some? && |r.value| == |names|
        && forall i | 0 <= i < |names| ::
          r.value[i] == MatchOne(names[i], biomarkers.value, fuseIndex.value, search, FuzzyThreshold))
    {
      var loaded := GetBiomarkers(fetch);
      if loaded.Threw? {
        return Threw(loaded.message);
      }
      var catalogue := loaded.value;
      var index := GetFuseIndex(catalogue);
      var results := MatchAll(names, catalogue, index, search);
      r := Returned(results);
    }

    /**
     * `enrichOcrResults`: the readings' names matched in order, each result
     * joined with the reading at the same index.
     */
    method EnrichOcrResults(readings: seq<OcrBiomarkerResult>, fetch: Outcome<seq<BiomarkerData>>, search: Search)
      returns (r: Outcome<seq<EnrichedBiomarkerResult>>)
      requires Consistent()
      modifies this
      ensures Consistent()
      ensures r.Threw? <==> old(biomarkers).None? && fetch.Threw?
      ensures r.Returned? ==> (biomarkers.Some? && fuseIndex.Some? && |r.value| == |readings|
        && forall i | 0 <= i < |readings| ::
          r.value[i] == Enrich(
            MatchOne(readings[i].name, biomarkers.value, fuseIndex.value, search, FuzzyThreshold), readings[i]))
    {
      var names := seq(|readings|, i requires 0 <= i < |readings| => readings[i].name);
      var outcome := MatchBiomarkerNames(names, fetch, search);
      if outcome.Threw? {
        return Threw(outcome.message);
      }
      var results := outcome.value;
      r := Returned(seq(|results|, i requires 0 <= i < |results| => Enrich(results[i], readings[i])));
    }
  }
}
