/**
 * Text normalisation applied to every comment before sentiment scoring and
 * clustering: strip, lowercase, replace URLs and @mentions by a space, and
 * collapse whitespace runs to one space.
 *
 * Each regular-expression substitution is modelled as a left-to-right scanner:
 * at each position it either matches (the match is as long as the pattern's
 * greedy repetition allows, and is replaced by one space) or copies one
 * character and moves on, which is what `re.sub` does for patterns that
 * cannot match the empty string.
 */
module TextPreprocess {

  // ---------------------------------------------------------------------------
  // Character classes
  // ---------------------------------------------------------------------------

  /** Python's whitespace: `str.isspace()`, and `\s` of a `str` pattern. */
  predicate IsSpace(c: char) {
    c == ' ' || ('\t' <= c <= '\r') || ('\U{1C}' <= c <= '\U{1F}')
    || c == '\U{85}' || c == '\U{A0}' || c == '\U{1680}'
    || ('\U{2000}' <= c <= '\U{200A}') || c == '\U{2028}' || c == '\U{2029}'
    || c == '\U{202F}' || c == '\U{205F}' || c == '\U{3000}'
  }

  /** `\w`, restricted to ASCII: letters, digits and the underscore. */
  predicate IsWordChar(c: char) {
    ('a' <= c <= 'z') || ('A' <= c <= 'Z') || ('0' <= c <= '9') || c == '_'
  }

  /** `str.lower()` on one character, restricted to ASCII capitals. */
  function Lower(c: char): char {
    if 'A' <= c <= 'Z' then (c as int + 32) as char else c
  }

  // ---------------------------------------------------------------------------
  // strip() and lower()
  // ---------------------------------------------------------------------------

  /** Drops the leading whitespace of `s`. */
  function StripLeft(s: string): (r: string)
    ensures |r| <= |s| && r == s[|s| - |r|..]
    ensures forall i :: 0 <= i < |s| - |r| ==> IsSpace(s[i])
    ensures r != [] ==> !IsSpace(r[0])
  {
    if s != [] && IsSpace(s[0]) then StripLeft(s[1..]) else s
  }

  /** Drops the trailing whitespace of `s`. */
  function StripRight(s: string): (r: string)
    ensures |r| <= |s| && r == s[..|r|]
    ensures forall i :: |r| <= i < |s| ==> IsSpace(s[i])
    ensures r != [] ==> !IsSpace(r[|r| - 1])
  {
    if s != [] && IsSpace(s[|s| - 1]) then StripRight(s[..|s| - 1]) else s
  }

  /**
   * `str.strip()` with no argument: a contiguous stretch of `s`, everything
   * around it whitespace, and neither end of it whitespace.
   */
  function Strip(s: string): string {
    StripRight(StripLeft(s))
  }

  /** Neither end of the stripped text is whitespace. */
  lemma StripEnds(s: string)
    ensures var r := Strip(s); r != [] ==> !IsSpace(r[0]) && !IsSpace(r[|r| - 1])
  {
    var left := StripLeft(s);
    var r := StripRight(left);
    if r != [] {
      assert r[0] == left[0];
    }
  }

  /** Text with no whitespace at either end is left as it is by `Strip`. */
  lemma StripKeeps(s: string)
    requires s != [] ==> !IsSpace(s[0]) && !IsSpace(s[|s| - 1])
    ensures Strip(s) == s
  {
    assert StripLeft(s) == s;
    assert StripRight(s) == s;
  }

  /** Every character of `s` is its own lowercase. */
  predicate IsLowercase(s: string) {
    forall i :: 0 <= i < |s| ==> Lower(s[i]) == s[i]
  }

  /** `str.lower()`: each character lowered in place. */
  function LowerStr(s: string): string {
    seq(|s|, i requires 0 <= i < |s| => Lower(s[i]))
  }

  /** Lowering gives lowercase text, and leaves lowercase text as it is. */
  lemma LowerStrLowercase(s: string)
    ensures |LowerStr(s)| == |s|
    ensures IsLowercase(LowerStr(s))
    ensures IsLowercase(s) ==> LowerStr(s) == s
  {
  }

  // ---------------------------------------------------------------------------
  // The patterns
  // ---------------------------------------------------------------------------

  /** Length of the longest prefix of `s` that holds no whitespace. */
  function NonSpaceRun(s: string): (n: nat)
    ensures n <= |s|
    ensures forall i :: 0 <= i < n ==> !IsSpace(s[i])
    ensures n < |s| ==> IsSpace(s[n])
  {
    if s == [] || IsSpace(s[0]) then 0 else 1 + NonSpaceRun(s[1..])
  }

  /** Length of the longest prefix of `s` made of word characters. */
  function WordRun(s: string): (n: nat)
    ensures n <= |s|
    ensures forall i :: 0 <= i < n ==> IsWordChar(s[i])
    ensures n < |s| ==> !IsWordChar(s[n])
  {
    if s == [] || !IsWordChar(s[0]) then 0 else 1 + WordRun(s[1..])
  }

  /** Length of the longest prefix of `s` made of whitespace. */
  function SpaceRun(s: string): (n: nat)
    ensures n <= |s|
    ensures forall i :: 0 <= i < n ==> IsSpace(s[i])
    ensures n < |s| ==> !IsSpace(s[n])
  {
    if s == [] || !IsSpace(s[0]) then 0 else 1 + SpaceRun(s[1..])
  }

  /** `https?://\S+` matches at the start of `s`. */
  predicate UrlAt(s: string) {
    (|s| > 8 && s[..8] == "https://" && !IsSpace(s[8]))
    || (|s| > 7 && s[..7] == "http://" && !IsSpace(s[7]))
  }

  /** Where the greedy match of `https?://\S+` at the start of `s` ends. */
  function UrlEnd(s: string): (e: nat)
    requires UrlAt(s)
    ensures 0 < e <= |s|
    ensures (|s| > 8 && s[..8] == "https://" && e > 8) || (s[..7] == "http://" && e > 7)
    ensures forall i :: 0 <= i < e ==> !IsSpace(s[i])
    ensures e < |s| ==> IsSpace(s[e])
  {
    var scheme := if |s| > 8 && s[..8] == "https://" && !IsSpace(s[8]) then 8 else 7;
    assert forall i :: 0 <= i < scheme ==> s[i] == s[..scheme][i];
    scheme + NonSpaceRun(s[scheme..])
  }

  /** `@\w+` matches at the start of `s`. */
  predicate MentionAt(s: string) {
    |s| >= 2 && s[0] == '@' && IsWordChar(s[1])
  }

  /** Where the greedy match of `@\w+` at the start of `s` ends. */
  function MentionEnd(s: string): (e: nat)
    requires MentionAt(s)
    ensures 1 < e <= |s|
    ensures forall i :: 1 <= i < e ==> IsWordChar(s[i])
    ensures e < |s| ==> !IsWordChar(s[e])
  {
    1 + WordRun(s[1..])
  }

  datatype Pattern = Url | Mention

  predicate MatchAt(p: Pattern, s: string) {
    match p
    case Url => UrlAt(s)
    case Mention => MentionAt(s)
  }

  /** No position of `s` starts a match of pattern `p`. */
  predicate NoMatch(p: Pattern, s: string) {
    forall i :: 0 <= i < |s| ==> !MatchAt(p, s[i..])
  }

  /** Every whitespace character of `s` is a plain space. */
  predicate SpacesArePlain(s: string) {
    forall i :: 0 <= i < |s| && IsSpace(s[i]) ==> s[i] == ' '
  }

  /** `s` has no two adjacent whitespace characters. */
  predicate NoSpaceRuns(s: string) {
    forall i :: 0 <= i < |s| - 1 ==> !(IsSpace(s[i]) && IsSpace(s[i + 1]))
  }

  // ---------------------------------------------------------------------------
  // The three substitutions
  // ---------------------------------------------------------------------------

  /** `URL_RE.sub(' ', t)`. */
  function SubUrls(t: string): (r: string)
    ensures |r| <= |t|
    decreases |t|
  {
    if t == [] then []
    else if UrlAt(t) then " " + SubUrls(t[UrlEnd(t)..])
    else [t[0]] + SubUrls(t[1..])
  }

  /** `MENTION_RE.sub(' ', t)`. */
  function SubMentions(t: string): (r: string)
    ensures |r| <= |t|
    decreases |t|
  {
    if t == [] then []
    else if MentionAt(t) then " " + SubMentions(t[MentionEnd(t)..])
    else [t[0]] + SubMentions(t[1..])
  }

  /** `re.sub(r'\s+', ' ', t)`. */
  function CollapseSpaces(t: string): (r: string)
    ensures |r| <= |t|
    decreases |t|
  {
    if t == [] then []
    else if IsSpace(t[0]) then " " + CollapseSpaces(t[SpaceRun(t)..])
    else [t[0]] + CollapseSpaces(t[1..])
  }

  // ---------------------------------------------------------------------------
  // The pipeline
  // ---------------------------------------------------------------------------

  /**
   * `preprocess_text`: its result is lowercase, holds no URL and no mention,
   * and its only whitespace is single plain spaces.
   */
  function PreprocessText(text: string): (r: string)
    ensures IsLowercase(r)
    ensures NoMatch(Url, r) && NoMatch(Mention, r)
    ensures SpacesArePlain(r) && NoSpaceRuns(r)
  {
    var lowered := LowerStr(Strip(text));
    LowerStrLowercase(Strip(text));
    var noUrls := SubUrls(lowered);
    var noMentions := SubMentions(noUrls);
    SubUrlsClears(lowered);
    SubMentionsClears(noUrls);
    SubMentionsKeeps(Url, noUrls);
    CollapseKeeps(Url, noMentions);
    CollapseKeeps(Mention, noMentions);
    CollapseShape(noMentions);
    SubUrlsKeepsLower(lowered);
    SubMentionsKeepsLower(noUrls);
    CollapseKeepsLower(noMentions);
    CollapseSpaces(noMentions)
  }

  /**
   * `preprocess_batch`: one cleaned text per input, in input order, so every
   * text of the batch is lowercase and free of URLs, mentions and whitespace
   * runs.
   */
  function PreprocessBatch(texts: seq<string>): (r: seq<string>)
    ensures |r| == |texts|
    ensures forall i :: 0 <= i < |texts| ==> r[i] == PreprocessText(texts[i])
    ensures forall i :: 0 <= i < |r| ==>
      IsLowercase(r[i]) && NoMatch(Url, r[i]) && NoMatch(Mention, r[i]) && NoSpaceRuns(r[i])
  {
    seq(|texts|, i requires 0 <= i < |texts| => PreprocessText(texts[i]))
  }

  // ---------------------------------------------------------------------------
  // Lemmas: how a scanner's output relates to its input
  // ---------------------------------------------------------------------------

  /**
   * The leading whitespace-free stretch of `out` is also a prefix of `t`.
   * Each substitution replaces a match by a space, so its output agrees with
   * its input up to the first whitespace.
   */
  ghost predicate LeadAgrees(out: string, t: string) {
    var n := NonSpaceRun(out);
    n <= |t| && out[..n] == t[..n]
  }

  lemma {:induction false} NonSpaceRunAtLeast(s: string, j: nat)
    requires j <= |s|
    requires forall i :: 0 <= i < j ==> !IsSpace(s[i])
    ensures NonSpaceRun(s) >= j
  {
    if j > 0 {
      NonSpaceRunAtLeast(s[1..], j - 1);
    }
  }

  lemma LeadAgreesCons(c: char, rest: string, t: string)
    requires LeadAgrees(rest, t)
    ensures LeadAgrees([c] + rest, [c] + t)
  {
    var out := [c] + rest;
    assert out[1..] == rest;
    if !IsSpace(c) {
      var n := NonSpaceRun(rest);
      assert NonSpaceRun(out) == n + 1;
      assert out[..n + 1] == [c] + rest[..n];
      assert ([c] + t)[..n + 1] == [c] + t[..n];
    }
  }

  lemma LeadAgreesSpace(rest: string, t: string)
    ensures LeadAgrees(" " + rest, t)
  {
    assert NonSpaceRun(" " + rest) == 0;
  }

  /** Whether a pattern matches at the start depends only on the leading whitespace-free stretch. */
  lemma MatchAtLead(p: Pattern, s: string, t: string)
    requires MatchAt(p, s) && LeadAgrees(s, t)
    ensures MatchAt(p, t)
  {
    var w := if p == Mention then 2
             else if |s| > 8 && s[..8] == "https://" && !IsSpace(s[8]) then 9
             else 8;
    forall i | 0 <= i < w ensures !IsSpace(s[i]) {
      if p == Url && w == 9 && i < 8 { assert s[i] == s[..8][i]; }
      if p == Url && w == 8 && i < 7 { assert s[i] == s[..7][i]; }
    }
    NonSpaceRunAtLeast(s, w);
    var n := NonSpaceRun(s);
    assert forall i :: 0 <= i < w ==> s[i] == s[..n][i] == t[..n][i] == t[i];
    if p == Url {
      if w == 9 {
        assert t[..8] == s[..8];
      } else {
        assert t[..7] == s[..7];
      }
    }
  }

  lemma NoMatchSuffix(p: Pattern, t: string, k: nat)
    requires k <= |t| && NoMatch(p, t)
    ensures NoMatch(p, t[k..])
  {
    forall i | 0 <= i < |t[k..]| ensures !MatchAt(p, t[k..][i..]) {
      assert t[k..][i..] == t[k + i..];
    }
  }

  lemma NoMatchSpace(p: Pattern, rest: string)
    requires NoMatch(p, rest)
    ensures NoMatch(p, " " + rest)
  {
    var out := " " + rest;
    forall i | 0 <= i < |out| ensures !MatchAt(p, out[i..]) {
      if i > 0 {
        assert out[i..] == rest[i - 1..];
      } else {
        assert out[0..] == out;
        assert |out| > 8 ==> out[..8][0] == ' ';
        assert |out| > 7 ==> out[..7][0] == ' ';
      }
    }
  }

  /**
   * Prepending a character to a match-free output creates no match, provided
   * the same character before the scanner's input starts none.
   */
  lemma NoMatchCons(p: Pattern, c: char, rest: string, t: string)
    requires NoMatch(p, rest) && LeadAgrees(rest, t) && !MatchAt(p, [c] + t)
    ensures NoMatch(p, [c] + rest)
  {
    var out := [c] + rest;
    forall i | 0 <= i < |out| ensures !MatchAt(p, out[i..]) {
      if i == 0 {
        LeadAgreesCons(c, rest, t);
        if MatchAt(p, out) { MatchAtLead(p, out, [c] + t); }
      } else {
        assert out[i..] == rest[i - 1..];
      }
    }
  }

  lemma {:induction false} SubUrlsLead(t: string)
    ensures LeadAgrees(SubUrls(t), t)
    decreases |t|
  {
    if t != [] {
      if UrlAt(t) {
        LeadAgreesSpace(SubUrls(t[UrlEnd(t)..]), t);
      } else {
        SubUrlsLead(t[1..]);
        LeadAgreesCons(t[0], SubUrls(t[1..]), t[1..]);
        assert [t[0]] + t[1..] == t;
      }
    }
  }

  lemma {:induction false} SubMentionsLead(t: string)
    ensures LeadAgrees(SubMentions(t), t)
    decreases |t|
  {
    if t != [] {
      if MentionAt(t) {
        LeadAgreesSpace(SubMentions(t[MentionEnd(t)..]), t);
      } else {
        SubMentionsLead(t[1..]);
        LeadAgreesCons(t[0], SubMentions(t[1..]), t[1..]);
        assert [t[0]] + t[1..] == t;
      }
    }
  }

  lemma {:induction false} CollapseLead(t: string)
    ensures LeadAgrees(CollapseSpaces(t), t)
    decreases |t|
  {
    if t != [] {
      if IsSpace(t[0]) {
        LeadAgreesSpace(CollapseSpaces(t[SpaceRun(t)..]), t);
      } else {
        CollapseLead(t[1..]);
        LeadAgreesCons(t[0], CollapseSpaces(t[1..]), t[1..]);
        assert [t[0]] + t[1..] == t;
      }
    }
  }

  // ---------------------------------------------------------------------------
  // Lemmas: what each substitution removes and what it keeps out
  // ---------------------------------------------------------------------------

  /** After the URL substitution no URL is left. */
  lemma {:induction false} SubUrlsClears(t: string)
    ensures NoMatch(Url, SubUrls(t))
    decreases |t|
  {
    if t != [] {
      if UrlAt(t) {
        SubUrlsClears(t[UrlEnd(t)..]);
        NoMatchSpace(Url, SubUrls(t[UrlEnd(t)..]));
      } else {
        SubUrlsClears(t[1..]);
        SubUrlsLead(t[1..]);
        assert [t[0]] + t[1..] == t;
        NoMatchCons(Url, t[0], SubUrls(t[1..]), t[1..]);
      }
    }
  }

  /** After the mention substitution no mention is left. */
  lemma {:induction false} SubMentionsClears(t: string)
    ensures NoMatch(Mention, SubMentions(t))
    decreases |t|
  {
    if t != [] {
      if MentionAt(t) {
        SubMentionsClears(t[MentionEnd(t)..]);
        NoMatchSpace(Mention, SubMentions(t[MentionEnd(t)..]));
      } else {
        SubMentionsClears(t[1..]);
        SubMentionsLead(t[1..]);
        assert [t[0]] + t[1..] == t;
        NoMatchCons(Mention, t[0], SubMentions(t[1..]), t[1..]);
      }
    }
  }

  /** The mention substitution creates no match of a pattern its input lacks. */
  lemma {:induction false} SubMentionsKeeps(p: Pattern, t: string)
    requires NoMatch(p, t)
    ensures NoMatch(p, SubMentions(t))
    decreases |t|
  {
    if t != [] {
      if MentionAt(t) {
        NoMatchSuffix(p, t, MentionEnd(t));
        SubMentionsKeeps(p, t[MentionEnd(t)..]);
        NoMatchSpace(p, SubMentions(t[MentionEnd(t)..]));
      } else {
        NoMatchSuffix(p, t, 1);
        SubMentionsKeeps(p, t[1..]);
        SubMentionsLead(t[1..]);
        assert [t[0]] + t[1..] == t;
        assert t[0..] == t;
        NoMatchCons(p, t[0], SubMentions(t[1..]), t[1..]);
      }
    }
  }

  /** Collapsing whitespace creates no match of a pattern its input lacks. */
  lemma {:induction false} CollapseKeeps(p: Pattern, t: string)
    requires NoMatch(p, t)
    ensures NoMatch(p, CollapseSpaces(t))
    decreases |t|
  {
    if t != [] {
      if IsSpace(t[0]) {
        NoMatchSuffix(p, t, SpaceRun(t));
        CollapseKeeps(p, t[SpaceRun(t)..]);
        NoMatchSpace(p, CollapseSpaces(t[SpaceRun(t)..]));
      } else {
        NoMatchSuffix(p, t, 1);
        CollapseKeeps(p, t[1..]);
        CollapseLead(t[1..]);
        assert [t[0]] + t[1..] == t;
        assert t[0..] == t;
        NoMatchCons(p, t[0], CollapseSpaces(t[1..]), t[1..]);
      }
    }
  }

  /** After collapsing, whitespace occurs only as single plain spaces. */
  lemma {:induction false} CollapseShape(t: string)
    ensures SpacesArePlain(CollapseSpaces(t)) && NoSpaceRuns(CollapseSpaces(t))
    ensures t != [] && !IsSpace(t[0]) ==> CollapseSpaces(t) != [] && CollapseSpaces(t)[0] == t[0]
    decreases |t|
  {
    if t != [] {
      var k := if IsSpace(t[0]) then SpaceRun(t) else 1;
      var rest := CollapseSpaces(t[k..]);
      CollapseShape(t[k..]);
      var c := if IsSpace(t[0]) then ' ' else t[0];
      assert CollapseSpaces(t) == [c] + rest;
      assert IsSpace(t[0]) ==> rest == [] || !IsSpace(rest[0]);
      ShapeCons(c, rest);
    }
  }

  /** Putting a character in front keeps the shape when it starts no whitespace run. */
  lemma ShapeCons(c: char, rest: string)
    requires SpacesArePlain(rest) && NoSpaceRuns(rest)
    requires IsSpace(c) ==> c == ' ' && (rest == [] || !IsSpace(rest[0]))
    ensures SpacesArePlain([c] + rest) && NoSpaceRuns([c] + rest)
  {
    var out := [c] + rest;
    assert forall i :: 1 <= i < |out| ==> out[i] == rest[i - 1];
    assert SpacesArePlain(out) by {
      forall i | 0 <= i < |out| && IsSpace(out[i]) ensures out[i] == ' ' {
        if i > 0 {
          assert out[i] == rest[i - 1];
        }
      }
    }
    assert NoSpaceRuns(out) by {
      forall i | 0 <= i < |out| - 1 ensures !(IsSpace(out[i]) && IsSpace(out[i + 1])) {
        if i > 0 {
          assert out[i] == rest[i - 1] && out[i + 1] == rest[i];
        }
      }
    }
  }

  // ---------------------------------------------------------------------------
  // Lemmas: lowercase text stays lowercase
  // ---------------------------------------------------------------------------

  lemma LowercaseCons(c: char, rest: string)
    requires Lower(c) == c && IsLowercase(rest)
    ensures IsLowercase([c] + rest)
  {
    assert forall i :: 1 <= i < |[c] + rest| ==> ([c] + rest)[i] == rest[i - 1];
  }

  lemma LowercaseSuffix(t: string, k: nat)
    requires k <= |t| && IsLowercase(t)
    ensures IsLowercase(t[k..])
  {
    assert forall i :: 0 <= i < |t| - k ==> t[k..][i] == t[k + i];
  }

  /** The URL substitution keeps lowercase text lowercase: it only inserts spaces. */
  lemma {:induction false} SubUrlsKeepsLower(t: string)
    requires IsLowercase(t)
    ensures IsLowercase(SubUrls(t))
    decreases |t|
  {
    if t != [] {
      var k := if UrlAt(t) then UrlEnd(t) else 1;
      LowercaseSuffix(t, k);
      SubUrlsKeepsLower(t[k..]);
      LowercaseCons(if UrlAt(t) then ' ' else t[0], SubUrls(t[k..]));
    }
  }

  /** The mention substitution keeps lowercase text lowercase. */
  lemma {:induction false} SubMentionsKeepsLower(t: string)
    requires IsLowercase(t)
    ensures IsLowercase(SubMentions(t))
    decreases |t|
  {
    if t != [] {
      var k := if MentionAt(t) then MentionEnd(t) else 1;
      LowercaseSuffix(t, k);
      SubMentionsKeepsLower(t[k..]);
      LowercaseCons(if MentionAt(t) then ' ' else t[0], SubMentions(t[k..]));
    }
  }

  /** Collapsing whitespace keeps lowercase text lowercase. */
  lemma {:induction false} CollapseKeepsLower(t: string)
    requires IsLowercase(t)
    ensures IsLowercase(CollapseSpaces(t))
    decreases |t|
  {
    if t != [] {
      var k := if IsSpace(t[0]) then SpaceRun(t) else 1;
      LowercaseSuffix(t, k);
      CollapseKeepsLower(t[k..]);
      LowercaseCons(if IsSpace(t[0]) then ' ' else t[0], CollapseSpaces(t[k..]));
    }
  }

  // ---------------------------------------------------------------------------
  // Lemmas about the whole pipeline
  // ---------------------------------------------------------------------------

  /** Text that is already lowercase, stripped and normalised. */
  predicate IsClean(s: string) {
    && IsLowercase(s)
    && (s != [] ==> !IsSpace(s[0]) && !IsSpace(s[|s| - 1]))
    && NoMatch(Url, s) && NoMatch(Mention, s)
    && SpacesArePlain(s) && NoSpaceRuns(s)
  }

  lemma {:induction false} SubUrlsUnchanged(t: string)
    requires NoMatch(Url, t)
    ensures SubUrls(t) == t
    decreases |t|
  {
    if t != [] {
      assert t[0..] == t;
      NoMatchSuffix(Url, t, 1);
      SubUrlsUnchanged(t[1..]);
    }
  }

  lemma {:induction false} SubMentionsUnchanged(t: string)
    requires NoMatch(Mention, t)
    ensures SubMentions(t) == t
    decreases |t|
  {
    if t != [] {
      assert t[0..] == t;
      NoMatchSuffix(Mention, t, 1);
      SubMentionsUnchanged(t[1..]);
    }
  }

  lemma {:induction false} CollapseUnchanged(t: string)
    requires SpacesArePlain(t) && NoSpaceRuns(t)
    ensures CollapseSpaces(t) == t
    decreases |t|
  {
    if t != [] {
      var rest := t[1..];
      assert forall i :: 0 <= i < |rest| ==> rest[i] == t[i + 1];
      if IsSpace(t[0]) {
        assert SpaceRun(t) == 1;
      }
      CollapseUnchanged(rest);
    }
  }

  /** Clean text passes through the pipeline unchanged. */
  lemma CleanTextIsFixedPoint(s: string)
    requires IsClean(s)
    ensures PreprocessText(s) == s
  {
    assert LowerStr(Strip(s)) == s by {
      StripKeeps(s);
      LowerStrLowercase(s);
    }
    assert SubUrls(s) == s by { SubUrlsUnchanged(s); }
    assert SubMentions(s) == s by { SubMentionsUnchanged(s); }
    assert CollapseSpaces(s) == s by { CollapseUnchanged(s); }
  }

  /**
   * A URL at the start of the stripped text is removed whatever the letter
   * case of its scheme (lowercasing comes first), and the result then begins
   * with a space: stripping happens before the substitutions, not after.
   */
  lemma LeadingUrlLeavesSpace(s: string)
    requires UrlAt(LowerStr(Strip(s)))
    ensures PreprocessText(s) != [] && PreprocessText(s)[0] == ' '
  {
    var noUrls := SubUrls(LowerStr(Strip(s)));
    assert noUrls[0] == ' ';
    var noMentions := SubMentions(noUrls);
    assert noMentions[0] == ' ';
  }

  /**
   * A URL at the end of the stripped text leaves a trailing space in the same
   * way: here the stripped, lowered text is one character, a space and a URL.
   */
  lemma TrailingUrlLeavesSpace(s: string, c: char, u: string)
    requires UrlAt(u) && forall i :: 0 <= i < |u| ==> !IsSpace(u[i])
    requires LowerStr(Strip(s)) == [c, ' '] + u
    ensures PreprocessText(s) == [c, ' ']
  {
    StrippedLowerHead(s);
    SubUrlsWhole(u);
    SubUrlsTrailing(c, u);
    TrailingSpacesCollapsed(c);
  }

  /** The stripped, lowered text does not start with whitespace. */
  lemma StrippedLowerHead(s: string)
    requires |LowerStr(Strip(s))| > 0
    ensures !IsSpace(LowerStr(Strip(s))[0])
  {
    StripEnds(s);
    assert LowerStr(Strip(s))[0] == Lower(Strip(s)[0]);
  }

  /** Text that becomes one space after a character and a space becomes a second space. */
  lemma SubUrlsTrailing(c: char, u: string)
    requires SubUrls(u) == " "
    ensures SubUrls([c, ' '] + u) == [c, ' ', ' ']
  {
    SubUrlsSpaceUrl(u);
    SubUrlsCopiesThen(c, [' '] + u, "  ");
    assert [c] + ([' '] + u) == [c, ' '] + u;
  }

  /** A character where no URL starts is followed by the substitution of the rest. */
  lemma SubUrlsCopiesThen(c: char, rest: string, v: string)
    requires |rest| > 0 && rest[0] == ' ' && SubUrls(rest) == v
    ensures SubUrls([c] + rest) == [c] + v
  {
    NoUrlAtSpace([c] + rest, 1);
    SubUrlsCopies(c, rest);
  }

  /** A space before text that becomes one space gives two spaces. */
  lemma SubUrlsSpaceUrl(u: string)
    requires SubUrls(u) == " "
    ensures SubUrls([' '] + u) == "  "
  {
    NoUrlAtSpace([' '] + u, 0);
    SubUrlsCopies(' ', u);
  }

  /** No URL starts in a text with a space among its first two characters. */
  lemma NoUrlAtSpace(t: string, k: nat)
    requires k <= 1 && k < |t| && t[k] == ' '
    ensures !UrlAt(t)
  {
    assert |t| > 7 ==> t[..7][k] == ' ';
    assert |t| > 8 ==> t[..8][k] == ' ';
  }

  /** A URL that fills the whole text becomes a single space. */
  lemma SubUrlsWhole(u: string)
    requires UrlAt(u) && forall i :: 0 <= i < |u| ==> !IsSpace(u[i])
    ensures SubUrls(u) == " "
  {
    var e := UrlEnd(u);
    assert e == |u|;
    assert u[e..] == [];
  }

  /** A character where no URL starts is copied by the URL substitution. */
  lemma SubUrlsCopies(c: char, rest: string)
    requires !UrlAt([c] + rest)
    ensures SubUrls([c] + rest) == [c] + SubUrls(rest)
  {
    assert ([c] + rest)[1..] == rest;
  }

  /** Two trailing spaces after a non-space character collapse to one. */
  lemma TrailingSpacesCollapsed(c: char)
    requires !IsSpace(c)
    ensures CollapseSpaces(SubMentions([c, ' ', ' '])) == [c, ' ']
  {
    var m := [c, ' ', ' '];
    assert SubMentions(m) == m by {
      assert SubMentions([' ']) == [' '] by { assert [' '][1..] == []; }
      assert SubMentions([' ', ' ']) == [' ', ' '] by { assert [' ', ' '][1..] == [' ']; }
      assert !IsWordChar(m[1]) && m[1..] == [' ', ' '];
    }
    assert CollapseSpaces(m) == [c, ' '] by {
      assert m[1..] == [' ', ' '] && SpaceRun(m[1..]) == 2;
    }
  }

  /** The pipeline is not idempotent. */
  lemma NotIdempotent()
    ensures PreprocessText("HTTP://x") == " "
    ensures PreprocessText(" ") == ""
  {
    var s := "HTTP://x";
    assert Strip(s) == s by { StripKeeps(s); }
    assert LowerStr(s) == "http://x";
    assert SubUrls("http://x") == " " by { SubUrlsWhole("http://x"); }
    assert SubMentions(" ") == " ";
    assert CollapseSpaces(" ") == " ";
    assert Strip(" ") == "" by { assert StripLeft(" ") == ""; }
  }
}
