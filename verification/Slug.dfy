/** Slugs: how one is made from a name, and the pattern it is checked against. Once runs
    of other characters have been replaced every character is ASCII, so that lengths in
    bytes and in characters agree. */
module Slug {
  /** unicode.IsSpace and unicode.ToLower. All that is used of them is that they leave the
      characters of a slug alone. */
  datatype Unicode = Unicode(isSpace: char -> bool, toLower: char -> char) {
    ghost predicate Valid() {
      forall c: char | SlugChar(c) || c == '-' :: !isSpace(c) && toLower(c) == c
    }
  }

  predicate SlugChar(c: char) {
    'a' <= c <= 'z' || '0' <= c <= '9'
  }

  const IS_DASH: char -> bool := c => c == '-'
  const MAX_SLUG := 60

  // ---- Making a slug -----------------------------------------------------------

  function TrimLeft(s: string, cut: char -> bool): string {
    if s != [] && cut(s[0]) then TrimLeft(s[1..], cut) else s
  }

  function TrimRight(s: string, cut: char -> bool): string {
    if s != [] && cut(s[|s| - 1]) then TrimRight(s[..|s| - 1], cut) else s
  }

  function Trim(s: string, cut: char -> bool): string {
    TrimRight(TrimLeft(s, cut), cut)
  }

  function Lower(u: Unicode, s: string): string {
    seq(|s|, i requires 0 <= i < |s| => u.toLower(s[i]))
  }

  /** What is left after the run of other characters at the start. */
  function SkipRun(s: string): (rest: string)
    ensures |rest| <= |s|
  {
    if s == [] || SlugChar(s[0]) then s else SkipRun(s[1..])
  }

  /** Replace every run of characters that cannot appear in a slug by one hyphen. */
  function Collapse(s: string): string
    decreases |s|
  {
    if s == [] then []
    else if SlugChar(s[0]) then [s[0]] + Collapse(s[1..])
    else "-" + Collapse(SkipRun(s[1..]))
  }

  function Slugify(u: Unicode, name: string): string {
    var slug := Trim(Collapse(Lower(u, Trim(name, u.isSpace))), IS_DASH);
    if |slug| > MAX_SLUG then Trim(slug[..MAX_SLUG], IS_DASH) else slug
  }

  // ---- The pattern ---------------------------------------------------------------

  /** The pattern as an automaton: has the text so far ended inside a run of slug
      characters, and may it therefore end or go on with a hyphen? */
  predicate Accepts(s: string, inRun: bool) {
    if s == [] then inRun
    else if SlugChar(s[0]) then Accepts(s[1..], true)
    else s[0] == '-' && inRun && Accepts(s[1..], false)
  }

  predicate MatchesPattern(s: string) {
    Accepts(s, false)
  }

  /** The pattern as it reads: one or more runs of slug characters, joined by hyphens. */
  ghost predicate AreRuns(runs: seq<string>) {
    runs != [] && forall i | 0 <= i < |runs| :: runs[i] != [] && forall c | c in runs[i] :: SlugChar(c)
  }

  function Joined(runs: seq<string>): string
    requires runs != []
  {
    if |runs| == 1 then runs[0] else runs[0] + "-" + Joined(runs[1..])
  }

  /** Slug characters and hyphens, no two hyphens in a row. */
  ghost predicate Clean(s: string) {
    && (forall i | 0 <= i < |s| :: SlugChar(s[i]) || s[i] == '-')
    && (forall i, j | 0 <= i < |s| && j == i + 1 < |s| :: s[i] == '-' ==> s[j] != '-')
  }

  ghost predicate AllDashes(s: string) {
    forall i | 0 <= i < |s| :: s[i] == '-'
  }

  ghost predicate NoSlugChars(s: string) {
    forall i | 0 <= i < |s| :: !SlugChar(s[i])
  }

  ghost predicate NoDashAtEnds(s: string) {
    s != [] ==> s[0] != '-' && s[|s| - 1] != '-'
  }

  lemma {:induction false} AcceptsExactly(s: string, inRun: bool)
    ensures Accepts(s, inRun) <==>
      && Clean(s) && (s == [] ==> inRun)
      && (s != [] ==> s[|s| - 1] != '-' && (s[0] == '-' ==> inRun))
  {
    if s != [] {
      AcceptsExactly(s[1..], SlugChar(s[0]));
      CleanHead(s);
    }
  }

  lemma CleanHead(s: string)
    requires s != []
    ensures Clean(s) <==>
      && (SlugChar(s[0]) || s[0] == '-') && Clean(s[1..])
      && (|s| > 1 && s[0] == '-' ==> s[1] != '-')
  {
    if Clean(s[1..]) {
      assert forall i | 1 <= i < |s| :: s[i] == s[1..][i - 1];
    }
    if Clean(s) {
      assert forall i | 0 <= i < |s| - 1 :: s[1..][i] == s[i + 1];
    }
  }

  /** The automaton accepts exactly the joined runs. */
  lemma PatternExactly(s: string)
    ensures MatchesPattern(s) <==> exists runs :: AreRuns(runs) && s == Joined(runs)
  {
    if MatchesPattern(s) {
      var runs := AcceptedIsJoined(s);
    }
    if exists runs :: AreRuns(runs) && s == Joined(runs) {
      var runs :| AreRuns(runs) && s == Joined(runs);
      JoinedIsAccepted(runs);
    }
  }

  /** The runs are of small letters and digits. */
  lemma OneCharacterSlugs(c: char)
    ensures MatchesPattern([c]) <==> 'a' <= c <= 'z' || '0' <= c <= '9'
  {
    assert [c][1..] == [] && Accepts([], true);
    assert Accepts([c], false) <==> SlugChar(c);
  }

  lemma {:induction false} JoinedIsAccepted(runs: seq<string>)
    requires AreRuns(runs)
    ensures MatchesPattern(Joined(runs))
  {
    if |runs| == 1 {
      RunIsAccepted(runs[0], []);
      assert runs[0] + [] == runs[0];
    } else {
      JoinedIsAccepted(runs[1..]);
      var rest := "-" + Joined(runs[1..]);
      assert rest[1..] == Joined(runs[1..]);
      RunIsAccepted(runs[0], rest);
      assert runs[0] + "-" + Joined(runs[1..]) == runs[0] + rest;
    }
  }

  lemma {:induction false} RunIsAccepted(run: string, rest: string)
    requires run != [] && forall c | c in run :: SlugChar(c)
    ensures forall inRun :: Accepts(run + rest, inRun) == Accepts(rest, true)
  {
    assert (run + rest)[1..] == run[1..] + rest;
    if |run| > 1 {
      RunIsAccepted(run[1..], rest);
    } else {
      assert run[1..] + rest == rest;
    }
  }

  lemma {:induction false} AcceptedIsJoined(s: string) returns (runs: seq<string>)
    requires MatchesPattern(s)
    ensures AreRuns(runs) && Joined(runs) == s
  {
    var head := [s[0]];
    assert s == head + s[1..];
    assert Accepts(s[1..], true);
    if |s| == 1 {
      runs := [head];
    } else if s[1] == '-' {
      var rest := AcceptedIsJoined(s[1..][1..]);
      assert s == head + "-" + s[1..][1..];
      runs := [head] + rest;
      assert runs[1..] == rest;
    } else {
      var rest := AcceptedIsJoined(s[1..]);
      runs := [head + rest[0]] + rest[1..];
      assert runs[1..] == rest[1..];
      if |rest| > 1 {
        assert head + (rest[0] + "-" + Joined(rest[1..])) == (head + rest[0]) + "-" + Joined(rest[1..]);
      }
    }
  }

  // ---- What the steps keep -----------------------------------------------------------

  lemma {:induction false} TrimLeftDrops(s: string, cut: char -> bool)
    ensures |TrimLeft(s, cut)| <= |s| && TrimLeft(s, cut) == s[|s| - |TrimLeft(s, cut)|..]
    ensures TrimLeft(s, cut) != [] ==> !cut(TrimLeft(s, cut)[0])
  {
    if s != [] && cut(s[0]) {
      TrimLeftDrops(s[1..], cut);
    }
  }

  lemma {:induction false} TrimLeftEmpties(s: string)
    ensures TrimLeft(s, IS_DASH) == [] <==> AllDashes(s)
  {
    if s != [] && s[0] == '-' {
      TrimLeftEmpties(s[1..]);
      assert AllDashes(s) <==> AllDashes(s[1..]) by {
        assert forall i | 1 <= i < |s| :: s[i] == s[1..][i - 1];
      }
    }
  }

  lemma {:induction false} TrimRightDrops(s: string, cut: char -> bool)
    ensures |TrimRight(s, cut)| <= |s| && TrimRight(s, cut) == s[..|TrimRight(s, cut)|]
    ensures TrimRight(s, cut) != [] ==> !cut(TrimRight(s, cut)[|TrimRight(s, cut)| - 1])
    ensures s != [] && !cut(s[0]) ==> TrimRight(s, cut) != []
  {
    if s != [] && cut(s[|s| - 1]) {
      TrimRightDrops(s[..|s| - 1], cut);
    }
  }

  /** Trimming hyphens from clean text leaves clean text with no hyphen at its ends, and
      nothing only if there was nothing but hyphens. */
  lemma TrimmedIsClean(s: string)
    requires Clean(s)
    ensures Clean(Trim(s, IS_DASH)) && NoDashAtEnds(Trim(s, IS_DASH)) && |Trim(s, IS_DASH)| <= |s|
    ensures Trim(s, IS_DASH) == [] <==> AllDashes(s)
  {
    var left := TrimLeft(s, IS_DASH);
    TrimLeftDrops(s, IS_DASH);
    TrimLeftEmpties(s);
    TrimRightDrops(left, IS_DASH);
    SliceIsClean(s, |s| - |left|, |s|);
    SliceIsClean(left, 0, |TrimRight(left, IS_DASH)|);
  }

  lemma SliceIsClean(s: string, from: nat, to: nat)
    requires Clean(s) && from <= to <= |s|
    ensures Clean(s[from..to])
  {
  }

  lemma {:induction false} SkipRunStops(s: string)
    ensures SkipRun(s) != [] ==> SlugChar(SkipRun(s)[0])
    ensures SkipRun(s) == [] <==> NoSlugChars(s)
  {
    if s != [] && !SlugChar(s[0]) {
      SkipRunStops(s[1..]);
      assert forall i | 1 <= i < |s| :: s[i] == s[1..][i - 1];
    }
  }

  lemma {:induction false} CollapsedIsClean(s: string)
    ensures Clean(Collapse(s))
    ensures Collapse(s) != [] && Collapse(s)[0] == '-' ==> s != [] && !SlugChar(s[0])
    ensures AllDashes(Collapse(s)) <==> NoSlugChars(s)
    decreases |s|
  {
    if s != [] {
      var rest := if SlugChar(s[0]) then s[1..] else SkipRun(s[1..]);
      CollapsedIsClean(rest);
      SkipRunStops(s[1..]);
      assert Collapse(s)[1..] == Collapse(rest);
      CleanHead(Collapse(s));
      assert forall i | 1 <= i < |s| :: s[i] == s[1..][i - 1];
    }
  }

  // ---- What a slug is -----------------------------------------------------------------

  lemma CutIsClean(slug: string)
    requires Clean(slug) && NoDashAtEnds(slug) && |slug| > MAX_SLUG
    ensures
      var cut := Trim(slug[..MAX_SLUG], IS_DASH);
      Clean(cut) && NoDashAtEnds(cut) && 0 < |cut| <= MAX_SLUG
  {
    SliceIsClean(slug, 0, MAX_SLUG);
    TrimmedIsClean(slug[..MAX_SLUG]);
    assert slug[..MAX_SLUG][0] == slug[0];
  }

  lemma SlugIsClean(u: Unicode, name: string)
    ensures Clean(Slugify(u, name)) && NoDashAtEnds(Slugify(u, name)) && |Slugify(u, name)| <= MAX_SLUG
    ensures Slugify(u, name) == [] <==> NoSlugChars(Lower(u, Trim(name, u.isSpace)))
  {
    var lower := Lower(u, Trim(name, u.isSpace));
    CollapsedIsClean(lower);
    TrimmedIsClean(Collapse(lower));
    hide Collapse, Trim, Lower, Clean, NoDashAtEnds, AllDashes, NoSlugChars;
    var slug := Trim(Collapse(lower), IS_DASH);
    if |slug| > MAX_SLUG {
      CutIsClean(slug);
    }
  }

  /** The result is empty exactly when the name has no usable character, and otherwise
      matches the pattern in at most 60 characters. */
  lemma SlugifyMatches(u: Unicode, name: string)
    ensures |Slugify(u, name)| <= MAX_SLUG
    ensures Slugify(u, name) != [] ==> MatchesPattern(Slugify(u, name))
    ensures Slugify(u, name) == [] <==> NoSlugChars(Lower(u, Trim(name, u.isSpace)))
  {
    SlugIsClean(u, name);
    AcceptsExactly(Slugify(u, name), false);
  }

  lemma {:induction false} CleanIsCollapsed(s: string)
    requires Clean(s)
    ensures Collapse(s) == s
  {
    if s != [] {
      CleanHead(s);
      CleanIsCollapsed(s[1..]);
      assert s == [s[0]] + s[1..];
    }
  }

  /** The texts that Slugify leaves alone are exactly the ones it can produce: nothing,
      and what matches the pattern within the length. */
  lemma SlugsAreTheFixedPoints(u: Unicode, s: string)
    requires u.Valid()
    ensures Slugify(u, s) == s <==> s == [] || (MatchesPattern(s) && |s| <= MAX_SLUG)
  {
    SlugifyMatches(u, s);
    if s == [] || (MatchesPattern(s) && |s| <= MAX_SLUG) {
      MatchingIsFixed(u, s);
    }
  }

  lemma MatchingIsFixed(u: Unicode, s: string)
    requires u.Valid() && |s| <= MAX_SLUG && (s == [] || MatchesPattern(s))
    ensures Slugify(u, s) == s
  {
    AcceptsExactly(s, false);
    assert Lower(u, s) == s;
    CleanIsCollapsed(s);
  }

  lemma SlugifyIsIdempotent(u: Unicode, name: string)
    requires u.Valid()
    ensures Slugify(u, Slugify(u, name)) == Slugify(u, name)
  {
    SlugifyMatches(u, name);
    SlugsAreTheFixedPoints(u, Slugify(u, name));
  }

  // ---- Names that spell a slug ----------------------------------------------------------

  /** The slug, with its letters and digits in any case that lowers to them and any other
      character for each hyphen. */
  ghost predicate Spells(u: Unicode, name: string, slug: string) {
    && |name| == |slug|
    && forall i | 0 <= i < |slug| ::
         if slug[i] == '-' then !SlugChar(u.toLower(name[i])) else u.toLower(name[i]) == slug[i] && !u.isSpace(name[i])
  }

  ghost predicate SameRuns(s: string, slug: string) {
    && |s| == |slug|
    && forall i | 0 <= i < |slug| :: if slug[i] == '-' then !SlugChar(s[i]) else s[i] == slug[i]
  }

  lemma {:induction false} CollapseSpells(s: string, slug: string)
    requires Clean(slug) && SameRuns(s, slug)
    ensures Collapse(s) == slug
  {
    if slug != [] {
      CleanHead(slug);
      assert slug == [slug[0]] + slug[1..];
      CollapseSpells(s[1..], slug[1..]);
      if slug[0] == '-' && |slug| > 1 {
        assert SlugChar(s[1..][0]);
      }
    }
  }

  lemma NothingToTrim(s: string, cut: char -> bool)
    requires s != [] && !cut(s[0]) && !cut(s[|s| - 1])
    ensures Trim(s, cut) == s
  {
  }

  /** "My App" gives "my-app": every name that spells a slug gives it. */
  lemma SpelledSlug(u: Unicode, name: string, slug: string)
    requires MatchesPattern(slug) && |slug| <= MAX_SLUG && Spells(u, name, slug)
    ensures Slugify(u, name) == slug
  {
    AcceptsExactly(slug, false);
    NothingToTrim(name, u.isSpace);
    assert SameRuns(Lower(u, name), slug);
    CollapseSpells(Lower(u, name), slug);
    NothingToTrim(slug, IS_DASH);
  }

  // ---- What a slug says ---------------------------------------------------------------

  /** The longest runs of slug characters, in order. */
  function Words(s: string): (words: seq<string>)
    ensures s != [] && SlugChar(s[0]) ==> words != []
  {
    if s == [] then []
    else if !SlugChar(s[0]) then Words(s[1..])
    else if |s| == 1 || !SlugChar(s[1]) then [[s[0]]] + Words(s[1..])
    else
      var rest := Words(s[1..]);
      [[s[0]] + rest[0]] + rest[1..]
  }

  /** A run of slug characters is one word. */
  lemma {:induction false} RunIsOneWord(run: string)
    requires run != [] && forall x | x in run :: SlugChar(x)
    ensures Words(run) == [run]
  {
    assert run == [run[0]] + run[1..] && SlugChar(run[0]);
    if |run| > 1 {
      assert run[1] in run;
      RunIsOneWord(run[1..]);
    } else {
      assert run == [run[0]] && [run] + Words([]) == [run];
    }
  }

  /** Any other character separates words. */
  lemma {:induction false} WordsAreSeparated(a: string, c: char, b: string)
    requires !SlugChar(c)
    ensures Words([]) == [] && Words(a + [c] + b) == Words(a) + Words(b)
    decreases |a|
  {
    if a == [] {
      assert (a + [c] + b)[1..] == b;
    } else {
      assert (a + [c] + b)[1..] == a[1..] + [c] + b;
      WordsAreSeparated(a[1..], c, b);
    }
  }

  lemma {:induction false} WordsAreRuns(s: string)
    ensures Words(s) != [] ==> AreRuns(Words(s))
  {
    if s != [] {
      WordsAreRuns(s[1..]);
    }
  }

  lemma {:induction false} WordsAfterSkip(s: string)
    ensures Words(SkipRun(s)) == Words(s) && (SkipRun(s) == [] ==> Words(s) == [])
  {
    if s != [] && !SlugChar(s[0]) {
      WordsAfterSkip(s[1..]);
    }
  }

  lemma JoinedLongerWord(c: char, words: seq<string>)
    requires words != []
    ensures Joined([[c] + words[0]] + words[1..]) == [c] + Joined(words)
  {
    var longer := [[c] + words[0]] + words[1..];
    assert longer[1..] == words[1..];
    if |words| > 1 {
      assert ([c] + words[0]) + "-" + Joined(words[1..]) == [c] + (words[0] + "-" + Joined(words[1..]));
    }
  }

  lemma JoinedNewWord(c: char, words: seq<string>)
    requires words != []
    ensures Joined([[c]] + words) == [c] + ("-" + Joined(words))
  {
    assert ([[c]] + words)[1..] == words;
    assert ([c] + "-") + Joined(words) == [c] + ("-" + Joined(words));
  }

  ghost predicate MaybeDash(s: string, text: string) {
    s == text || s == text + "-"
  }

  lemma MaybeDashAfter(c: char, s: string, text: string)
    requires MaybeDash(s, text)
    ensures MaybeDash([c] + s, [c] + text)
    ensures MaybeDash([c] + ("-" + s), [c] + ("-" + text))
  {
    assert [c] + (text + "-") == ([c] + text) + "-";
    assert [c] + ("-" + (text + "-")) == ([c] + ("-" + text)) + "-";
  }

  /** From a slug character on, collapsing joins the words, with a hyphen more when other
      characters follow the last. */
  lemma {:induction false} CollapseJoinsWords(s: string)
    requires s != [] && SlugChar(s[0])
    ensures MaybeDash(Collapse(s), Joined(Words(s)))
    decreases |s|
  {
    var c, rest := s[0], s[1..];
    if rest == [] {
      assert Collapse(s) == [c] + [];
    } else if SlugChar(rest[0]) {
      assert Collapse(s) == [c] + Collapse(rest) && Words(s) == [[c] + Words(rest)[0]] + Words(rest)[1..];
      hide Collapse, Words, Joined, MaybeDash;
      CollapseJoinsWords(rest);
      JoinedLongerWord(c, Words(rest));
      MaybeDashAfter(c, Collapse(rest), Joined(Words(rest)));
    } else {
      var next := SkipRun(rest);
      WordsAfterSkip(rest);
      SkipRunStops(rest);
      assert Collapse(s) == [c] + ("-" + Collapse(next)) && Words(s) == [[c]] + Words(next);
      if next == [] {
        assert [[c]] + [] == [[c]];
        assert [c] + ("-" + []) == [c] + "-";
      } else {
        hide Collapse, Words, Joined, MaybeDash, SkipRun;
        CollapseJoinsWords(next);
        JoinedNewWord(c, Words(next));
        MaybeDashAfter(c, Collapse(next), Joined(Words(next)));
      }
    }
  }

  lemma TrimmedDashes(text: string, before: string, after: string)
    requires text != [] && text[0] != '-' && text[|text| - 1] != '-'
    requires before in ["", "-"] && after in ["", "-"]
    ensures Trim(before + text + after, IS_DASH) == text
  {
    var s := before + text + after;
    assert before == "-" ==> s[1..] == text + after;
    assert before == "" ==> s == text + after;
    assert (text + after)[0] == text[0];
    assert TrimLeft(s, IS_DASH) == text + after;
    assert after == "-" ==> (text + after)[..|text + after| - 1] == text;
    assert after == "" ==> text + after == text;
    assert TrimRight(text, IS_DASH) == text;
    assert after == "-" ==> (text + after)[|text + after| - 1] == '-';
  }

  lemma MatchHasNoDashAtEnds(s: string)
    requires MatchesPattern(s)
    ensures s != [] && NoDashAtEnds(s)
  {
    AcceptsExactly(s, false);
  }

  lemma CollapsedAndTrimmed(s: string)
    ensures Trim(Collapse(s), IS_DASH) == if Words(s) == [] then "" else Joined(Words(s))
  {
    var rest := SkipRun(s);
    WordsAfterSkip(s);
    SkipRunStops(s);
    if rest == [] {
      CollapsedIsClean(s);
      TrimmedIsClean(Collapse(s));
    } else {
      hide Trim, Joined, Accepts, MatchesPattern;
      CollapseJoinsWords(rest);
      var text := Joined(Words(s));
      WordsAreRuns(s);
      JoinedIsAccepted(Words(s));
      MatchHasNoDashAtEnds(text);
      var before, after := if SlugChar(s[0]) then "" else "-", if Collapse(rest) == text then "" else "-";
      assert Collapse(s) == before + Collapse(rest) by {
        assert !SlugChar(s[0]) ==> SkipRun(s[1..]) == rest;
      }
      assert Collapse(s) == before + text + after;
      TrimmedDashes(text, before, after);
    }
  }

  function Cut(text: string): string {
    if |text| <= MAX_SLUG then text
    else if text[MAX_SLUG - 1] == '-' then text[..MAX_SLUG - 1]
    else text[..MAX_SLUG]
  }

  lemma CutTrims(text: string)
    requires Clean(text) && NoDashAtEnds(text) && |text| > MAX_SLUG
    ensures Trim(text[..MAX_SLUG], IS_DASH) == Cut(text)
  {
    var cut := Cut(text);
    var after := if |cut| == MAX_SLUG then "" else "-";
    assert cut[0] == text[0] && cut[|cut| - 1] == text[|cut| - 1] != '-';
    assert text[..MAX_SLUG] == "" + cut + after;
    hide Trim;
    TrimmedDashes(cut, "", after);
  }

  /** A slug is the words of the trimmed, lower-cased name joined by hyphens, cut after
      60 characters, or after 59 where the sixtieth is a hyphen. */
  lemma SlugJoinsTheWords(u: Unicode, name: string)
    ensures
      var words := Words(Lower(u, Trim(name, u.isSpace)));
      Slugify(u, name) == Cut(if words == [] then "" else Joined(words))
  {
    var lower := Lower(u, Trim(name, u.isSpace));
    CollapsedAndTrimmed(lower);
    CollapsedIsClean(lower);
    TrimmedIsClean(Collapse(lower));
    hide Collapse, Words, Joined, Lower, Trim, Clean, NoDashAtEnds;
    var text := Trim(Collapse(lower), IS_DASH);
    if |text| > MAX_SLUG {
      CutTrims(text);
    }
  }

  // ---- The check in project creation ------------------------------------------------------

  datatype SlugCheck = Accepted(slug: string) | NotDerivable | Malformed

  /** The slug a new project gets, from the one asked for or else from the name. */
  function ProjectSlug(u: Unicode, asked: string, name: string): SlugCheck {
    var slug := if asked == "" then Slugify(u, name) else Slugify(u, asked);
    if slug == "" then NotDerivable
    else if !MatchesPattern(slug) then Malformed
    else Accepted(slug)
  }

  /** The pattern check never fails; creation is refused exactly when there is nothing to
      make a slug from; and asking again for the slug given yields the same slug. */
  lemma PatternCheckNeverFails(u: Unicode, asked: string, name: string)
    requires u.Valid()
    ensures
      var given := if asked == "" then name else asked;
      var result := ProjectSlug(u, asked, name);
      && !result.Malformed?
      && (result.NotDerivable? <==> NoSlugChars(Lower(u, Trim(given, u.isSpace))))
      && (result.Accepted? ==> ProjectSlug(u, result.slug, name) == result)
  {
    SlugifyMatches(u, if asked == "" then name else asked);
    SlugifyIsIdempotent(u, if asked == "" then name else asked);
  }
}
