/** Episode names as a printer and a parser: Layout writes the library path of an episode, Parse
    reads release and file names, and on plain titles Parse undoes Layout
    (internal/strm/parse.go). */
module EpisodeNames {
  import opened Wrappers
  import opened Text
  import opened Paths
  import opened Words

  /** The TV half of Parsed. */
  datatype Episode = Episode(show: string, year: nat, season: nat, episode: nat, specials: bool)

  /** Unmarked stands for every branch of Parse after the two episode markers. */
  datatype ParseResult = Empty | Marked(e: Episode) | Unmarked

  function First<T>(a: Option<T>, b: Option<T>): Option<T> {
    if a.Some? then a else b
  }

  // ----- character classes of the patterns -----

  predicate RegexSpace(c: char) {
    c == ' ' || c == '\t' || c == '\n' || c == '\r' || c as int == 0x0C
  }

  predicate Joiner(c: char) {
    c == '.' || c == '_' || c == '-' || c == ' '
  }

  predicate Before(c: char) {
    c == '.' || c == '_' || c == '-' || c == '[' || c == '(' || RegexSpace(c)
  }

  predicate Behind(c: char) {
    c == '.' || c == '_' || c == '-' || c == ']' || c == ')' || RegexSpace(c)
  }

  /** The letter s in either case, the long s included. */
  predicate LetterS(c: char) {
    c == 's' || c == 'S' || c as int == 0x17F
  }

  predicate LetterE(c: char) {
    c == 'e' || c == 'E'
  }

  predicate LetterX(c: char) {
    c == 'x' || c == 'X'
  }

  predicate DigitsAt(s: string, k: nat, n: nat) {
    k + n <= |s| && forall i :: k <= i < k + n ==> IsDigit(s[i])
  }

  /** The end of a token at k: the end of the text, or one closing separator; the value is where
      the match ends. */
  function TokenEnd(s: string, k: nat): (e: Option<nat>)
    ensures e.Some? ==> k <= e.value <= |s|
  {
    if k == |s| then Some(k)
    else if k < |s| && Behind(s[k]) then Some(k + 1)
    else None
  }

  // ----- the two episode patterns, with the alternatives in the order a regexp tries them -----

  /** A match from start to end, with the season digits, the letter and the episode digits. */
  datatype Match = Match(start: nat, end: nat, season: string, letter: char, episode: string)

  /** multi chooses multiEpRe (S01E02E03) over sxeRe (S01E02, 1x02). */
  function MatchAt(s: string, i: nat, multi: bool): Option<Match> {
    First(if i == 0 then AfterPrefix(s, i, i, multi) else None,
          if i < |s| && Before(s[i]) then AfterPrefix(s, i, i + 1, multi) else None)
  }

  function AfterPrefix(s: string, i: nat, j: nat, multi: bool): Option<Match> {
    First(if j < |s| && LetterS(s[j]) then AtSeason(s, i, j + 1, multi) else None,
          AtSeason(s, i, j, multi))
  }

  function AtSeason(s: string, i: nat, j: nat, multi: bool): Option<Match> {
    First(if DigitsAt(s, j, 2) then AfterSeason(s, i, j, j + 2, multi) else None,
          if DigitsAt(s, j, 1) then AfterSeason(s, i, j, j + 1, multi) else None)
  }

  function AfterSeason(s: string, i: nat, j: nat, k: nat, multi: bool): Option<Match>
    requires j <= k <= |s|
  {
    First(if k < |s| && Joiner(s[k]) then AtLetter(s, i, j, k, k + 1, multi) else None,
          AtLetter(s, i, j, k, k, multi))
  }

  function AtLetter(s: string, i: nat, j: nat, k: nat, l: nat, multi: bool): Option<Match>
    requires j <= k <= l <= |s|
  {
    if l < |s| && (LetterE(s[l]) || (!multi && LetterX(s[l]))) then AtEpisode(s, i, j, k, l, 3, multi) else None
  }

  /** Tries n episode digits, then fewer. */
  function AtEpisode(s: string, i: nat, j: nat, k: nat, l: nat, n: nat, multi: bool): Option<Match>
    requires j <= k <= l < |s|
    decreases n
  {
    if n == 0 then None
    else
      var end :=
        if !DigitsAt(s, l + 1, n) then None
        else if multi then MoreEpisodes(s, l + 1 + n)
        else TokenEnd(s, l + 1 + n);
      if end.Some? then Some(Match(i, end.value, s[j..k], s[l], s[l + 1..l + 1 + n]))
      else AtEpisode(s, i, j, k, l, n - 1, multi)
  }

  /** One or more further E03 parts, as many as possible, then the end of the token. */
  function MoreEpisodes(s: string, k: nat): Option<nat>
    decreases |s| - k, 5
  {
    First(if k < |s| && Joiner(s[k]) then OneMore(s, k + 1, 3) else None, OneMore(s, k, 3))
  }

  function OneMore(s: string, k: nat, n: nat): Option<nat>
    requires n <= 3
    decreases |s| - k, n
  {
    if n == 0 || k >= |s| || !LetterE(s[k]) then None
    else
      First(if DigitsAt(s, k + 1, n) then First(MoreEpisodes(s, k + 1 + n), TokenEnd(s, k + 1 + n)) else None,
            OneMore(s, k, n - 1))
  }

  /** The leftmost match from i on. */
  function Find(s: string, i: nat, multi: bool): Option<Match>
    requires i <= |s|
    decreases |s| - i
  {
    if i == |s| then MatchAt(s, i, multi) else First(MatchAt(s, i, multi), Find(s, i + 1, multi))
  }

  // ----- years -----

  predicate PlausibleYear(s: string, j: nat) {
    DigitsAt(s, j, 4) &&
    ((s[j] == '1' && s[j + 1] == '9' && '3' <= s[j + 2]) || (s[j] == '2' && s[j + 1] == '0' && s[j + 2] <= '3'))
  }

  /** Start of the leftmost yearRe match and the index of its digits. */
  function FindYear(s: string, i: nat): Option<(nat, nat)>
    requires i <= |s|
    decreases |s| - i
  {
    if i == 0 && PlausibleYear(s, 0) && TokenEnd(s, 4).Some? then Some((0, 0))
    else if i < |s| && Before(s[i]) && PlausibleYear(s, i + 1) && TokenEnd(s, i + 5).Some? then Some((i, i + 1))
    else if i == |s| then None
    else FindYear(s, i + 1)
  }

  function YearIn(s: string): nat {
    var m := FindYear(s, 0);
    if m.Some? && m.value.1 + 4 <= |s| then Value(s[m.value.1..m.value.1 + 4]) else 0
  }

  function StripYear(s: string): string {
    var m := FindYear(s, 0);
    if m.Some? && m.value.0 <= |s| then Trim(TrimSuffix(s[..m.value.0], " ._-"), IsSpace) else s
  }

  // ----- titles -----

  predicate OccursAt(s: string, sub: string, i: nat) {
    i + |sub| <= |s| && s[i..i + |sub|] == sub
  }

  /** strings.Index, from i on. */
  function IndexFrom(s: string, sub: string, i: nat): Option<nat>
    requires i <= |s|
    decreases |s| - i
  {
    if OccursAt(s, sub, i) then Some(i)
    else if i == |s| then None
    else IndexFrom(s, sub, i + 1)
  }

  predicate TitleEdge(c: char) {
    c == '.' || c == '_' || c == '-' || c == '[' || c == ']' || c == '(' || c == ')' || c == ' '
  }

  predicate TokenGap(c: char) {
    c == '.' || c == '_' || c == ' '
  }

  function WithoutTags(words: seq<string>, isTag: string -> bool): seq<string> {
    if words == [] then []
    else (if isTag(words[0]) then [] else [words[0]]) + WithoutTags(words[1..], isTag)
  }

  function Blanked(s: string): (r: string)
    ensures |r| == |s|
    ensures forall i :: 0 <= i < |s| ==> r[i] == if s[i] == '_' || s[i] == '.' then ' ' else s[i]
  {
    if s == "" then "" else [if s[0] == '_' || s[0] == '.' then ' ' else s[0]] + Blanked(s[1..])
  }

  /** cleanTitle; isTag is the release-tag test on one token. */
  function CleanTitle(name: string, marker: string, isTag: string -> bool): string {
    var at: Option<nat> := if marker == "" then None else IndexFrom(name, marker, 0);
    var t := if at.Some? && at.value <= |name| then name[..at.value] else name;
    var words := WithoutTags(Split(Trim(t, TitleEdge), TokenGap), isTag);
    Trim(Blanked(JoinWords(words)), IsSpace)
  }

  predicate Forbidden(c: char) {
    c == '/' || c == '\\' || c == ':' || c == '*' || c == '?'
        || c == '"' || c == '<' || c == '>' || c == '|' || c == '#'
    || c as int == 0
  }

  function Cleared(s: string): (r: string)
    ensures |r| == |s|
    ensures forall i :: 0 <= i < |s| ==> r[i] == if Forbidden(s[i]) then ' ' else s[i]
  {
    if s == "" then "" else [if Forbidden(s[0]) then ' ' else s[0]] + Cleared(s[1..])
  }

  function Sanitize(s: string): string {
    JoinWords(Split(Cleared(Trim(s, IsSpace)), IsSpace))
  }

  // ----- Parse -----

  /** Index of the first bracket from i on, or the length. */
  function NextBracket(s: string, i: nat): (n: nat)
    requires i <= |s|
    ensures i <= n <= |s|
    decreases |s| - i
  {
    if i == |s| || s[i] == '[' || s[i] == ']' then i else NextBracket(s, i + 1)
  }

  /** leadingTagRe: drops a leading "[group]" of 1 to 40 characters and the space after it. */
  function WithoutLeadingTag(s: string): string {
    if s == "" || s[0] != '[' then s
    else
      var n := NextBracket(s, 1);
      if n < |s| && s[n] == ']' && 2 <= n <= 41 then TrimLeft(s[n + 1..], RegexSpace) else s
  }

  predicate IndexGap(c: char) {
    c == '.' || c == '-' || RegexSpace(c)
  }

  /** leadingIndexRe: drops a zero-padded index and the separators after it. */
  function WithoutLeadingIndex(s: string): string {
    if s == "" || s[0] != '0' then s
    else if DigitsAt(s, 1, 2) && 3 < |s| && IndexGap(s[3]) then TrimLeft(s[3..], IndexGap)
    else if DigitsAt(s, 1, 1) && 2 < |s| && IndexGap(s[2]) then TrimLeft(s[2..], IndexGap)
    else s
  }

  /** filepath.Base of a path that does not end in a slash. */
  function Base(path: string): string {
    if path == "" || path[|path| - 1] == '/' then "" else Base(path[..|path| - 1]) + [path[|path| - 1]]
  }

  /** atoi: leading zeros are dropped, and no digits are 0. */
  function Atoi(s: string): nat {
    Value(s)
  }

  /** isCodecFragment: "1x264" and "1x265" name codecs. */
  predicate CodecFragment(m: Match) {
    LetterX(m.letter) && (m.episode == "264" || m.episode == "265")
  }

  function Marker(s: string, m: Match): string {
    if m.start <= m.end <= |s| then s[m.start..m.end] else ""
  }

  /** The text Parse matches against: the base name without its extension, a leading group tag
      and a leading index. */
  function Stripped(name: string): string {
    WithoutLeadingIndex(WithoutLeadingTag(Trim(TrimSuffix(Base(name), Ext(name)), IsSpace)))
  }

  function ParseText(s: string, isTag: string -> bool): ParseResult {
    if s == "" then Empty
    else
      var multi, single := Find(s, 0, true), Find(s, 0, false);
      if multi.Some? then
        var m := multi.value;
        Marked(Episode(CleanTitle(s, Marker(s, m), isTag), 0, Atoi(m.season), Atoi(m.episode), Atoi(m.season) == 0))
      else if single.Some? && !CodecFragment(single.value) then
        var m := single.value;
        var show := CleanTitle(s, Marker(s, m), isTag);
        Marked(Episode(StripYear(show), YearIn(show), Atoi(m.season), Atoi(m.episode), Atoi(m.season) == 0))
      else Unmarked
  }

  function Parse(name: string, isTag: string -> bool): ParseResult {
    ParseText(Stripped(name), isTag)
  }

  // ----- Layout -----

  function Pad2(n: nat): string {
    if n < 10 then "0" + Itoa(n) else Itoa(n)
  }

  function EpCode(season: nat, episode: nat): string {
    "S" + Pad2(season) + "E" + Pad2(episode)
  }

  /** The season a file is laid out under: an unknown one counts as the first. */
  function LayoutSeason(e: Episode): nat {
    if e.season == 0 && !e.specials then 1 else e.season
  }

  function LayoutName(e: Episode, fileName: string): string {
    if e.episode > 0 then Sanitize(e.show) + " " + EpCode(LayoutSeason(e), e.episode)
    else Sanitize(Blanked(TrimSuffix(fileName, Ext(fileName))))
  }

  /** Layout for TV, with the ".strm" extension. */
  function Layout(e: Episode, fileName: string, tvDir: string): string {
    var show := if Sanitize(e.show) == "" then "Unknown Show" else Sanitize(e.show);
    Join(Join(Join(tvDir, show), "Season " + Pad2(LayoutSeason(e))), LayoutName(e, fileName) + STRM)
  }

  // ----- searching a coded name -----

  /** s is a text without digits, a dot, an underscore or a space, and SxxEyy from n + 1 on. */
  ghost predicate CodeAt(s: string, n: nat) {
    && 0 < n && |s| >= n + 7
    && (forall k :: 0 <= k < n ==> !IsDigit(s[k]))
    && TokenGap(s[n]) && s[n + 1] == 'S' && IsDigit(s[n + 2]) && IsDigit(s[n + 3])
    && s[n + 4] == 'E' && IsDigit(s[n + 5]) && IsDigit(s[n + 6])
  }

  /** With nothing behind it but perhaps a third episode digit. */
  ghost predicate Coded(s: string, n: nat) {
    && CodeAt(s, n) && (|s| == n + 7 || |s| == n + 8)
    && (forall k :: n + 5 <= k < |s| ==> IsDigit(s[k]))
  }

  /** With a second episode behind it. */
  ghost predicate CodedTwice(s: string, n: nat) {
    CodeAt(s, n) && |s| == n + 10 && s[n + 7] == 'E' && IsDigit(s[n + 8]) && IsDigit(s[n + 9])
  }

  /** Every match has a digit at its first, second or third character. */
  lemma MatchNeedsDigit(s: string, i: nat, multi: bool)
    requires forall k :: i <= k < i + 3 && k < |s| ==> !IsDigit(s[k])
    ensures MatchAt(s, i, multi) == None
  {
    NoSeason(s, i, i, multi);
    NoSeason(s, i, i + 1, multi);
    NoSeason(s, i, i + 2, multi);
  }

  lemma NoSeason(s: string, i: nat, j: nat, multi: bool)
    requires j < |s| ==> !IsDigit(s[j])
    ensures AtSeason(s, i, j, multi) == None
  {
  }

  lemma {:induction false} FindFrom(s: string, i: nat, m: nat, multi: bool)
    requires i <= m <= |s| && forall k :: i <= k < m ==> MatchAt(s, k, multi) == None
    ensures Find(s, i, multi) == Find(s, m, multi)
    decreases m - i
  {
    if i == m {
    } else {
      FindFrom(s, i + 1, m, multi);
    }
  }

  /** Nothing after the space starts a match: no separator is left. */
  lemma NoLaterMatch(s: string, n: nat, i: nat, multi: bool)
    requires Coded(s, n) && n < i <= |s|
    ensures MatchAt(s, i, multi) == None
  {
    if i < |s| {
      assert s[i] == 'S' || s[i] == 'E' || IsDigit(s[i]);
    }
  }

  lemma NothingBeforeCode(s: string, n: nat, multi: bool)
    requires CodeAt(s, n)
    ensures Find(s, 0, multi) == First(MatchAt(s, n, multi), Find(s, n + 1, multi))
  {
    forall k | 0 <= k < n
      ensures MatchAt(s, k, multi) == None
    {
      MatchNeedsDigit(s, k, multi);
    }
    FindFrom(s, 0, n, multi);
  }

  lemma SearchStartsAtCode(s: string, n: nat, multi: bool)
    requires Coded(s, n)
    ensures Find(s, 0, multi) == First(MatchAt(s, n, multi), Find(s, n + 1, multi))
    ensures Find(s, n + 1, multi) == None
  {
    NothingBeforeCode(s, n, multi);
    forall k | n < k <= |s|
      ensures MatchAt(s, k, multi) == None
    {
      NoLaterMatch(s, n, k, multi);
    }
    FindFrom(s, n + 1, |s|, multi);
  }

  /** The season part of the code is read as both digits, then the letter. */
  lemma CodeSeason(s: string, n: nat, multi: bool)
    requires CodeAt(s, n)
    ensures MatchAt(s, n, multi) == AtEpisode(s, n, n + 2, n + 4, n + 4, 3, multi)
  {
    NoSeason(s, n, n + 1, multi);
    assert AfterSeason(s, n, n + 2, n + 3, multi) == None;
    assert AfterSeason(s, n, n + 2, n + 4, multi) == AtLetter(s, n, n + 2, n + 4, n + 4, multi);
    assert AtSeason(s, n, n + 2, multi) == AtLetter(s, n, n + 2, n + 4, n + 4, multi);
  }

  lemma NoMoreEpisodes(s: string, n: nat, k: nat)
    requires Coded(s, n) && n + 5 <= k
    ensures MoreEpisodes(s, k) == None
  {
  }

  /** A single code is no multi-episode marker. */
  lemma NotMulti(s: string, n: nat)
    requires Coded(s, n)
    ensures Find(s, 0, true) == None
  {
    SearchStartsAtCode(s, n, true);
    CodeSeason(s, n, true);
    NoMoreEpisodes(s, n, n + 8);
    NoMoreEpisodes(s, n, n + 7);
    NoMoreEpisodes(s, n, n + 6);
    assert AtEpisode(s, n, n + 2, n + 4, n + 4, 0, true) == None;
    assert AtEpisode(s, n, n + 2, n + 4, n + 4, 1, true) == None;
    assert AtEpisode(s, n, n + 2, n + 4, n + 4, 2, true) == None;
  }

  lemma IsSingle(s: string, n: nat)
    requires Coded(s, n)
    ensures Find(s, 0, false) == Some(Match(n, |s|, s[n + 2..n + 4], 'E', s[n + 5..]))
  {
    SearchStartsAtCode(s, n, false);
    CodeSeason(s, n, false);
    if |s| == n + 7 {
      assert AtEpisode(s, n, n + 2, n + 4, n + 4, 3, false) == AtEpisode(s, n, n + 2, n + 4, n + 4, 2, false);
      assert s[n + 5..n + 7] == s[n + 5..];
    } else {
      assert s[n + 5..n + 8] == s[n + 5..];
    }
  }

  // ----- plain titles -----

  predicate PlainChar(c: char) {
    !IsDigit(c) && !Forbidden(c) && (c == ' ' || !TitleEdge(c))
  }

  /** A title of words with single spaces between them, without digits, path or separator
      characters, none of its words a release tag. */
  ghost predicate PlainTitle(title: string, isTag: string -> bool) {
    && SingleSpaced(title, IsSpace)
    && (forall i :: 0 <= i < |title| ==> PlainChar(title[i]))
    && (forall w :: w in Split(title, TokenGap) ==> !isTag(w))
  }

  lemma SanitizeKeeps(title: string, isTag: string -> bool)
    requires PlainTitle(title, isTag)
    ensures Sanitize(title) == title
  {
    NothingToTrim(title, IsSpace);
    assert forall i :: 0 <= i < |title| ==> PlainChar(title[i]);
    assert Cleared(title) == title;
    SplitThenJoin(title, IsSpace);
  }

  lemma {:induction false} NoTagsDropped(words: seq<string>, isTag: string -> bool)
    requires forall w :: w in words ==> !isTag(w)
    ensures WithoutTags(words, isTag) == words
  {
    if words == [] {
    } else {
      NoTagsDropped(words[1..], isTag);
      assert words == [words[0]] + words[1..];
    }
  }

  lemma {:induction false} IndexIsFirst(s: string, sub: string, i: nat, n: nat)
    requires i <= n && OccursAt(s, sub, n)
    requires forall k :: i <= k < n ==> !OccursAt(s, sub, k)
    ensures IndexFrom(s, sub, i) == Some(n)
    decreases n - i
  {
    if i == n {
    } else {
      IndexIsFirst(s, sub, i + 1, n);
    }
  }

  /** The title as release names write it, with another character for every space. */
  function Spaced(title: string, gap: char): (t: string)
    ensures |t| == |title|
    ensures forall i :: 0 <= i < |t| ==> t[i] == if title[i] == ' ' then gap else title[i]
  {
    if title == "" then "" else [if title[0] == ' ' then gap else title[0]] + Spaced(title[1..], gap)
  }

  lemma {:induction false} SpacedSplitsAlike(title: string, gap: char)
    requires TokenGap(gap) && forall i :: 0 <= i < |title| && TokenGap(title[i]) ==> title[i] == ' '
    ensures Split(Spaced(title, gap), TokenGap) == Split(title, TokenGap)
    decreases |title|
  {
    var t := Spaced(title, gap);
    if title == "" {
    } else if title[0] == ' ' {
      assert t[1..] == Spaced(title[1..], gap);
      SpacedSplitsAlike(title[1..], gap);
    } else {
      var n := RunLength(title, TokenGap);
      SpacedRunsAlike(title, gap);
      assert t[..n] == title[..n] && t[n..] == Spaced(title[n..], gap);
      SpacedSplitsAlike(title[n..], gap);
    }
  }

  lemma {:induction false} SpacedRunsAlike(title: string, gap: char)
    requires TokenGap(gap) && forall i :: 0 <= i < |title| && TokenGap(title[i]) ==> title[i] == ' '
    ensures RunLength(Spaced(title, gap), TokenGap) == RunLength(title, TokenGap)
  {
    if title != "" && title[0] != ' ' {
      assert Spaced(title, gap)[1..] == Spaced(title[1..], gap);
      SpacedRunsAlike(title[1..], gap);
    }
  }

  /** cleanTitle gives back the plain title in front of the code. */
  lemma CleanTitleKeeps(s: string, title: string, gap: char, isTag: string -> bool)
    requires PlainTitle(title, isTag) && TokenGap(gap) && |title| < |s| && s[..|title|] == Spaced(title, gap)
    requires forall k :: 0 <= k < |title| ==> !OccursAt(s, s[|title|..], k)
    ensures CleanTitle(s, s[|title|..], isTag) == title
  {
    var n, marker := |title|, s[|title|..];
    assert marker != "" && OccursAt(s, marker, n);
    hide PlainTitle, Spaced, OccursAt, Split, JoinWords, WithoutTags, Blanked, Trim;
    IndexIsFirst(s, marker, 0, n);
    TitleIsTrim(title, gap, isTag);
    TitleWords(title, gap, isTag);
  }

  lemma TitleIsTrim(title: string, gap: char, isTag: string -> bool)
    requires PlainTitle(title, isTag)
    ensures Trim(Spaced(title, gap), TitleEdge) == Spaced(title, gap)
    ensures Trim(Blanked(title), IsSpace) == title
  {
    assert PlainChar(title[0]) && PlainChar(title[|title| - 1]);
    NothingToTrim(Spaced(title, gap), TitleEdge);
    assert forall i :: 0 <= i < |title| ==> PlainChar(title[i]);
    assert Blanked(title) == title;
    NothingToTrim(title, IsSpace);
  }

  lemma TitleWords(title: string, gap: char, isTag: string -> bool)
    requires PlainTitle(title, isTag) && TokenGap(gap)
    ensures JoinWords(WithoutTags(Split(Spaced(title, gap), TokenGap), isTag)) == title
  {
    assert forall i :: 0 <= i < |title| ==> PlainChar(title[i]);
    assert SingleSpaced(title, TokenGap);
    hide Split, JoinWords, WithoutTags, SingleSpaced;
    SpacedSplitsAlike(title, gap);
    SplitThenJoin(title, TokenGap);
    NoTagsDropped(Split(title, TokenGap), isTag);
  }

  /** The code and what follows it do not occur any earlier. */
  lemma MarkerIsNew(s: string, n: nat)
    requires CodeAt(s, n)
    ensures forall k :: 0 <= k < n ==> !OccursAt(s, s[n..], k)
  {
    var marker := s[n..];
    forall k | 0 <= k < n
      ensures !OccursAt(s, marker, k)
    {
      assert marker[2] == s[n + 2] && IsDigit(marker[2]);
      assert s[k..k + |marker|][2] == s[k + 2];
      assert k + 2 >= n ==> s[k + 2] == s[n] || s[k + 2] == s[n + 1];
    }
  }

  lemma {:induction false} NoYear(s: string, i: nat)
    requires i <= |s| && forall k :: 0 <= k < |s| ==> !IsDigit(s[k])
    ensures FindYear(s, i) == None
    decreases |s| - i
  {
    if i < |s| {
      NoYear(s, i + 1);
    }
  }

  // ----- the round trip -----

  lemma Pad2Shape(n: nat)
    requires n <= 999
    ensures var d := Pad2(n); AllDigits(d) && Value(d) == n && |d| == if n <= 99 then 2 else 3
  {
    if n < 10 {
      assert Pad2(n) == "0" + Itoa(n) && |Itoa(n)| == 1;
      assert Pad2(n)[..1] == "0";
      assert Value("0") == 0 by { assert "0"[..0] == ""; }
      assert Value(Itoa(n)) == n;
    } else if n < 100 {
      assert |Itoa(n / 10)| == 1;
    } else {
      assert |Itoa(n / 100)| == 1 && (n / 10) / 10 == n / 100;
      assert |Itoa(n / 10)| == 2;
    }
  }

  lemma CodeIsCoded(title: string, gap: char, a: string, b: string)
    requires title != "" && TokenGap(gap) && forall i :: 0 <= i < |title| ==> !IsDigit(title[i])
    requires AllDigits(a) && AllDigits(b) && |a| == 2 && 2 <= |b| <= 3
    ensures var s, n := title + [gap] + ("S" + a + "E" + b), |title|;
            Coded(s, n) && s[..n] == title && s[n + 2..n + 4] == a && s[n + 5..] == b
  {
    var s, n := title + [gap] + ("S" + a + "E" + b), |title|;
    assert s == title + [gap, 'S'] + a + ['E'] + b;
    assert forall k :: 0 <= k < n ==> s[k] == title[k];
    assert s[n + 2] == a[0] && s[n + 3] == a[1];
    assert forall k :: n + 5 <= k < |s| ==> s[k] == b[k - n - 5];
  }

  lemma {:induction false} BaseOfJoin(dir: string, name: string)
    requires forall i :: 0 <= i < |name| ==> name[i] != '/'
    ensures Base(Join(dir, name)) == name
  {
    var path := Join(dir, name);
    if name == "" {
    } else {
      var front := name[..|name| - 1];
      assert path[..|path| - 1] == Join(dir, front);
      BaseOfJoin(dir, front);
    }
  }

  lemma CodedIsName(s: string, title: string, isTag: string -> bool)
    requires PlainTitle(title, isTag) && Coded(s, |title|) && s[..|title|] == title
    ensures forall i :: 0 <= i < |s| ==> s[i] != '/'
    ensures s != "" && PlainChar(s[0]) && !IsSpace(s[0]) && !IsSpace(s[|s| - 1])
  {
    forall i | 0 <= i < |s|
      ensures s[i] != '/'
    {
      if i < |title| {
        assert s[i] == title[i] && PlainChar(title[i]);
      }
    }
    assert s[0] == title[0] && PlainChar(title[0]) && IsDigit(s[|s| - 1]);
  }

  /** What Parse looks at, for the path of a name without slashes and outer spaces. */
  lemma ParsedText(dir: string, s: string)
    requires s != "" && (forall i :: 0 <= i < |s| ==> s[i] != '/')
    requires PlainChar(s[0]) && !IsSpace(s[0]) && !IsSpace(s[|s| - 1])
    ensures Stripped(Join(dir, s + STRM)) == s
  {
    hide Ext, Trim;
    BaseOfJoin(dir, s + STRM);
    assert Join(dir, s + STRM) == Join(dir, s) + STRM;
    ExtOfStem(Join(dir, s), STRM);
    assert TrimSuffix(s + STRM, STRM) == s;
    NothingToTrim(s, IsSpace);
  }

  lemma ParseCode(s: string, title: string, gap: char, isTag: string -> bool)
    requires PlainTitle(title, isTag) && Coded(s, |title|) && TokenGap(gap) && s[..|title|] == Spaced(title, gap)
    ensures var n := |title|;
            ParseText(s, isTag) ==
            Marked(Episode(title, 0, Value(s[n + 2..n + 4]), Value(s[n + 5..]), Value(s[n + 2..n + 4]) == 0))
  {
    var n := |title|;
    var m := Match(n, |s|, s[n + 2..n + 4], 'E', s[n + 5..]);
    PlainHasNoYear(title, isTag);
    assert CodeAt(s, n) && s != "" && !CodecFragment(m);
    MarkerIsNew(s, n);
    MarkerToEnd(s, m);
    NotMulti(s, n);
    IsSingle(s, n);
    hide *;
    CleanTitleKeeps(s, title, gap, isTag);
    ParseSingle(s, m, title, isTag);
  }

  lemma PlainHasNoYear(title: string, isTag: string -> bool)
    requires PlainTitle(title, isTag)
    ensures FindYear(title, 0) == None
  {
    assert forall k :: 0 <= k < |title| ==> PlainChar(title[k]);
    NoYear(title, 0);
  }

  lemma MarkerToEnd(s: string, m: Match)
    requires m.start <= m.end == |s|
    ensures Marker(s, m) == s[m.start..]
  {
    assert s[m.start..|s|] == s[m.start..];
  }

  lemma ParseSingle(s: string, m: Match, show: string, isTag: string -> bool)
    requires s != "" && Find(s, 0, true) == None && Find(s, 0, false) == Some(m) && !CodecFragment(m)
    requires CleanTitle(s, Marker(s, m), isTag) == show && FindYear(show, 0) == None
    ensures ParseText(s, isTag) == Marked(Episode(show, 0, Value(m.season), Value(m.episode), Value(m.season) == 0))
  {
  }

  /** Parsing the path that Layout wrote for an episode gives the episode back, and laying that
      out again gives the same path. */
  lemma ParseUndoesLayout(e: Episode, fileName: string, tvDir: string, isTag: string -> bool)
    requires PlainTitle(e.show, isTag)
    requires e.season <= 99 && (e.specials <==> e.season == 0) && 1 <= e.episode <= 999
    ensures Parse(Layout(e, fileName, tvDir), isTag) == Marked(e.(year := 0))
    ensures Layout(Parse(Layout(e, fileName, tvDir), isTag).e, fileName, tvDir) == Layout(e, fileName, tvDir)
  {
    var s := e.show + " " + EpCode(e.season, e.episode);
    LaidOut(e, fileName, tvDir, isTag);
    LaidOutCode(e, isTag);
    hide *;
    CodedIsName(s, e.show, isTag);
    ParsedText(Join(Join(tvDir, e.show), "Season " + Pad2(e.season)), s);
    ParseOfText(Layout(e, fileName, tvDir), s, isTag);
    LayoutIgnoresYear(e, fileName, tvDir);
  }

  lemma ParseOfText(path: string, s: string, isTag: string -> bool)
    requires Stripped(path) == s
    ensures Parse(path, isTag) == ParseText(s, isTag)
  {
  }

  lemma LayoutIgnoresYear(e: Episode, fileName: string, tvDir: string)
    ensures Layout(e.(year := 0), fileName, tvDir) == Layout(e, fileName, tvDir)
    ensures Marked(e.(year := 0)).e == e.(year := 0)
  {
  }

  lemma LaidOut(e: Episode, fileName: string, tvDir: string, isTag: string -> bool)
    requires PlainTitle(e.show, isTag) && (e.specials <==> e.season == 0) && 1 <= e.episode
    ensures Layout(e, fileName, tvDir) ==
            Join(Join(Join(tvDir, e.show), "Season " + Pad2(e.season)),
                 e.show + " " + EpCode(e.season, e.episode) + STRM)
  {
    SanitizeKeeps(e.show, isTag);
  }

  lemma LaidOutCode(e: Episode, isTag: string -> bool)
    requires PlainTitle(e.show, isTag)
    requires e.season <= 99 && (e.specials <==> e.season == 0) && 1 <= e.episode <= 999
    ensures var s := e.show + " " + EpCode(e.season, e.episode);
            && Coded(s, |e.show|) && s[..|e.show|] == e.show
            && ParseText(s, isTag) == Marked(e.(year := 0))
  {
    var title, s := e.show, e.show + " " + EpCode(e.season, e.episode);
    assert forall i :: 0 <= i < |title| ==> PlainChar(title[i]);
    Pad2Shape(e.season);
    Pad2Shape(e.episode);
    assert Spaced(title, ' ') == title && [' '] == " ";
    hide Spaced, PlainTitle, PlainChar, ParseText, Pad2, Value;
    CodeIsCoded(title, ' ', Pad2(e.season), Pad2(e.episode));
    ParseCode(s, title, ' ', isTag);
  }

  /** The two forms of season 0: an explicit special stays in season 0, an unknown season is laid
      out as season 1 and read back so. */
  lemma UnknownSeasonReadsAsFirst(e: Episode, fileName: string, tvDir: string, isTag: string -> bool)
    requires PlainTitle(e.show, isTag) && e.season == 0 && !e.specials && 1 <= e.episode <= 999
    ensures Parse(Layout(e, fileName, tvDir), isTag) == Marked(e.(year := 0, season := 1))
  {
    var first := e.(season := 1);
    assert Layout(e, fileName, tvDir) == Layout(first, fileName, tvDir);
    ParseUndoesLayout(first, fileName, tvDir, isTag);
  }

  // ----- release names -----

  lemma SpacedHasNoDigit(title: string, gap: char, isTag: string -> bool)
    requires PlainTitle(title, isTag) && TokenGap(gap)
    ensures title != "" && forall i :: 0 <= i < |title| ==> !IsDigit(Spaced(title, gap)[i])
  {
    assert forall i :: 0 <= i < |title| ==> PlainChar(title[i]);
  }

  /** A release name with dots, underscores or spaces, a title and a code parses to the title with
      spaces, season and episode. */
  lemma ReleaseParses(title: string, gap: char, a: string, b: string, isTag: string -> bool)
    requires PlainTitle(title, isTag) && TokenGap(gap)
    requires AllDigits(a) && AllDigits(b) && |a| == 2 && 2 <= |b| <= 3
    ensures ParseText(Spaced(title, gap) + [gap] + ("S" + a + "E" + b), isTag) ==
            Marked(Episode(title, 0, Value(a), Value(b), Value(a) == 0))
  {
    SpacedHasNoDigit(title, gap, isTag);
    hide *;
    assert |Spaced(title, gap)| == |title|;
    CodeIsCoded(Spaced(title, gap), gap, a, b);
    ParseCode(Spaced(title, gap) + [gap] + ("S" + a + "E" + b), title, gap, isTag);
  }

  /** A double episode is found, from its first code. */
  lemma IsMulti(s: string, n: nat)
    requires CodedTwice(s, n)
    ensures Find(s, 0, true) == Some(Match(n, |s|, s[n + 2..n + 4], 'E', s[n + 5..n + 7]))
  {
    NothingBeforeCode(s, n, true);
    CodeSeason(s, n, true);
    assert AtEpisode(s, n, n + 2, n + 4, n + 4, 3, true) == AtEpisode(s, n, n + 2, n + 4, n + 4, 2, true);
    assert MoreEpisodes(s, n + 10) == None;
    assert OneMore(s, n + 7, 3) == OneMore(s, n + 7, 2) == Some(n + 10);
    assert MoreEpisodes(s, n + 7) == Some(n + 10);
  }

  lemma ParseDouble(s: string, title: string, gap: char, isTag: string -> bool)
    requires PlainTitle(title, isTag) && CodedTwice(s, |title|) && TokenGap(gap) && s[..|title|] == Spaced(title, gap)
    ensures var n := |title|;
            ParseText(s, isTag) ==
            Marked(Episode(title, 0, Value(s[n + 2..n + 4]), Value(s[n + 5..n + 7]), Value(s[n + 2..n + 4]) == 0))
  {
    var n := |title|;
    assert CodeAt(s, n) && s != "";
    IsMulti(s, n);
    MarkerIsNew(s, n);
    MarkerToEnd(s, Find(s, 0, true).value);
    hide Find, CleanTitle, PlainTitle, CodeAt, Spaced, Value;
    CleanTitleKeeps(s, title, gap, isTag);
  }

  /** And parses to the first of the two. */
  lemma DoubleEpisodeParses(title: string, gap: char, a: string, b: string, c: string, isTag: string -> bool)
    requires PlainTitle(title, isTag) && TokenGap(gap)
    requires AllDigits(a) && AllDigits(b) && AllDigits(c) && |a| == |b| == |c| == 2
    ensures ParseText(Spaced(title, gap) + [gap] + ("S" + a + "E" + b) + ("E" + c), isTag) ==
            Marked(Episode(title, 0, Value(a), Value(b), Value(a) == 0))
  {
    var single, n := Spaced(title, gap) + [gap] + ("S" + a + "E" + b), |title|;
    var s := single + ("E" + c);
    SpacedHasNoDigit(title, gap, isTag);
    CodeIsCoded(Spaced(title, gap), gap, a, b);
    assert s[..n + 7] == single && forall i :: 0 <= i < n + 7 ==> s[i] == single[i];
    assert s[n + 7] == 'E' && s[n + 8] == c[0] && s[n + 9] == c[1];
    assert s[n + 2..n + 4] == a && s[n + 5..n + 7] == single[n + 5..] && s[..n] == single[..n];
    ParseDouble(s, title, gap, isTag);
  }

  /** s is a text without digits, a dot, an underscore or a space, and 1x02, 1x002 or the like from
      n + 1 on, the x at l. */
  ghost predicate Crossed(s: string, n: nat, l: nat) {
    && 0 < n && (l == n + 2 || l == n + 3) && (|s| == l + 3 || |s| == l + 4)
    && (forall k :: 0 <= k < n ==> !IsDigit(s[k])) && TokenGap(s[n]) && s[l] == 'x'
    && (forall k :: n < k < |s| && k != l ==> IsDigit(s[k]))
  }

  lemma NothingBeforeCross(s: string, n: nat, l: nat, multi: bool)
    requires Crossed(s, n, l)
    ensures Find(s, 0, multi) == First(MatchAt(s, n, multi), Find(s, n + 1, multi))
    ensures Find(s, n + 1, multi) == None
  {
    forall k | 0 <= k < n
      ensures MatchAt(s, k, multi) == None
    {
      NoSeason(s, k, k, multi);
      NoSeason(s, k, k + 1, multi);
      if k + 1 < n {
        NoSeason(s, k, k + 2, multi);
      }
    }
    FindFrom(s, 0, n, multi);
    forall k | n < k <= |s|
      ensures MatchAt(s, k, multi) == None
    {
      assert k < |s| ==> !Before(s[k]);
    }
    FindFrom(s, n + 1, |s|, multi);
  }

  lemma IsCross(s: string, n: nat, l: nat, multi: bool)
    requires Crossed(s, n, l)
    ensures Find(s, 0, multi) == if multi then None else Some(Match(n, |s|, s[n + 1..l], 'x', s[l + 1..]))
  {
    NothingBeforeCross(s, n, l, multi);
    assert AfterSeason(s, n, n + 1, l, multi) == AtLetter(s, n, n + 1, l, l, multi);
    if l == n + 3 {
      assert AfterSeason(s, n, n + 1, n + 2, multi) == None;
    }
    if !multi {
      CrossEpisode(s, n, l);
    }
  }

  lemma CrossEpisode(s: string, n: nat, l: nat)
    requires Crossed(s, n, l)
    ensures AtEpisode(s, n, n + 1, l, l, 3, false) == Some(Match(n, |s|, s[n + 1..l], 'x', s[l + 1..]))
  {
    if |s| == l + 3 {
      assert AtEpisode(s, n, n + 1, l, l, 3, false) == AtEpisode(s, n, n + 1, l, l, 2, false);
      assert s[l + 1..l + 3] == s[l + 1..];
    } else {
      assert s[l + 1..l + 4] == s[l + 1..];
    }
  }

  lemma CrossIsNew(s: string, n: nat, l: nat)
    requires Crossed(s, n, l)
    ensures forall k :: 0 <= k < n ==> !OccursAt(s, s[n..], k)
  {
    var marker := s[n..];
    forall k | 0 <= k < n
      ensures !OccursAt(s, marker, k)
    {
      assert IsDigit(marker[1]);
      assert s[k..k + |marker|][1] == s[k + 1];
      assert k + 1 == n ==> !IsDigit(s[n]);
    }
  }

  lemma CrossShape(title: string, gap: char, a: string, b: string)
    requires title != "" && TokenGap(gap) && forall i :: 0 <= i < |title| ==> !IsDigit(title[i])
    requires AllDigits(a) && AllDigits(b) && 1 <= |a| <= 2 && 2 <= |b| <= 3
    ensures var s, n, l := title + [gap] + (a + "x" + b), |title|, |title| + 1 + |a|;
            Crossed(s, n, l) && s[..n] == title && s[n + 1..l] == a && s[l + 1..] == b
  {
    var s, n, l := title + [gap] + (a + "x" + b), |title|, |title| + 1 + |a|;
    assert forall k :: 0 <= k < n ==> s[k] == title[k];
    assert forall k :: n < k < l ==> s[k] == a[k - n - 1];
    assert forall k :: l < k < |s| ==> s[k] == b[k - l - 1];
  }

  /** A name with 1x02 parses likewise, unless the number behind the x names a codec. */
  lemma CrossParses(title: string, gap: char, a: string, b: string, isTag: string -> bool)
    requires PlainTitle(title, isTag) && TokenGap(gap)
    requires AllDigits(a) && AllDigits(b) && 1 <= |a| <= 2 && 2 <= |b| <= 3
    ensures ParseText(Spaced(title, gap) + [gap] + (a + "x" + b), isTag) ==
            if b == "264" || b == "265" then Unmarked
            else Marked(Episode(title, 0, Value(a), Value(b), Value(a) == 0))
  {
    var s, n, l := Spaced(title, gap) + [gap] + (a + "x" + b), |title|, |title| + 1 + |a|;
    SpacedHasNoDigit(title, gap, isTag);
    CrossShape(Spaced(title, gap), gap, a, b);
    IsCross(s, n, l, true);
    IsCross(s, n, l, false);
    CrossIsNew(s, n, l);
    PlainHasNoYear(title, isTag);
    var m := Match(n, |s|, a, 'x', b);
    MarkerToEnd(s, m);
    hide Find, CleanTitle, FindYear, Spaced, PlainTitle, Crossed, OccursAt, Value, AllDigits;
    CleanTitleKeeps(s, title, gap, isTag);
    if b != "264" && b != "265" {
      ParseSingle(s, m, title, isTag);
    }
  }

  /** A leading group tag of at most 40 characters, and the space behind it, are not looked at. */
  lemma TagIsDropped(dir: string, tag: string, s: string)
    requires 1 <= |tag| <= 40 && forall i :: 0 <= i < |tag| ==> tag[i] != '/' && tag[i] != '[' && tag[i] != ']'
    requires s != "" && (forall i :: 0 <= i < |s| ==> s[i] != '/')
    requires PlainChar(s[0]) && !IsSpace(s[0]) && !IsSpace(s[|s| - 1])
    ensures Stripped(dir + "/[" + tag + "] " + s + ".strm") == s
  {
    var t := "[" + tag + "] " + s;
    TagIsStripped(tag, s);
    NothingToStrip(s);
    assert t[0] == '[' && t[|t| - 1] == s[|s| - 1];
    assert forall i :: 0 <= i < |t| ==> t[i] != '/';
    assert dir + "/[" + tag + "] " + s + ".strm" == Join(dir, t + STRM);
    hide WithoutLeadingTag, WithoutLeadingIndex, Base, Ext, Trim, TrimSuffix;
    BaseIsText(dir, t);
  }

  lemma TagIsStripped(tag: string, s: string)
    requires 1 <= |tag| <= 40 && forall i :: 0 <= i < |tag| ==> tag[i] != '[' && tag[i] != ']'
    requires s != "" && !RegexSpace(s[0])
    ensures WithoutLeadingTag("[" + tag + "] " + s) == s
  {
    var t := "[" + tag + "] " + s;
    assert forall i :: 0 <= i < |tag| ==> t[i + 1] == tag[i];
    assert t[|tag| + 1] == ']' && t[|tag| + 2..] == " " + s && (" " + s)[1..] == s;
    BracketCloses(t, 1, |tag| + 1);
    assert TrimLeft(" " + s, RegexSpace) == TrimLeft(s, RegexSpace) == s;
  }

  lemma NothingToStrip(s: string)
    requires s != "" && PlainChar(s[0]) && !IsSpace(s[0])
    ensures WithoutLeadingTag(s) == s && WithoutLeadingIndex(s) == s && !RegexSpace(s[0]) && !IndexGap(s[0])
  {
  }

  /** Nor is an index as in "01 - ". */
  lemma IndexIsDropped(dir: string, d: char, s: string)
    requires IsDigit(d)
    requires s != "" && (forall i :: 0 <= i < |s| ==> s[i] != '/')
    requires PlainChar(s[0]) && !IsSpace(s[0]) && !IsSpace(s[|s| - 1])
    ensures Stripped(dir + "/0" + [d] + " - " + s + ".strm") == s
  {
    var t := ['0', d, ' ', '-', ' '] + s;
    IndexIsStripped(d, s);
    assert t[0] == '0' && t[|t| - 1] == s[|s| - 1] && forall i :: 0 <= i < |t| ==> t[i] != '/';
    assert dir + "/0" + [d] + " - " + s + ".strm" == Join(dir, t + STRM);
    assert WithoutLeadingTag(t) == t;
    hide WithoutLeadingTag, WithoutLeadingIndex, Base, Ext, Trim, TrimSuffix;
    BaseIsText(dir, t);
  }

  lemma IndexIsStripped(d: char, s: string)
    requires IsDigit(d) && s != "" && PlainChar(s[0]) && !IsSpace(s[0])
    ensures WithoutLeadingIndex(['0', d, ' ', '-', ' '] + s) == s
  {
    var t := ['0', d, ' ', '-', ' '] + s;
    NothingToStrip(s);
    assert t[2..] == [' ', '-', ' '] + s && t[2..][1..] == ['-', ' '] + s;
    assert t[2..][1..][1..] == [' '] + s && t[2..][1..][1..][1..] == s;
    assert TrimLeft(s, IndexGap) == s;
    assert TrimLeft([' '] + s, IndexGap) == s;
    assert TrimLeft(['-', ' '] + s, IndexGap) == s;
    assert TrimLeft([' ', '-', ' '] + s, IndexGap) == s;
    assert !IsDigit(t[2]) && IsDigit(t[1]);
  }

  lemma BaseIsText(dir: string, t: string)
    requires t != "" && (forall i :: 0 <= i < |t| ==> t[i] != '/') && !IsSpace(t[0]) && !IsSpace(t[|t| - 1])
    ensures Trim(TrimSuffix(Base(Join(dir, t + STRM)), Ext(Join(dir, t + STRM))), IsSpace) == t
  {
    hide Ext, Trim;
    BaseOfJoin(dir, t + STRM);
    assert Join(dir, t + STRM) == Join(dir, t) + STRM;
    ExtOfStem(Join(dir, t), STRM);
    assert TrimSuffix(t + STRM, STRM) == t;
    NothingToTrim(t, IsSpace);
  }

  lemma {:induction false} BracketCloses(s: string, i: nat, n: nat)
    requires i <= n < |s| && s[n] == ']' && forall k :: i <= k < n ==> s[k] != '[' && s[k] != ']'
    ensures NextBracket(s, i) == n
    decreases n - i
  {
    if i < n {
      BracketCloses(s, i + 1, n);
    }
  }

  // ----- the layout in text -----

  lemma TwoDigits(n: nat)
    requires n <= 99
    ensures Pad2(n) == ["0123456789"[n / 10], "0123456789"[n % 10]]
  {
    assert n >= 10 ==> Itoa(n / 10) == ["0123456789"[n / 10]];
  }

  /** Where an episode is filed, in text: the show's folder, one for the season, the show with its code.
      An unknown season is filed as the first, a title without a usable character as "Unknown Show". */
  lemma LayoutText(e: Episode, fileName: string, tvDir: string)
    requires e.season <= 99 && 1 <= e.episode <= 99
    ensures var digits := "0123456789";
            var season := if e.season == 0 && !e.specials then 1 else e.season;
            var s := [digits[season / 10], digits[season % 10]];
            var n := [digits[e.episode / 10], digits[e.episode % 10]];
            var title := Sanitize(e.show);
            Layout(e, fileName, tvDir) ==
            tvDir + "/" + (if title == "" then "Unknown Show" else title) + "/Season " + s + "/"
            + title + " S" + s + "E" + n + ".strm"
  {
    var season := LayoutSeason(e);
    TwoDigits(season);
    TwoDigits(e.episode);
    var title := Sanitize(e.show);
    var folder := if title == "" then "Unknown Show" else title;
    var (s, n) := (Pad2(season), Pad2(e.episode));
    assert Layout(e, fileName, tvDir) ==
           tvDir + "/" + folder + "/" + ("Season " + s) + "/" + (title + " " + ("S" + s + "E" + n) + ".strm");
    TextsJoin(tvDir + "/" + folder, s, title, n);
  }

  /** A file without an episode number keeps its name, dots and underscores as spaces. */
  lemma PackKeepsName(e: Episode, name: string, gap: char, ext: string, tvDir: string, isTag: string -> bool)
    requires PlainTitle(e.show, isTag) && e.season <= 99 && e.episode == 0
    requires PlainTitle(name, isTag) && TokenGap(gap) && Dotted(ext)
    ensures var digits := "0123456789";
            var season := if e.season == 0 && !e.specials then 1 else e.season;
            Layout(e, Spaced(name, gap) + ext, tvDir) ==
            tvDir + "/" + e.show + "/" + ("Season " + [digits[season / 10], digits[season % 10]])
            + "/" + (name + ".strm")
  {
    var file := Spaced(name, gap) + ext;
    PackName(e, name, gap, ext, isTag);
    SanitizeKeeps(e.show, isTag);
    TwoDigits(LayoutSeason(e));
    hide LayoutName, Sanitize, Spaced, PlainTitle, Pad2;
  }

  lemma PackName(e: Episode, name: string, gap: char, ext: string, isTag: string -> bool)
    requires e.episode == 0 && PlainTitle(name, isTag) && TokenGap(gap) && Dotted(ext)
    ensures LayoutName(e, Spaced(name, gap) + ext) == name
  {
    ExtOfStem(Spaced(name, gap), ext);
    assert TrimSuffix(Spaced(name, gap) + ext, ext) == Spaced(name, gap);
    BlankedSpaced(name, gap, isTag);
    SanitizeKeeps(name, isTag);
    hide Ext, Blanked, Spaced, Sanitize, PlainTitle;
  }

  lemma BlankedSpaced(name: string, gap: char, isTag: string -> bool)
    requires PlainTitle(name, isTag) && TokenGap(gap)
    ensures Blanked(Spaced(name, gap)) == name
  {
    assert forall i :: 0 <= i < |name| ==> PlainChar(name[i]);
  }

  lemma TextsJoin(home: string, s: string, title: string, n: string)
    ensures home + "/" + ("Season " + s) + "/" + (title + " " + ("S" + s + "E" + n) + ".strm") ==
            home + "/Season " + s + "/" + title + " S" + s + "E" + n + ".strm"
  {
    assert "/" + ("Season " + s) == "/Season " + s;
    assert " " + ("S" + s + "E" + n) == " S" + s + "E" + n;
  }
}
