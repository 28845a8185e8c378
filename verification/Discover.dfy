/** The Discover index reads titles back from the folder names that Layout wrote, and matches them
    with TMDB titles after normalization (internal/web/discover.go, internal/strm/parse.go). */
module Discover {
  import opened Wrappers
  import opened Text
  import opened Paths
  import opened Words
  import EpisodeNames

  /** The Unicode tables: letters and digits, and lower case. */
  datatype Unicode = Unicode(isWord: char -> bool, lower: char -> char)

  /** What the code relies on: white space and the characters unsafe in file names are neither
      letters nor digits and have no lower case; no letter or digit is white space. */
  ghost predicate Lawful(u: Unicode) {
    && (forall c :: IsSpace(c) || EpisodeNames.Forbidden(c) ==> u.lower(c) == c && !u.isWord(c))
    && (forall c :: u.isWord(c) ==> !IsSpace(c))
    && u.isWord('a') && u.isWord('n') && u.isWord('d')
  }

  // ----- titles -----

  /** What normTitle makes of one character before it collapses spaces. */
  function FoldChar(u: Unicode, c: char): string {
    var l := u.lower(c);
    if l == '&' then " and "
    else if u.isWord(l) then [l]
    else if l == '\'' || l as int == 0x2019 then ""
    else " "
  }

  function Fold(u: Unicode, s: string): string {
    if s == "" then "" else FoldChar(u, s[0]) + Fold(u, s[1..])
  }

  function NormTitle(u: Unicode, s: string): string {
    JoinWords(NormWords(u, s))
  }

  function NormWords(u: Unicode, s: string): seq<string> {
    Split(Fold(u, s), IsSpace)
  }

  lemma {:induction false} FoldConcat(u: Unicode, a: string, b: string)
    ensures Fold(u, a + b) == Fold(u, a) + Fold(u, b)
  {
    if a == "" {
      assert a + b == b;
    } else {
      assert (a + b)[1..] == a[1..] + b;
      FoldConcat(u, a[1..], b);
    }
  }

  lemma SplitStep(s: string)
    requires s != ""
    ensures IsSpace(s[0]) ==> Split(s, IsSpace) == Split(s[1..], IsSpace)
    ensures !IsSpace(s[0]) ==> var n := RunLength(s, IsSpace); Split(s, IsSpace) == [s[..n]] + Split(s[n..], IsSpace)
  {
  }

  /** A space separates words whatever stands on either side of it. */
  lemma {:induction false} SplitConcat(a: string, b: string)
    ensures Split(a + " " + b, IsSpace) == Split(a, IsSpace) + Split(b, IsSpace)
    decreases |a|
  {
    assert Split("", IsSpace) == [];
    hide Split;
    var s := a + " " + b;
    SplitStep(s);
    if a == "" {
      assert s[1..] == b;
    } else {
      SplitStep(a);
      var n := if IsSpace(a[0]) then 1 else RunLength(a, IsSpace);
      RunLengthConcat(a, " " + b);
      assert a + (" " + b) == s;
      assert s[..n] == a[..n] && s[n..] == a[n..] + " " + b;
      SplitConcat(a[n..], b);
    }
  }

  lemma {:induction false} RunLengthConcat(a: string, b: string)
    requires b != "" && IsSpace(b[0])
    ensures RunLength(a + b, IsSpace) == RunLength(a, IsSpace)
  {
    if a != "" && !IsSpace(a[0]) {
      assert (a + b)[1..] == a[1..] + b;
      RunLengthConcat(a[1..], b);
    } else if a == "" {
      assert a + b == b;
    }
  }

  /** A character that folds to a space separates the words of what surrounds it. */
  lemma NormWordsSplit(u: Unicode, a: string, c: char, b: string)
    requires FoldChar(u, c) == " "
    ensures NormWords(u, a + [c] + b) == NormWords(u, a) + NormWords(u, b)
  {
    FoldConcat(u, a + [c], b);
    FoldConcat(u, a, [c]);
    assert Fold(u, [c]) == " " by { assert [c][1..] == ""; }
    assert Fold(u, a + [c] + b) == Fold(u, a) + " " + Fold(u, b);
    SplitConcat(Fold(u, a), Fold(u, b));
  }

  lemma {:induction false} TrimLeftKeepsWords(u: Unicode, s: string)
    requires Lawful(u)
    ensures NormWords(u, TrimLeft(s, IsSpace)) == NormWords(u, s)
  {
    if s != "" && IsSpace(s[0]) {
      TrimLeftKeepsWords(u, s[1..]);
      NormWordsSplit(u, "", s[0], s[1..]);
      assert s == "" + [s[0]] + s[1..];
    }
  }

  lemma {:induction false} TrimRightKeepsWords(u: Unicode, s: string)
    requires Lawful(u)
    ensures NormWords(u, TrimRight(s, IsSpace)) == NormWords(u, s)
  {
    if s != "" && IsSpace(s[|s| - 1]) {
      var front, c := s[..|s| - 1], s[|s| - 1];
      assert s == front + [c] + "" && FoldChar(u, c) == " " && NormWords(u, "") == [];
      assert TrimRight(s, IsSpace) == TrimRight(front, IsSpace);
      hide *;
      TrimRightKeepsWords(u, front);
      NormWordsSplit(u, front, c, "");
    }
  }

  lemma {:induction false} ClearedFoldsAlike(u: Unicode, s: string)
    requires Lawful(u)
    ensures Fold(u, EpisodeNames.Cleared(s)) == Fold(u, s)
  {
    if s == "" {
    } else {
      ClearedFoldsAlike(u, s[1..]);
      assert EpisodeNames.Cleared(s)[1..] == EpisodeNames.Cleared(s[1..]);
    }
  }

  /** Collapsing white space changes no word. */
  lemma {:induction false} CollapseKeepsWords(u: Unicode, s: string)
    requires Lawful(u)
    ensures NormWords(u, JoinWords(Split(s, IsSpace))) == NormWords(u, s)
    decreases |s|
  {
    assert JoinWords(Split("", IsSpace)) == "";
    hide NormWords, Split, JoinWords;
    if s == "" {
    } else if IsSpace(s[0]) {
      CollapseKeepsWords(u, s[1..]);
      LeadingSpace(u, s);
    } else {
      var n := RunLength(s, IsSpace);
      if n < |s| {
        CollapseKeepsWords(u, s[n + 1..]);
      }
      FirstWord(u, s);
    }
  }

  lemma FirstWord(u: Unicode, s: string)
    requires Lawful(u) && s != "" && !IsSpace(s[0])
    requires var n := RunLength(s, IsSpace);
             n < |s| ==> NormWords(u, JoinWords(Split(s[n + 1..], IsSpace))) == NormWords(u, s[n + 1..])
    ensures NormWords(u, JoinWords(Split(s, IsSpace))) == NormWords(u, s)
  {
    hide NormWords, Split, JoinWords;
    var n := RunLength(s, IsSpace);
    if n < |s| {
      SplitFirst(s, IsSpace, n);
      CollapseRun(u, s[..n], Split(s[n + 1..], IsSpace));
      NormWordsSplit(u, s[..n], s[n], s[n + 1..]);
      CutAt(s, n);
    } else {
      SplitOne(s, IsSpace);
    }
  }

  lemma LeadingSpace(u: Unicode, s: string)
    requires Lawful(u) && s != "" && IsSpace(s[0])
    ensures Split(s, IsSpace) == Split(s[1..], IsSpace) && NormWords(u, s) == NormWords(u, s[1..])
  {
    NormWordsSplit(u, "", s[0], s[1..]);
    assert s == "" + [s[0]] + s[1..];
  }

  lemma CutAt(s: string, n: nat)
    requires n < |s|
    ensures s == s[..n] + [s[n]] + s[n + 1..]
  {
  }

  lemma CollapseRun(u: Unicode, run: string, words: seq<string>)
    requires Lawful(u)
    ensures NormWords(u, JoinWords([run] + words)) == NormWords(u, run) + NormWords(u, JoinWords(words))
  {
    JoinFirst(run, words);
    if words != [] {
      NormWordsSplit(u, run, ' ', JoinWords(words));
    }
  }

  /** Making a title safe for file names does not change what it matches. */
  lemma SanitizeKeepsNorm(u: Unicode, title: string)
    requires Lawful(u)
    ensures NormTitle(u, EpisodeNames.Sanitize(title)) == NormTitle(u, title)
  {
    var trimmed := Trim(title, IsSpace);
    TrimLeftKeepsWords(u, title);
    TrimRightKeepsWords(u, TrimLeft(title, IsSpace));
    ClearedFoldsAlike(u, trimmed);
    CollapseKeepsWords(u, EpisodeNames.Cleared(trimmed));
  }

  // ----- what a normal form is -----

  /** Words of letters and digits in lower case, single spaces between them. */
  ghost predicate PlainTitle(u: Unicode, s: string) {
    && SingleSpaced(s, IsSpace)
    && forall i :: 0 <= i < |s| ==> s[i] == ' ' || (u.isWord(s[i]) && u.lower(s[i]) == s[i])
  }

  lemma {:induction false} PlainFolds(u: Unicode, s: string)
    requires Lawful(u) && forall i :: 0 <= i < |s| ==> s[i] == ' ' || (u.isWord(s[i]) && u.lower(s[i]) == s[i])
    requires u.lower('&') == '&' && !u.isWord('&')
    ensures Fold(u, s) == s
  {
    if s == "" {
    } else {
      PlainFolds(u, s[1..]);
      assert s == [s[0]] + s[1..];
    }
  }

  /** Such a title is its own normal form, so no two of them match each other. */
  lemma PlainIsNormal(u: Unicode, s: string, t: string)
    requires Lawful(u) && u.lower('&') == '&' && !u.isWord('&')
    requires PlainTitle(u, s) && PlainTitle(u, t)
    ensures NormTitle(u, s) == s
    ensures NormTitle(u, s) == NormTitle(u, t) <==> s == t
  {
    PlainFolds(u, s);
    PlainFolds(u, t);
    SplitThenJoin(s, IsSpace);
    SplitThenJoin(t, IsSpace);
  }

  /** And every other title is brought to one by these rules: upper case is lower case, an ampersand
      is the word "and", an apostrophe is not there, anything else that is no letter or digit is a
      space, and white space counts as one space or, at an edge, as none. */
  lemma NormRules(u: Unicode, a: string, c: char, b: string)
    requires Lawful(u) && u.lower(u.lower(c)) == u.lower(c)
    requires forall x :: x == '&' || x == '\'' || x as int == 0x2019 ==> u.lower(x) == x && !u.isWord(x)
    requires forall x :: x == 'a' || x == 'n' || x == 'd' ==> u.lower(x) == x
    ensures NormTitle(u, a + [c] + b) == NormTitle(u, a + [u.lower(c)] + b)
    ensures c == '&' ==> NormTitle(u, a + [c] + b) == NormTitle(u, a + " and " + b)
    ensures c == '\'' || c as int == 0x2019 ==> NormTitle(u, a + [c] + b) == NormTitle(u, a + b)
    ensures u.lower(c) == c && !u.isWord(c) && c != '&' && c != '\'' && c as int != 0x2019 ==>
              NormTitle(u, a + [c] + b) == NormTitle(u, a + " " + b)
    ensures NormTitle(u, a + "  " + b) == NormTitle(u, a + " " + b)
    ensures NormTitle(u, " " + b) == NormTitle(u, b) == NormTitle(u, b + " ")
  {
    LowerFolds(u, c);
    hide Fold, NormTitle, Lawful;
    SameFold(u, a, [c], [u.lower(c)], b);
    if c == '&' {
      SameFold(u, a, [c], " and ", b);
    } else if c == '\'' || c as int == 0x2019 {
      SameFold(u, a, [c], "", b);
      assert a + "" + b == a + b;
    } else if u.lower(c) == c && !u.isWord(c) {
      SameFold(u, a, [c], " ", b);
    }
    SpacesCount(u, a, b);
  }

  lemma LowerFolds(u: Unicode, c: char)
    requires Lawful(u) && u.lower(u.lower(c)) == u.lower(c)
    requires forall x :: x == '&' || x == '\'' || x as int == 0x2019 ==> u.lower(x) == x && !u.isWord(x)
    requires forall x :: x == 'a' || x == 'n' || x == 'd' ==> u.lower(x) == x
    ensures Fold(u, [c]) == Fold(u, [u.lower(c)])
    ensures c == '&' ==> Fold(u, [c]) == Fold(u, " and ")
    ensures c == '\'' || c as int == 0x2019 ==> Fold(u, [c]) == Fold(u, "")
    ensures u.lower(c) == c && !u.isWord(c) && c != '&' && c != '\'' && c as int != 0x2019 ==>
              Fold(u, [c]) == Fold(u, " ")
  {
    FoldOne(u, c);
    FoldOne(u, u.lower(c));
    FoldOne(u, ' ');
    PlainFolds(u, " and ");
  }

  lemma FoldOne(u: Unicode, c: char)
    ensures Fold(u, [c]) == FoldChar(u, c)
  {
    assert [c][1..] == "";
  }

  lemma SameFold(u: Unicode, a: string, s: string, t: string, b: string)
    requires Fold(u, s) == Fold(u, t)
    ensures NormTitle(u, a + s + b) == NormTitle(u, a + t + b)
  {
    FoldConcat(u, a + s, b);
    FoldConcat(u, a, s);
    FoldConcat(u, a + t, b);
    FoldConcat(u, a, t);
  }

  lemma SpaceBetween(u: Unicode, a: string, b: string)
    requires Lawful(u)
    ensures NormWords(u, a + " " + b) == NormWords(u, a) + NormWords(u, b)
  {
    NormWordsSplit(u, a, ' ', b);
  }

  lemma SpacesCount(u: Unicode, a: string, b: string)
    requires Lawful(u)
    ensures NormTitle(u, a + "  " + b) == NormTitle(u, a + " " + b)
    ensures NormTitle(u, " " + b) == NormTitle(u, b) == NormTitle(u, b + " ")
  {
    assert NormWords(u, "") == [];
    hide *;
    assert NormWords(u, a + "  " + b) == NormWords(u, a + " " + b) by {
      SpaceBetween(u, a, b);
      SpaceTwice(u, a, b);
    }
    SameWords(u, a + "  " + b, a + " " + b);
    SpaceBetween(u, "", b);
    SpaceBetween(u, b, "");
    assert "" + " " + b == " " + b && b + " " + "" == b + " ";
    SameWords(u, " " + b, b);
    SameWords(u, b + " ", b);
  }

  lemma SpaceTwice(u: Unicode, a: string, b: string)
    requires Lawful(u)
    ensures NormWords(u, a + "  " + b) == NormWords(u, a) + NormWords(u, b)
  {
    assert NormWords(u, "") == [];
    hide *;
    SpaceBetween(u, a + " ", b);
    SpaceBetween(u, a, "");
    assert (a + " ") + " " + b == a + "  " + b;
    assert a + " " + "" == a + " ";
  }

  lemma SameWords(u: Unicode, s: string, t: string)
    requires NormWords(u, s) == NormWords(u, t)
    ensures NormTitle(u, s) == NormTitle(u, t)
  {
  }

  // ----- folders -----

  /** splitYear: "Title (2021)" into its title and year; year 0 when there is none. */
  function SplitYear(s: string): (string, int) {
    var n := |s|;
    if n >= 6 && s[n - 6] == '(' && s[n - 1] == ')' && EpisodeNames.DigitsAt(s, n - 5, 4) then
      var title := TrimRight(s[..n - 6], EpisodeNames.RegexSpace);
      if '\n' in title then (s, 0) else (title, Value(s[n - 5..n - 1]))
    else (s, 0)
  }

  /** Index of the first slash, or the length. */
  function FirstSlash(s: string): (n: nat)
    ensures n <= |s|
    ensures forall i :: 0 <= i < n ==> s[i] != '/'
    ensures n < |s| ==> s[n] == '/'
  {
    if s == "" || s[0] == '/' then 0 else 1 + FirstSlash(s[1..])
  }

  /** firstDirUnder: the first path element of p below root, when there is a further one. */
  function FirstDirUnder(root: string, p: string): Option<string> {
    if !Within(root, p) then None
    else
      var rel := Rel(root, p);
      if HasPrefix(rel, "..") then None
      else if FirstSlash(rel) == |rel| then None
      else Some(rel[..FirstSlash(rel)])
  }

  /** The folder Layout files a movie under. */
  function MovieDir(title: string, year: nat): string {
    EpisodeNames.Sanitize(title) + " (" + Itoa(year) + ")"
  }

  /** A sanitized title: no slash, no line break, no space at its edges. */
  lemma SanitizedShape(title: string)
    ensures var r := EpisodeNames.Sanitize(title);
            && '/' !in r && '\n' !in r
            && (r != "" ==> !IsSpace(r[0]) && !IsSpace(r[|r| - 1]))
  {
    var cleared := EpisodeNames.Cleared(Trim(title, IsSpace));
    WordsAreClean(cleared);
    JoinedShape(Split(cleared, IsSpace));
  }

  ghost predicate CleanWord(w: string) {
    w != "" && '/' !in w && forall i :: 0 <= i < |w| ==> !IsSpace(w[i])
  }

  lemma {:induction false} WordsAreClean(s: string)
    requires '/' !in s
    ensures forall i :: 0 <= i < |Split(s, IsSpace)| ==> CleanWord(Split(s, IsSpace)[i])
    decreases |s|
  {
    if s == "" {
    } else {
      if IsSpace(s[0]) {
        WordsAreClean(s[1..]);
      } else {
        var n := RunLength(s, IsSpace);
        WordsAreClean(s[n..]);
        assert CleanWord(s[..n]);
      }
    }
  }

  lemma {:induction false} JoinedShape(words: seq<string>)
    requires forall i :: 0 <= i < |words| ==> CleanWord(words[i])
    ensures var r := JoinWords(words);
            && '/' !in r && '\n' !in r
            && (r != "" ==> !IsSpace(r[0]) && !IsSpace(r[|r| - 1]))
            && (words != [] ==> r != "")
  {
    if words == [] {
    } else {
      JoinedShape(words[1..]);
      assert CleanWord(words[0]);
    }
  }

  lemma FourDigits(year: nat)
    requires 1000 <= year <= 9999
    ensures |Itoa(year)| == 4
  {
    assert |Itoa(year / 1000)| == 1 && |Itoa(year / 100)| == 2 && |Itoa(year / 10)| == 3 by {
      assert (year / 100) / 10 == year / 1000 && (year / 10) / 10 == year / 100;
    }
  }

  /** Reading the folder name back gives the sanitized title and the year. */
  lemma SplitYearUndoesMovieDir(title: string, year: nat)
    requires EpisodeNames.Sanitize(title) != "" && 1000 <= year <= 9999
    ensures SplitYear(MovieDir(title, year)) == (EpisodeNames.Sanitize(title), year)
  {
    var t, y, s := EpisodeNames.Sanitize(title), Itoa(year), MovieDir(title, year);
    var n := |s|;
    SanitizedShape(title);
    FourDigits(year);
    assert s == (t + " ") + "(" + y + ")";
    assert s[..n - 6] == t + " ";
    assert s[n - 5..n - 1] == y;
    assert forall k :: n - 5 <= k < n - 1 ==> s[k] == y[k - (n - 5)];
    assert (t + " ")[..|t|] == t;
    assert TrimRight(t + " ", EpisodeNames.RegexSpace) == TrimRight(t, EpisodeNames.RegexSpace) == t;
  }

  /** The folder of a movie file is found unless its title starts with two dots. */
  lemma MovieDirIsFirst(root: string, title: string, year: nat, file: string)
    requires EpisodeNames.Sanitize(title) != "" && file != ""
    ensures FirstDirUnder(root, Join(Join(root, MovieDir(title, year)), file)) ==
            if HasPrefix(EpisodeNames.Sanitize(title), "..") then None else Some(MovieDir(title, year))
  {
    var t, dir := EpisodeNames.Sanitize(title), MovieDir(title, year);
    var p := Join(Join(root, dir), file);
    SanitizedShape(title);
    assert p == root + "/" + (dir + "/" + file);
    var rel := Rel(root, p);
    assert rel == dir + "/" + file;
    assert forall i :: 0 <= i < |dir| ==> dir[i] != '/';
    assert rel[|dir|] == '/' && forall i :: 0 <= i < |dir| ==> rel[i] == dir[i];
    assert FirstSlash(rel) == |dir|;
    assert rel[..|dir|] == dir;
    assert dir[0] == t[0] && (|t| == 1 ==> dir[1] == ' ') && (|t| > 1 ==> dir[1] == t[1]);
    assert HasPrefix(rel, "..") <==> rel[0] == '.' && rel[1] == '.';
    assert HasPrefix(t, "..") <==> |t| > 1 && t[0] == '.' && t[1] == '.';
  }

  // ----- the index -----

  /** A library path as the index reads it. */
  datatype Entry = Show(name: string) | Movie(name: string, year: int) | Neither

  datatype Roots = Roots(movies: string, shows: string)

  function EntryOf(u: Unicode, r: Roots, p: string): Entry {
    var show, movie := FirstDirUnder(r.shows, p), FirstDirUnder(r.movies, p);
    if show.Some? then Show(NormTitle(u, SplitYear(show.value).0))
    else if movie.Some? && movie.value != "Unsorted" then
      var (title, year) := SplitYear(movie.value);
      Movie(NormTitle(u, title), year)
    else Neither
  }

  /** The years of the movie files with a normalized title, in order. */
  function YearsOf(u: Unicode, r: Roots, paths: seq<string>, name: string): seq<int> {
    if paths == [] then []
    else
      var e := EntryOf(u, r, paths[|paths| - 1]);
      YearsOf(u, r, paths[..|paths| - 1], name) + if e.Movie? && e.name == name then [e.year] else []
  }

  /** How many episode files a normalized show title has. */
  function EpisodesOf(u: Unicode, r: Roots, paths: seq<string>, name: string): nat {
    if paths == [] then 0
    else EpisodesOf(u, r, paths[..|paths| - 1], name) + if EntryOf(u, r, paths[|paths| - 1]) == Show(name) then 1 else 0
  }

  /** A TMDB result; year 0 when unknown. */
  datatype TmdbResult = TmdbResult(isTV: bool, id: string, title: string, originalTitle: string, year: int)

  predicate YearMatches(filed: int, year: int) {
    filed == 0 || year == 0 || year - 1 <= filed <= year + 1
  }

  class LibraryIndex {
    const u: Unicode
    const hintMovies: set<string>
    const hintShows: set<string>
    var movies: map<string, seq<int>>
    var shows: map<string, nat>

    ghost predicate Indexes(r: Roots, paths: seq<string>)
      reads this
    {
      && (forall name :: (if name in movies then movies[name] else []) == YearsOf(u, r, paths, name))
      && (forall name :: (if name in shows then shows[name] else 0) == EpisodesOf(u, r, paths, name))
    }

    constructor (u: Unicode, hintMovies: set<string>, hintShows: set<string>)
      ensures this.u == u && this.hintMovies == hintMovies && this.hintShows == hintShows
      ensures movies == map[] && shows == map[]
    {
      this.u, this.hintMovies, this.hintShows := u, hintMovies, hintShows;
      movies, shows := map[], map[];
    }

    /** loadLibraryIndex, over the paths of all tracked files. */
    method Load(r: Roots, paths: seq<string>)
      requires movies == map[] && shows == map[]
      modifies this
      ensures Indexes(r, paths)
    {
      for i := 0 to |paths|
        invariant Indexes(r, paths[..i])
      {
        assert paths[..i + 1] == paths[..i] + [paths[i]];
        AddPath(r, paths[i], paths[..i]);
      }
      assert paths[..|paths|] == paths;
    }

    /** How the loop reads one path. */
    method ReadPath(r: Roots, p: string) returns (e: Entry)
      ensures e == EntryOf(u, r, p)
    {
      var show := FirstDirUnder(r.shows, p);
      if show.Some? {
        var (title, _) := SplitYear(show.value);
        return Show(NormTitle(u, title));
      }
      var movie := FirstDirUnder(r.movies, p);
      if movie.Some? && movie.value != "Unsorted" {
        var (title, year) := SplitYear(movie.value);
        return Movie(NormTitle(u, title), year);
      }
      e := Neither;
    }

    /** The body of the loop over paths. */
    method AddPath(r: Roots, p: string, ghost before: seq<string>)
      requires Indexes(r, before)
      modifies this
      ensures Indexes(r, before + [p])
    {
      hide YearsOf, EpisodesOf, EntryOf;
      var e := ReadPath(r, p);
      LastPath(u, r, before, p, e);
      Count(e);
    }

    method Count(e: Entry)
      modifies this
      ensures movies == if e.Movie?
                        then old(movies)[
                          e.name := (if e.name in old(movies) then old(movies)[e.name] else []) + [e.year]]
                        else old(movies)
      ensures shows == if e.Show?
                       then old(shows)[e.name := (if e.name in old(shows) then old(shows)[e.name] else 0) + 1]
                       else old(shows)
    {
      match e
      case Show(key) => shows := shows[key := (if key in shows then shows[key] else 0) + 1];
      case Movie(key, year) => movies := movies[key := (if key in movies then movies[key] else []) + [year]];
      case Neither =>
    }

    /** The inner loop of lookup, for one of a movie's titles. */
    method MovieFiled(title: string, year: int, ghost r: Roots, ghost paths: seq<string>) returns (found: bool)
      requires Indexes(r, paths)
      ensures found == FiledAs(u, r, paths, title, year)
    {
      var key := NormTitle(u, title);
      found := AnyYear(if key in movies then movies[key] else [], year);
      assert (if key in movies then movies[key] else []) == YearsOf(u, r, paths, key);
    }

    method AnyYear(years: seq<int>, year: int) returns (found: bool)
      ensures found == exists y :: y in years && YearMatches(y, year)
    {
      for j := 0 to |years|
        invariant forall k :: 0 <= k < j ==> !YearMatches(years[k], year)
      {
        if years[j] == 0 || year == 0 || (years[j] >= year - 1 && years[j] <= year + 1) {
          assert years[j] in years && YearMatches(years[j], year);
          return true;
        }
      }
      found := false;
    }

    /** lookup: whether a result is in the library, and a show's number of episode files. */
    method Lookup(t: TmdbResult, ghost r: Roots, ghost paths: seq<string>) returns (found: bool, episodes: nat)
      requires Indexes(r, paths)
      ensures !t.isTV ==> found == (t.id in hintMovies || MovieOnFile(u, r, paths, t)) && episodes == 0
      ensures t.isTV ==> episodes == ShowOnFile(u, r, paths, t) && found == (episodes > 0 || t.id in hintShows)
    {
      if t.isTV {
        var key := NormTitle(u, t.title);
        episodes := if key in shows then shows[key] else 0;
        if episodes == 0 && t.originalTitle != "" {
          key := NormTitle(u, t.originalTitle);
          episodes := if key in shows then shows[key] else 0;
        }
        return episodes > 0 || t.id in hintShows, episodes;
      }
      if t.id in hintMovies {
        return true, 0;
      }
      found := MovieFiled(t.title, t.year, r, paths);
      if !found {
        found := MovieFiled(t.originalTitle, t.year, r, paths);
      }
      episodes := 0;
    }
  }

  lemma LastPath(u: Unicode, r: Roots, before: seq<string>, p: string, e: Entry)
    requires e == EntryOf(u, r, p)
    ensures forall name :: YearsOf(u, r, before + [p], name) ==
              YearsOf(u, r, before, name) + if e.Movie? && e.name == name then [e.year] else []
    ensures forall name :: EpisodesOf(u, r, before + [p], name) ==
              EpisodesOf(u, r, before, name) + if e == Show(name) then 1 else 0
  {
    assert (before + [p])[..|before|] == before;
  }

  /** Some movie file carries the title, normalized, and a year that fits. */
  ghost predicate FiledAs(u: Unicode, r: Roots, paths: seq<string>, title: string, year: int) {
    exists y :: y in YearsOf(u, r, paths, NormTitle(u, title)) && YearMatches(y, year)
  }

  ghost predicate MovieOnFile(u: Unicode, r: Roots, paths: seq<string>, t: TmdbResult) {
    FiledAs(u, r, paths, t.title, t.year) || FiledAs(u, r, paths, t.originalTitle, t.year)
  }

  /** A show's files under its title, else under its original title. */
  function ShowOnFile(u: Unicode, r: Roots, paths: seq<string>, t: TmdbResult): nat {
    var n := EpisodesOf(u, r, paths, NormTitle(u, t.title));
    if n == 0 && t.originalTitle != "" then EpisodesOf(u, r, paths, NormTitle(u, t.originalTitle)) else n
  }

  // ----- filed movies are found -----

  lemma {:induction false} YearsContain(u: Unicode, r: Roots, paths: seq<string>, name: string, y: int)
    ensures y in YearsOf(u, r, paths, name) <==> exists p :: p in paths && EntryOf(u, r, p) == Movie(name, y)
  {
    if paths == [] {
    } else {
      var front, last := paths[..|paths| - 1], paths[|paths| - 1];
      assert paths == front + [last];
      YearsContain(u, r, front, name, y);
    }
  }

  /** How the index reads the path of a filed movie. */
  lemma MovieEntry(u: Unicode, r: Roots, title: string, year: nat, file: string)
    requires Lawful(u) && EpisodeNames.Sanitize(title) != "" && 1000 <= year <= 9999 && file != ""
    requires !Within(r.shows, Join(Join(r.movies, MovieDir(title, year)), file))
    ensures EntryOf(u, r, Join(Join(r.movies, MovieDir(title, year)), file)) ==
            if HasPrefix(EpisodeNames.Sanitize(title), "..") then Neither else Movie(NormTitle(u, title), year)
  {
    var dir := MovieDir(title, year);
    MovieDirIsFirst(r.movies, title, year, file);
    SplitYearUndoesMovieDir(title, year);
    SanitizeKeepsNorm(u, title);
    assert dir[|dir| - 1] == ')';
  }

  /** A movie filed under a title and a four-digit year is found for every TMDB result whose title
      or original title normalizes alike and whose year is unknown or off by at most one. */
  lemma FiledMovieIsFound(u: Unicode, r: Roots, paths: seq<string>, title: string, year: nat, file: string,
      t: TmdbResult)
    requires Lawful(u) && EpisodeNames.Sanitize(title) != "" && 1000 <= year <= 9999 && file != ""
    requires !HasPrefix(EpisodeNames.Sanitize(title), "..")
    requires !Within(r.shows, Join(Join(r.movies, MovieDir(title, year)), file))
    requires Join(Join(r.movies, MovieDir(title, year)), file) in paths
    requires NormTitle(u, t.title) == NormTitle(u, title) || NormTitle(u, t.originalTitle) == NormTitle(u, title)
    requires t.year == 0 || t.year - 1 <= year <= t.year + 1
    ensures MovieOnFile(u, r, paths, t)
  {
    var name := NormTitle(u, title);
    MovieEntry(u, r, title, year, file);
    YearsContain(u, r, paths, name, year);
    assert year in YearsOf(u, r, paths, name) && YearMatches(year, t.year);
  }

  /** A title that starts with two dots is filed but not found. Any other movie that is all there is
      is found exactly for the results with its title, normalized, and its year, unknown or off by one. */
  lemma FoundUnlessDotDot(u: Unicode, r: Roots, title: string, year: nat, file: string, t: TmdbResult)
    requires Lawful(u) && EpisodeNames.Sanitize(title) != "" && 1000 <= year <= 9999 && file != ""
    requires !Within(r.shows, Join(Join(r.movies, MovieDir(title, year)), file))
    ensures MovieOnFile(u, r, [Join(Join(r.movies, MovieDir(title, year)), file)], t) <==>
            && !HasPrefix(EpisodeNames.Sanitize(title), "..")
            && (NormTitle(u, t.title) == NormTitle(u, title) || NormTitle(u, t.originalTitle) == NormTitle(u, title))
            && (t.year == 0 || t.year - 1 <= year <= t.year + 1)
  {
    var p := Join(Join(r.movies, MovieDir(title, year)), file);
    MovieEntry(u, r, title, year, file);
    hide NormTitle, EntryOf, MovieDir, YearsOf;
    forall name, y
      ensures y in YearsOf(u, r, [p], name) <==> EntryOf(u, r, p) == Movie(name, y)
    {
      YearsContain(u, r, [p], name, y);
    }
    if !HasPrefix(EpisodeNames.Sanitize(title), "..") {
      assert year in YearsOf(u, r, [p], NormTitle(u, title));
    }
  }

  // ----- filed episodes are counted -----

  lemma NoYearInPlain(title: string, isTag: string -> bool)
    requires EpisodeNames.PlainTitle(title, isTag)
    ensures SplitYear(title).0 == title
  {
    var n := |title|;
    if n >= 6 {
      assert EpisodeNames.PlainChar(title[n - 5]);
    }
  }

  /** How the index reads the path of a filed episode. */
  lemma EpisodeEntry(u: Unicode, r: Roots, e: EpisodeNames.Episode, file: string, isTag: string -> bool)
    requires EpisodeNames.PlainTitle(e.show, isTag)
    ensures EntryOf(u, r, EpisodeNames.Layout(e, file, r.shows)) == Show(NormTitle(u, e.show))
  {
    hide NormTitle;
    var title := e.show;
    var rest := "Season " + EpisodeNames.Pad2(EpisodeNames.LayoutSeason(e)) + "/"
    + (EpisodeNames.LayoutName(e, file) + STRM);
    EpisodeNames.SanitizeKeeps(title, isTag);
    NoYearInPlain(title, isTag);
    var p := EpisodeNames.Layout(e, file, r.shows);
    assert p == r.shows + "/" + (title + "/" + rest);
    assert forall i :: 0 <= i < |title| ==> EpisodeNames.PlainChar(title[i]);
    FirstElement(r.shows, title, rest);
  }

  lemma FirstElement(root: string, dir: string, rest: string)
    requires dir != "" && '/' !in dir && !HasPrefix(dir, "..")
    ensures FirstDirUnder(root, root + "/" + (dir + "/" + rest)) == Some(dir)
  {
    var p, rel := root + "/" + (dir + "/" + rest), dir + "/" + rest;
    assert Rel(root, p) == rel;
    assert rel[|dir|] == '/' && forall i :: 0 <= i < |dir| ==> rel[i] == dir[i];
    assert FirstSlash(rel) == |dir|;
    assert rel[..|dir|] == dir;
    assert rel[0] == dir[0] && rel[1] == if |dir| > 1 then dir[1] else '/';
  }

  /** How many of the titles match a name. */
  function Matching(u: Unicode, episodes: seq<EpisodeNames.Episode>, name: string): nat {
    if episodes == [] then 0
    else
      Matching(u, episodes[..|episodes| - 1], name)
      + if NormTitle(u, episodes[|episodes| - 1].show) == name then 1 else 0
  }

  /** A show reports exactly its filed episodes, however its title is written there. */
  lemma {:induction false} FiledEpisodesAreCounted(u: Unicode, r: Roots, episodes: seq<EpisodeNames.Episode>,
      files: seq<string>, paths: seq<string>, name: string, isTag: string -> bool)
    requires |episodes| == |files| == |paths|
    requires forall i :: 0 <= i < |paths| ==>
               EpisodeNames.PlainTitle(episodes[i].show, isTag)
               && paths[i] == EpisodeNames.Layout(episodes[i], files[i], r.shows)
    ensures EpisodesOf(u, r, paths, name) == Matching(u, episodes, name)
  {
    hide NormTitle, EntryOf;
    if paths == [] {
    } else {
      var n := |paths| - 1;
      FiledEpisodesAreCounted(u, r, episodes[..n], files[..n], paths[..n], name, isTag);
      EpisodeEntry(u, r, episodes[n], files[n], isTag);
    }
  }

  lemma {:induction false} SomeMatch(u: Unicode, episodes: seq<EpisodeNames.Episode>, name: string)
    ensures Matching(u, episodes, name) > 0 <==> exists e :: e in episodes && NormTitle(u, e.show) == name
  {
    if episodes == [] {
    } else {
      var front := episodes[..|episodes| - 1];
      assert episodes == front + [episodes[|episodes| - 1]];
      hide NormTitle;
      SomeMatch(u, front, name);
    }
  }

  /** A show is found exactly when an episode is filed under its title or its original title, which
      counts only when there is one. */
  lemma FiledShowIsFound(u: Unicode, r: Roots, episodes: seq<EpisodeNames.Episode>, files: seq<string>,
                         paths: seq<string>, t: TmdbResult, isTag: string -> bool)
    requires |episodes| == |files| == |paths|
    requires forall i :: 0 <= i < |paths| ==>
               EpisodeNames.PlainTitle(episodes[i].show, isTag)
               && paths[i] == EpisodeNames.Layout(episodes[i], files[i], r.shows)
    ensures ShowOnFile(u, r, paths, t) > 0 <==>
            exists e :: e in episodes
                && (NormTitle(u, e.show) == NormTitle(u, t.title)
                    || (t.originalTitle != "" && NormTitle(u, e.show) == NormTitle(u, t.originalTitle)))
  {
    hide NormTitle;
    FiledEpisodesAreCounted(u, r, episodes, files, paths, NormTitle(u, t.title), isTag);
    FiledEpisodesAreCounted(u, r, episodes, files, paths, NormTitle(u, t.originalTitle), isTag);
    SomeMatch(u, episodes, NormTitle(u, t.title));
    SomeMatch(u, episodes, NormTitle(u, t.originalTitle));
  }

  /** Files that could not be placed are no movies. */
  lemma UnsortedIsNoMovie(u: Unicode, r: Roots, rest: string)
    requires !Within(r.shows, r.movies + "/" + ("Unsorted" + "/" + rest))
    ensures EntryOf(u, r, r.movies + "/" + ("Unsorted" + "/" + rest)) == Neither
  {
    var dir := "Unsorted";
    assert dir[0] != '.';
    FirstElement(r.movies, dir, rest);
  }
}
