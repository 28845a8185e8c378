/** With ordinary names uniquePath never runs out of alternates: the last one carries the file's
    own IDs in brackets, and nobody else's path does (internal/strm/writer.go). */
module LibraryNames {
  import opened Text
  import opened Paths
  import opened Library
  import opened LibrarySafety
  import opened LibraryCopies
  import opened Snapshot

  /** What fmt.Sprintf does with a format whose only percent sign starts a %d. */
  ghost predicate LawfulSprintf(f: (string, nat) -> string) {
    forall a: string, b: string, n: nat :: '%' !in a && '%' !in b ==> f(a + "%d" + b, n) == a + Itoa(n) + b
  }

  /** A format function: the first %d is replaced. */
  function SprintfFirst(p: string, n: nat): string {
    if |p| < 2 then p
    else if p[0] == '%' && p[1] == 'd' then Itoa(n) + p[2..]
    else [p[0]] + SprintfFirst(p[1..], n)
  }

  lemma HeadFirst(a: string, b: string)
    requires a != ""
    ensures (a + b)[0] == a[0] && (a + b)[1..] == a[1..] + b && [a[0]] + (a[1..] + b) == a + b
  {
  }

  /** Text without percent signs is copied. */
  lemma {:induction false} TextIsCopied(a: string, rest: string, n: nat)
    requires '%' !in a && |rest| >= 2
    ensures SprintfFirst(a + rest, n) == a + SprintfFirst(rest, n)
  {
    if a == "" {
      assert a + rest == rest;
    } else {
      HeadFirst(a, rest);
      assert SprintfFirst(a + rest, n) == [a[0]] + SprintfFirst(a[1..] + rest, n);
      hide SprintfFirst;
      TextIsCopied(a[1..], rest, n);
      HeadFirst(a, SprintfFirst(rest, n));
    }
  }

  lemma FirstVerb(a: string, b: string, n: nat)
    requires '%' !in a
    ensures SprintfFirst(a + "%d" + b, n) == a + Itoa(n) + b
  {
    var rest := "%d" + b;
    assert rest[2..] == b && a + "%d" + b == a + rest;
    assert SprintfFirst(rest, n) == Itoa(n) + b;
    hide SprintfFirst;
    TextIsCopied(a, rest, n);
  }

  /** The law can be met. */
  lemma SprintfLawIsMet()
    ensures LawfulSprintf(SprintfFirst)
  {
    forall a: string, b: string, n: nat | '%' !in a && '%' !in b
      ensures SprintfFirst(a + "%d" + b, n) == a + Itoa(n) + b
    {
      FirstVerb(a, b, n);
    }
  }

  predicate CleanId(id: string) {
    '-' !in id && '[' !in id && '/' !in id
  }

  predicate CleanKey(k: Key) {
    CleanId(k.provider) && CleanId(k.torrent) && CleanId(k.file)
  }

  /** A library path and label free of the characters that uniquePath's alternates rely on. */
  predicate CleanName(base: string, version: string) {
    && HasSuffix(base, STRM)
    && '%' !in base && '%' !in version
    && '[' !in base && '[' !in version
    && '/' !in version
  }

  /** The text from the first opening bracket on. */
  function Tail(path: string): string {
    if path == "" || path[0] == '[' then path else Tail(path[1..])
  }

  lemma {:induction false} TailAfter(a: string, b: string)
    requires '[' !in a
    ensures Tail(a + b) == Tail(b)
  {
    if a != "" {
      assert (a + b)[1..] == a[1..] + b;
      TailAfter(a[1..], b);
    } else {
      assert a + b == b;
    }
  }

  /** A bracketed tag in a tracked path names the row it belongs to. */
  predicate Owned(k: Key, path: string) {
    Tail(path) == "" || Tail(path) == "[" + TorrentTag(k) + "]" + STRM || Tail(path) == "[" + FileTag(k) + "]" + STRM
  }

  lemma {:induction false} SplitAtDash(a: string, b: string, c: string, d: string)
    requires '-' !in a && '-' !in c && a + "-" + b == c + "-" + d
    ensures a == c && b == d
  {
    var s := a + "-" + b;
    assert s[|a|] == '-' && s[|c|] == '-';
    assert forall i :: 0 <= i < |a| ==> s[i] == a[i];
    assert forall i :: 0 <= i < |c| ==> s[i] == c[i];
    assert |a| == |c|;
    assert a == s[..|a|] == c;
    assert b == s[|a| + 1..] == d;
  }

  /** The last alternate belongs to one key only. */
  lemma FileTagUnique(k1: Key, k2: Key)
    requires CleanKey(k1) && CleanKey(k2)
    ensures FileTag(k1) == FileTag(k2) ==> k1 == k2
    ensures FileTag(k1) != TorrentTag(k2)
  {
    var rest1, rest2 := k1.torrent + "-" + k1.file, k2.torrent + "-" + k2.file;
    assert FileTag(k1) == k1.provider + "-" + rest1;
    assert FileTag(k2) == k2.provider + "-" + rest2;
    assert rest1[|k1.torrent|] == '-';
    if FileTag(k1) == FileTag(k2) {
      SplitAtDash(k1.provider, rest1, k2.provider, rest2);
      SplitAtDash(k1.torrent, k1.file, k2.torrent, k2.file);
    }
    if FileTag(k1) == TorrentTag(k2) {
      SplitAtDash(k1.provider, rest1, k2.provider, k2.torrent);
    }
  }

  // ----- the shape of the candidates -----

  lemma ExtOfStrm(base: string)
    requires HasSuffix(base, STRM)
    ensures Ext(base) == STRM && base == TrimSuffix(base, STRM) + STRM
  {
    StrmSuffixIsExt(base);
  }

  /** Every candidate is the stem, a slash-free middle and ".strm". */
  ghost predicate Extends(path: string, stem: string, middle: string) {
    path == stem + middle + STRM && '/' !in middle
  }

  lemma WantedShape(base: string, version: string)
    requires CleanName(base, version)
    ensures var stem := TrimSuffix(base, STRM);
            var middle := if version == "" then "" else " - " + version;
            Extends(WantedPath(base, version), stem, middle) && '[' !in stem + middle && '%' !in stem + middle
            && '[' !in WantedPath(base, version)
  {
    ExtOfStrm(base);
    assert base == TrimSuffix(base, STRM) + "" + STRM;
  }

  lemma Regroup(stem: string, a: string, mark: string, b: string, e: string)
    ensures stem + (a + mark + b) + e == stem + a + mark + (b + e)
  {
  }

  lemma RegroupVersion(stem: string, version: string, e: string)
    ensures stem + " - " + version + " (%d)" + e == stem + (" - " + version + " (") + "%d" + (")" + e)
  {
    assert " (%d)" == " (" + "%d" + ")";
    Regroup(stem + " - " + version, " (", "%d", ")", e);
    Regroup(stem, " - ", version, " (", "%d" + (")" + e));
  }

  lemma NumberedPatternIs(base: string, version: string)
    requires HasSuffix(base, STRM)
    ensures var stem := TrimSuffix(base, STRM);
            NumberedPattern(base, version) ==
            if version == "" then stem + " - Version " + "%d" + ("" + STRM)
            else stem + (" - " + version + " (") + "%d" + (")" + STRM)
  {
    hide Ext, TrimSuffix;
    ExtOfStrm(base);
    if version == "" {
      assert " - Version %d" == " - Version " + "%d" + "";
      Regroup(TrimSuffix(base, STRM), " - Version ", "%d", "", STRM);
    } else {
      RegroupVersion(TrimSuffix(base, STRM), version, STRM);
    }
  }

  lemma NumberedShape(f: (string, nat) -> string, base: string, version: string, n: nat)
    requires LawfulSprintf(f) && CleanName(base, version)
    ensures var stem, path := TrimSuffix(base, STRM), f(NumberedPattern(base, version), n);
            '[' !in path && exists middle :: Extends(path, stem, middle)
  {
    hide NumberedPattern, Extends;
    NumberedPatternIs(base, version);
    WantedShape(base, version);
    if version == "" {
      PatternShape(f, TrimSuffix(base, STRM), " - Version ", "", n);
    } else {
      PatternShape(f, TrimSuffix(base, STRM), " - " + version + " (", ")", n);
    }
  }

  lemma PatternShape(f: (string, nat) -> string, stem: string, a: string, b: string, n: nat)
    requires LawfulSprintf(f)
    requires '%' !in stem && '%' !in a && '%' !in b && '[' !in stem && '[' !in a && '[' !in b && '/' !in a && '/' !in b
    ensures var path := f(stem + a + "%d" + (b + STRM), n);
            '[' !in path && exists middle :: Extends(path, stem, middle)
  {
    var head, rest := stem + a, b + STRM;
    assert '%' !in head && '%' !in rest;
    var path := f(head + "%d" + rest, n);
    assert path == head + Itoa(n) + rest;
    NumberBetween(stem, a, Itoa(n), b);
  }

  lemma NumberBetween(stem: string, a: string, digits: string, b: string)
    requires '[' !in stem && '[' !in a && '[' !in b && '/' !in a && '/' !in b && AllDigits(digits)
    ensures var path := stem + a + digits + (b + STRM);
            '[' !in path && exists middle :: Extends(path, stem, middle)
  {
    var path := stem + a + digits + (b + STRM);
    assert path == stem + (a + digits + b) + STRM;
    assert '/' !in a + digits + b;
    assert Extends(path, stem, a + digits + b);
  }

  lemma TaggedShape(base: string, version: string, tag: string)
    requires CleanName(base, version) && '[' !in tag && '/' !in tag
    ensures var stem, path := TrimSuffix(base, STRM), TaggedPath(base, version, tag);
            Tail(path) == "[" + tag + "]" + STRM && exists middle :: Extends(path, stem, middle)
  {
    WantedShape(base, version);
    ExtOfStrm(base);
    var middle := if version == "" then "" else " - " + version;
    assert '/' !in middle;
    TrimExtended(WantedPath(base, version), TrimSuffix(base, STRM), middle);
    TagAfter(TrimSuffix(base, STRM), middle, tag);
  }

  lemma TrimExtended(path: string, stem: string, middle: string)
    requires Extends(path, stem, middle)
    ensures TrimSuffix(path, STRM) == stem + middle
  {
    assert path == (stem + middle) + STRM;
  }

  lemma TagAfter(stem: string, middle: string, tag: string)
    requires '[' !in stem + middle && '/' !in middle && '[' !in tag && '/' !in tag
    ensures var path := stem + middle + " [" + tag + "]" + STRM;
            Tail(path) == "[" + tag + "]" + STRM && Extends(path, stem, middle + " [" + tag + "]")
  {
    var path := stem + middle + " [" + tag + "]" + STRM;
    assert path == (stem + middle + " ") + ("[" + tag + "]" + STRM);
    TailAfter(stem + middle + " ", "[" + tag + "]" + STRM);
    assert path == stem + (middle + " [" + tag + "]") + STRM;
  }

  lemma TagsAreClean(k: Key)
    requires CleanKey(k)
    ensures '[' !in TorrentTag(k) && '/' !in TorrentTag(k) && '[' !in FileTag(k) && '/' !in FileTag(k)
  {
  }

  lemma NoBracketNoTail(path: string)
    requires '[' !in path
    ensures Tail(path) == ""
  {
    TailAfter(path, "");
    assert path + "" == path;
  }

  ghost predicate CleanItem(cfg: Config, it: Item, base: string, version: string) {
    && CleanKey(it.key) && CleanName(base, version)
    && it.want == WantedPath(base, version)
    && it.alternates == Alternates(cfg, base, version, it.key)
  }

  /** Each candidate carries no tag or its own file's tag, and extends the stem. */
  lemma CandidateShape(cfg: Config, it: Item, base: string, version: string, path: string)
    requires LawfulSprintf(cfg.sprintf) && CleanItem(cfg, it, base, version) && path in Candidates(it)
    ensures Owned(it.key, path)
    ensures exists middle :: Extends(path, TrimSuffix(base, STRM), middle)
  {
    hide NumberedPattern, TaggedPath, Extends, Tail;
    var numbered := Numbered(cfg, NumberedPattern(base, version), 10);
    if path == it.want {
      WantedShape(base, version);
      NoBracketNoTail(path);
    } else if path in numbered {
      var i :| 0 <= i < |numbered| && path == numbered[i];
      NumberedShape(cfg.sprintf, base, version, i + 2);
      NoBracketNoTail(path);
    } else {
      TagsAreClean(it.key);
      assert path == TaggedPath(base, version, TorrentTag(it.key))
          || path == TaggedPath(base, version, FileTag(it.key));
      TaggedShape(base, version,
                  if path == TaggedPath(base, version, FileTag(it.key)) then FileTag(it.key) else TorrentTag(it.key));
    }
  }

  ghost predicate AllOwned(rows: map<Key, Row>) {
    forall k :: k in rows ==> CleanKey(k) && Owned(k, rows[k].strmPath)
  }

  lemma TagOfTail(tag1: string, tag2: string)
    ensures "[" + tag1 + "]" + STRM == "[" + tag2 + "]" + STRM ==> tag1 == tag2
  {
    var tail1, tail2 := "[" + tag1 + "]" + STRM, "[" + tag2 + "]" + STRM;
    assert tail1[1..|tail1| - 6] == tag1 && tail2[1..|tail2| - 6] == tag2;
  }

  /** uniquePath always finds a path for a cleanly named file. */
  lemma NeverExhausted(cfg: Config, rows: map<Key, Row>, it: Item, base: string, version: string)
    requires CleanItem(cfg, it, base, version) && AllOwned(rows)
    ensures !Exhausted(rows, it)
  {
    var path := TaggedPath(base, version, FileTag(it.key));
    TagsAreClean(it.key);
    TaggedShape(base, version, FileTag(it.key));
    assert Candidates(it)[10] == path;
    forall k | k in rows && k != it.key
      ensures rows[k].strmPath != path
    {
      FileTagUnique(it.key, k);
      TagOfTail(FileTag(it.key), FileTag(k));
      TagOfTail(FileTag(it.key), TorrentTag(k));
    }
    assert Free(rows, it.key, Candidates(it)[10]);
  }

  // ----- the candidates in words, and their order -----

  /** A stem with its version label, if it has one. */
  function Labelled(stem: string, version: string): string {
    if version == "" then stem else stem + " - " + version
  }

  /** The n-th alternate of a title without a label, or of a labelled one; n is a single digit. */
  function NumberedName(stem: string, version: string, n: nat): string
    requires n < 10
  {
    if version == "" then stem + " - Version " + [Digit(n)] + ".strm"
    else stem + " - " + version + " (" + [Digit(n)] + ").strm"
  }

  function TorrentName(stem: string, version: string, k: Key): string {
    Labelled(stem, version) + " [" + k.provider + "-" + k.torrent + "].strm"
  }

  function FileName(stem: string, version: string, k: Key): string {
    Labelled(stem, version) + " [" + k.provider + "-" + k.torrent + "-" + k.file + "].strm"
  }

  lemma WantedText(stem: string, version: string)
    ensures WantedPath(stem + ".strm", version) == Labelled(stem, version) + ".strm"
    ensures TrimSuffix(stem + ".strm", STRM) == stem
  {
    SuffixOfConcat(stem, STRM, STRM);
    ExtOfStrm(stem + ".strm");
  }

  lemma TaggedText(stem: string, version: string, tag: string)
    ensures TaggedPath(stem + ".strm", version, tag) == Labelled(stem, version) + " [" + tag + "]" + ".strm"
  {
    SuffixOfConcat(stem, STRM, STRM);
    ExtOfStrm(stem + ".strm");
    WantedText(stem, version);
    SuffixOfConcat(Labelled(stem, version), STRM, STRM);
    hide Ext, Labelled, WantedPath;
    var want := Labelled(stem, version) + ".strm";
    assert TrimSuffix(want, STRM) == Labelled(stem, version);
  }

  lemma FormatText(f: (string, nat) -> string, head: string, tail: string, n: nat)
    requires LawfulSprintf(f) && '%' !in head && '%' !in tail && n < 10
    ensures f(head + "%d" + tail, n) == head + [Digit(n)] + tail
  {
    assert Itoa(n) == [Digit(n)];
  }

  lemma LabelText(stem: string, version: string, d: string)
    ensures stem + (" - " + version + " (") + d + (")" + STRM) == stem + " - " + version + " (" + d + ").strm"
  {
    var head := stem + " - " + version + " (";
    assert stem + (" - " + version + " (") == head;
    assert head + d + (")" + STRM) == head + d + ").strm";
  }

  lemma NumberedText(f: (string, nat) -> string, stem: string, version: string, n: nat)
    requires LawfulSprintf(f) && CleanName(stem + ".strm", version) && n < 10
    ensures f(NumberedPattern(stem + ".strm", version), n) == NumberedName(stem, version, n)
  {
    var base := stem + ".strm";
    NumberedPatternIs(base, version);
    WantedText(stem, version);
    NoPercent(stem, ".strm");
    NoPercent(" - " + version, " (");
    hide NumberedPattern, TrimSuffix, HasSuffix, LawfulSprintf, Digit;
    if version == "" {
      FormatText(f, stem + " - Version ", "" + STRM, n);
      assert "" + STRM == ".strm";
    } else {
      var lead := " - " + version + " (";
      assert '%' !in stem + lead && '%' !in ")" + STRM;
      FormatText(f, stem + lead, ")" + STRM, n);
      LabelText(stem, version, [Digit(n)]);
    }
  }

  lemma NoPercent(a: string, b: string)
    ensures '%' in a + b <==> '%' in a || '%' in b
  {
  }

  /** The eleven candidates, in order. */
  lemma CandidatesText(cfg: Config, it: Item, stem: string, version: string)
    requires LawfulSprintf(cfg.sprintf) && CleanItem(cfg, it, stem + ".strm", version)
    ensures var c := Candidates(it);
            && |c| == 11 && c[0] == Labelled(stem, version) + ".strm"
            && (forall n :: 2 <= n <= 9 ==> c[n - 1] == NumberedName(stem, version, n))
            && c[9] == TorrentName(stem, version, it.key) && c[10] == FileName(stem, version, it.key)
  {
    var base := stem + ".strm";
    WantedText(stem, version);
    hide WantedPath, NumberedPattern, TaggedPath, NumberedName, Labelled;
    forall n | 2 <= n <= 9
      ensures Candidates(it)[n - 1] == NumberedName(stem, version, n)
    {
      NumberedText(cfg.sprintf, stem, version, n);
      assert Candidates(it)[n - 1] == cfg.sprintf(NumberedPattern(base, version), n);
    }
    TaggedText(stem, version, TorrentTag(it.key));
    TaggedText(stem, version, FileTag(it.key));
    TagText(Labelled(stem, version), it.key);
    assert Candidates(it)[9] == TaggedPath(base, version, TorrentTag(it.key));
    assert Candidates(it)[10] == TaggedPath(base, version, FileTag(it.key));
  }

  lemma TagText(head: string, k: Key)
    ensures head + " [" + TorrentTag(k) + "]" + ".strm" == head + " [" + k.provider + "-" + k.torrent + "].strm"
    ensures head + " [" + FileTag(k) + "]" + ".strm"
        == head + " [" + k.provider + "-" + k.torrent + "-" + k.file + "].strm"
  {
    var open := head + " [";
    assert open + (k.provider + "-" + k.torrent) + "]" + ".strm" == open + k.provider + "-" + k.torrent + "].strm";
    assert open + (k.provider + "-" + k.torrent + "-" + k.file) + "]" + ".strm"
        == open + k.provider + "-" + k.torrent + "-" + k.file + "].strm";
  }

  /** The n-th numbered alternate is the first that is free. */
  ghost predicate FirstNumber(rows: map<Key, Row>, k: Key, stem: string, version: string, n: nat)
  {
    && 2 <= n <= 9 && Free(rows, k, NumberedName(stem, version, n))
    && forall m :: 2 <= m < n ==> !Free(rows, k, NumberedName(stem, version, m))
  }

  ghost predicate NoNumber(rows: map<Key, Row>, k: Key, stem: string, version: string) {
    forall m :: 2 <= m <= 9 ==> !Free(rows, k, NumberedName(stem, version, m))
  }

  /** The path a file is to get: its own, when nobody else has it; else the first free of the numbers 2
      to 9; else the one with its torrent's tag, else the one with its own, and with everything taken
      its own path again. */
  ghost predicate Chosen(rows: map<Key, Row>, k: Key, stem: string, version: string, path: string) {
    var own := Labelled(stem, version) + ".strm";
    if Free(rows, k, own) then path == own
    else if !NoNumber(rows, k, stem, version) then
      exists n: nat :: FirstNumber(rows, k, stem, version, n) && path == NumberedName(stem, version, n)
    else if Free(rows, k, TorrentName(stem, version, k)) then path == TorrentName(stem, version, k)
    else if Free(rows, k, FileName(stem, version, k)) then path == FileName(stem, version, k)
    else path == own
  }

  /** A cleanly named file gets that path. */
  lemma PathChosen(cfg: Config, rows: map<Key, Row>, it: Item, stem: string, version: string)
    requires LawfulSprintf(cfg.sprintf) && CleanItem(cfg, it, stem + ".strm", version)
    ensures Chosen(rows, it.key, stem, version, UniquePath(rows, it))
  {
    var c, k := Candidates(it), it.key;
    CandidatesText(cfg, it, stem, version);
    var i := FirstFree(rows, k, c);
    assert UniquePath(rows, it) == if i < |c| then c[i] else c[0];
    hide CleanItem, Candidates, Free, NumberedName, TorrentName, FileName, Labelled, FirstFree, LawfulSprintf,
        UniquePath;
    FirstIsChosen(rows, k, c, i, stem, version);
  }

  lemma FirstIsChosen(rows: map<Key, Row>, k: Key, c: seq<string>, i: nat, stem: string, version: string)
    requires |c| == 11 && i <= 11 && (i < 11 ==> Free(rows, k, c[i])) && forall j :: 0 <= j < i ==> !Free(rows, k, c[j])
    requires forall n :: 2 <= n <= 9 ==> c[n - 1] == NumberedName(stem, version, n)
    ensures if Free(rows, k, c[0]) then i == 0
            else if !NoNumber(rows, k, stem, version) then 1 <= i <= 8 && FirstNumber(rows, k, stem, version, i + 1)
            else i == if Free(rows, k, c[9]) then 9 else if Free(rows, k, c[10]) then 10 else 11
  {
    hide Free, NumberedName;
    if !Free(rows, k, c[0]) {
      if NoNumber(rows, k, stem, version) {
        assert forall j :: 1 <= j <= 8 ==> c[j] == NumberedName(stem, version, j + 1);
      } else {
        var n :| 2 <= n <= 9 && Free(rows, k, NumberedName(stem, version, n));
        assert c[n - 1] == NumberedName(stem, version, n);
        assert i <= n - 1 && c[i] == NumberedName(stem, version, i + 1);
        assert forall m :: 2 <= m < i + 1 ==> c[m - 1] == NumberedName(stem, version, m);
      }
    }
  }

  // ----- every candidate is a library path -----

  lemma ExtendsStays(root: string, path: string, stem: string, middle: string)
    requires Extends(path, stem, middle) && Within(root, path)
    ensures Within(root, stem + STRM)
  {
    assert path[|root|] == '/';
    assert root + "/" == path[..|root| + 1] == (stem + STRM)[..|root| + 1];
  }

  /** Every candidate of a library path is one: a .strm inside the library and outside a
      separate download folder. */
  lemma CleanItemIsLibraryItem(cfg: Config, it: Item, base: string, version: string)
    requires LawfulSprintf(cfg.sprintf) && CleanItem(cfg, it, base, version) && LibraryPath(cfg.roots, base)
    ensures LibraryItem(cfg.roots, it) && StrmItem(it)
  {
    forall path | path in Candidates(it)
      ensures LibraryPath(cfg.roots, path)
    {
      CandidateShape(cfg, it, base, version, path);
      hide CleanItem, Candidates;
      ExtensionInLibrary(cfg.roots, base, path);
    }
  }

  lemma ExtensionInLibrary(r: Roots, base: string, path: string)
    requires LibraryPath(r, base) && exists middle :: Extends(path, TrimSuffix(base, STRM), middle)
    ensures LibraryPath(r, path)
  {
    var stem := TrimSuffix(base, STRM);
    assert base == stem + STRM;
    var middle :| Extends(path, stem, middle);
    SuffixOfConcat(stem + middle, STRM, STRM);
    assert Extends(base, stem, "");
    ExtendsBack(r.library, path, stem, middle);
    if Within(r.downloads, path) {
      ExtendsStays(r.downloads, path, stem, middle);
    }
  }

  lemma ExtendsBack(root: string, path: string, stem: string, middle: string)
    requires Extends(path, stem, middle) && Within(root, stem + STRM)
    ensures Within(root, path)
  {
    assert (stem + STRM)[|root|] == '/';
    assert root + "/" == (stem + STRM)[..|root| + 1] == path[..|root| + 1];
  }

  // ----- runs over cleanly named clouds -----

  ghost predicate CleanItems(cfg: Config, items: seq<Item>) {
    forall i :: 0 <= i < |items| ==>
      StrmItem(items[i]) && exists base, version :: CleanItem(cfg, items[i], base, version)
  }

  lemma StepStaysOwned(cfg: Config, s: State, it: Item, stamp: int)
    requires LawfulSprintf(cfg.sprintf) && AllOwned(s.rows)
    requires exists base, version :: CleanItem(cfg, it, base, version)
    ensures !Exhausted(s.rows, it) && AllOwned(Step(cfg.roots, s, it, stamp).rows)
  {
    var base, version :| CleanItem(cfg, it, base, version);
    NeverExhausted(cfg, s.rows, it, base, version);
    UniquePathIsCandidate(s.rows, it);
    CandidateShape(cfg, it, base, version, UniquePath(s.rows, it));
    StepRowsAre(cfg.roots, s, it, stamp);
  }

  lemma {:induction false} RunStaysOwned(cfg: Config, s: State, items: seq<Item>, stamp: int)
    requires LawfulSprintf(cfg.sprintf) && AllOwned(s.rows) && CleanItems(cfg, items)
    ensures Smooth(cfg.roots, s, items, stamp) && AllOwned(Run(cfg.roots, s, items, stamp).rows)
  {
    if items == [] {
    } else {
      var front, last := items[..|items| - 1], items[|items| - 1];
      assert forall i :: 0 <= i < |front| ==> front[i] == items[i];
      RunStaysOwned(cfg, s, front, stamp);
      StepStaysOwned(cfg, Run(cfg.roots, s, front, stamp), last, stamp);
      SmoothLast(cfg.roots, s, items, stamp);
    }
  }

  lemma SmoothLast(r: Roots, s: State, items: seq<Item>, stamp: int)
    requires items != [] && Smooth(r, s, items[..|items| - 1], stamp)
    requires !Exhausted(Run(r, s, items[..|items| - 1], stamp).rows, items[|items| - 1])
    ensures Smooth(r, s, items, stamp)
  {
    var front := items[..|items| - 1];
    forall i | 0 <= i < |items|
      ensures !Exhausted(Run(r, s, items[..i], stamp).rows, items[i])
    {
      assert i < |front| ==> items[..i] == front[..i] && items[i] == front[i];
      assert i == |front| ==> items[..i] == front;
    }
  }

  ghost predicate CleanEvent(cfg: Config, e: Event) {
    WellFormed(e) && (e.SyncEvent? ==> CleanItems(cfg, e.items))
  }

  /** Over every run of syncs, torrent removals and wipes of cleanly named clouds, no two rows
      ever share a .strm path: no sync runs out of alternates. */
  lemma {:induction false} CleanRunsStayHealthy(cfg: Config, s: State, events: seq<Event>)
    requires LawfulSprintf(cfg.sprintf) && Healthy(s) && AllOwned(s.rows)
    requires forall i :: 0 <= i < |events| ==> CleanEvent(cfg, events[i])
    ensures Healthy(After(cfg.roots, s, events)) && AllOwned(After(cfg.roots, s, events).rows)
  {
    if events == [] {
    } else {
      var front, last := events[..|events| - 1], events[|events| - 1];
      assert forall i :: 0 <= i < |front| ==> front[i] == events[i];
      CleanRunsStayHealthy(cfg, s, front);
      var mid := After(cfg.roots, s, front);
      if last.SyncEvent? {
        RunStaysOwned(cfg, mid, last.items, last.stamp);
      }
      EventKeepsHealthy(cfg.roots, mid, last);
    }
  }

  /** And no sync of such a run finds all alternates of a file taken. */
  lemma CleanRunsAreSmooth(cfg: Config, s: State, events: seq<Event>)
    requires LawfulSprintf(cfg.sprintf) && Healthy(s) && AllOwned(s.rows)
    requires forall i :: 0 <= i < |events| ==> CleanEvent(cfg, events[i])
    ensures SmoothRun(cfg.roots, s, events)
  {
    hide CleanItems, AllOwned, After, Smooth, LawfulSprintf, WellFormed;
    forall i | 0 <= i < |events|
      ensures WellFormed(events[i]) && SmoothEvent(cfg.roots, After(cfg.roots, s, events[..i]), events[i])
    {
      assert CleanEvent(cfg, events[i]);
      CleanRunsStayHealthy(cfg, s, events[..i]);
      if events[i].SyncEvent? {
        RunStaysOwned(cfg, After(cfg.roots, s, events[..i]), events[i].items, events[i].stamp);
      }
    }
  }
}
