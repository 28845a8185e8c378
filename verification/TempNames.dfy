/** The staging file of an entry is named after its provider, torrent and file IDs
    (internal/download/download.go). */
module TempNames {
  import opened Library
  import opened LibraryNames

  predicate SafeChar(c: char) {
    'A' <= c <= 'Z' || 'a' <= c <= 'z' || '0' <= c <= '9' || c == '_' || c == '-'
  }

  /** unsafeName.ReplaceAllString(s, "_"). */
  function Safe(s: string): (r: string)
    ensures |r| == |s|
    ensures forall i :: 0 <= i < |s| ==> r[i] == if SafeChar(s[i]) then s[i] else '_'
  {
    if s == "" then "" else [if SafeChar(s[0]) then s[0] else '_'] + Safe(s[1..])
  }

  /** The file name in tempPath. */
  function TempName(k: Key): string {
    Safe(k.provider) + "-" + Safe(k.torrent) + "-" + Safe(k.file) + ".part"
  }

  /** The parts of the name before its end. */
  function SafeParts(k: Key): (string, string, string) {
    (Safe(k.provider), Safe(k.torrent), Safe(k.file))
  }

  /** IDs of letters, digits and underscores. */
  predicate PlainId(s: string) {
    forall i :: 0 <= i < |s| ==> SafeChar(s[i]) && s[i] != '-'
  }

  lemma SafeKeepsDashes(s: string)
    ensures '-' in Safe(s) <==> '-' in s
  {
    if '-' in s {
      var i :| 0 <= i < |s| && s[i] == '-';
      assert Safe(s)[i] == '-';
    }
    if '-' in Safe(s) {
      var i :| 0 <= i < |s| && Safe(s)[i] == '-';
      assert s[i] == '-';
    }
  }

  lemma {:induction false} SplitAtLastDash(a: string, b: string, c: string, d: string)
    requires '-' !in b && '-' !in d && a + "-" + b == c + "-" + d
    ensures a == c && b == d
  {
    var s := a + "-" + b;
    assert s[|a|] == '-' && s[|c|] == '-';
    assert forall i :: |a| < i < |s| ==> s[i] == b[i - |a| - 1];
    assert forall i :: |c| < i < |s| ==> s[i] == d[i - |c| - 1];
    assert |a| == |c|;
    assert a == s[..|a|] == c && b == s[|a| + 1..] == d;
  }

  lemma SameBeforeEnd(a: string, b: string, end: string)
    requires a + end == b + end
    ensures a == b
  {
    assert a == (a + end)[..|a|] && b == (b + end)[..|b|];
  }

  /** When provider and file IDs have no dash, two entries share a staging file exactly when their
      IDs differ in replaced characters only; dashes in torrent IDs do no harm. */
  lemma TempNamesEqual(k1: Key, k2: Key)
    requires '-' !in k1.provider && '-' !in k2.provider && '-' !in k1.file && '-' !in k2.file
    ensures TempName(k1) == TempName(k2) <==> SafeParts(k1) == SafeParts(k2)
  {
    if TempName(k1) == TempName(k2) {
      var (p1, t1, f1) := SafeParts(k1);
      var (p2, t2, f2) := SafeParts(k2);
      SafeKeepsDashes(k1.provider);
      SafeKeepsDashes(k2.provider);
      SafeKeepsDashes(k1.file);
      SafeKeepsDashes(k2.file);
      SameBeforeEnd(p1 + "-" + t1 + "-" + f1, p2 + "-" + t2 + "-" + f2, ".part");
      SplitAtLastDash(p1 + "-" + t1, f1, p2 + "-" + t2, f2);
      SplitAtDash(p1, t1, p2, t2);
    }
  }

  /** Entries with plain IDs have staging files of their own. */
  lemma TempNamesDiffer(k1: Key, k2: Key)
    requires PlainId(k1.provider) && PlainId(k1.torrent) && PlainId(k1.file)
    requires PlainId(k2.provider) && PlainId(k2.torrent) && PlainId(k2.file)
    ensures TempName(k1) == TempName(k2) <==> k1 == k2
  {
    TempNamesEqual(k1, k2);
    SafeKeeps(k1);
    SafeKeeps(k2);
  }

  lemma SafeKeeps(k: Key)
    requires PlainId(k.provider) && PlainId(k.torrent) && PlainId(k.file)
    ensures SafeParts(k) == (k.provider, k.torrent, k.file)
  {
    assert Safe(k.provider) == k.provider && Safe(k.torrent) == k.torrent && Safe(k.file) == k.file;
  }

  /** Other IDs can share one: a dot and an underscore are named alike, ... */
  lemma DotsCollide(provider: string, file: string)
    ensures TempName(Key(provider, "a.b", file)) == TempName(Key(provider, "a_b", file))
  {
    assert Safe("a.b") == "a_b" == Safe("a_b");
  }

  /** ... and a dash in a file ID can belong to the torrent's: no numbered file has one, but TorBox
      IDs that arrive as strings are taken as they are. */
  lemma DashesCollide()
    ensures TempName(Key("torbox", "a-b", "1")) == TempName(Key("torbox", "a", "b-1"))
  {
    assert Safe("a-b") == "a-b" && Safe("b-1") == "b-1" && Safe("a") == "a" && Safe("1") == "1";
    hide Safe;
    var head := Safe("torbox") + "-";
    assert head + "a-b" + "-" + "1" + ".part" == head + "a-b-1.part" == head + "a" + "-" + "b-1" + ".part";
  }
}
