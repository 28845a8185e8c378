/** Slash-separated absolute paths in cleaned form, and where a downloaded copy of a
    library file goes (internal/strm/local.go). */
module Paths {
  import opened Text

  const STRM := ".strm"

  /** filepath.Ext: the suffix from the last dot of the last path element. */
  function Ext(path: string): string {
    if path == "" then ""
    else
      var c := path[|path| - 1];
      if c == '/' then ""
      else if c == '.' then "."
      else
        var e := Ext(path[..|path| - 1]);
        if e == "" then "" else e + [c]
  }

  function Lower(s: string): (r: string)
    ensures |r| == |s|
    ensures forall i :: 0 <= i < |s| ==> r[i] == LowerChar(s[i])
  {
    if s == "" then "" else [LowerChar(s[0])] + Lower(s[1..])
  }

  function LowerChar(c: char): (r: char)
    ensures r == '.' <==> c == '.'
    ensures r == '/' <==> c == '/'
  {
    if 'A' <= c <= 'Z' then (c as int + 32) as char else c
  }

  /** One dot, at the front, and no slash: what Ext returns when it finds a dot. */
  predicate Dotted(e: string) {
    |e| >= 1 && e[0] == '.' && forall i :: 1 <= i < |e| ==> e[i] != '.' && e[i] != '/'
  }

  lemma {:induction false} ExtIsDotted(path: string)
    ensures Ext(path) == "" || Dotted(Ext(path))
  {
    if path != "" && path[|path| - 1] != '/' && path[|path| - 1] != '.' {
      ExtIsDotted(path[..|path| - 1]);
    }
  }

  lemma {:induction false} ExtOfStem(stem: string, e: string)
    requires Dotted(e)
    ensures Ext(stem + e) == e
  {
    var p := stem + e;
    if |e| == 1 {
    } else {
      assert p[..|p| - 1] == stem + e[..|e| - 1];
      ExtOfStem(stem, e[..|e| - 1]);
    }
  }

  /** Ext looks at the last path element only. */
  lemma {:induction false} ExtOfLastElement(a: string, b: string, rest: string)
    ensures Ext(a + "/" + rest) == Ext(b + "/" + rest)
  {
    var p, q := a + "/" + rest, b + "/" + rest;
    if rest == "" {
    } else {
      var n := |rest| - 1;
      assert p[..|p| - 1] == a + "/" + rest[..n];
      assert q[..|q| - 1] == b + "/" + rest[..n];
      ExtOfLastElement(a, b, rest[..n]);
    }
  }

  /** The extension a local copy of srcPath gets. */
  function CopyExt(srcPath: string): (e: string)
    ensures Dotted(e) && e != STRM
  {
    var e := Lower(Ext(srcPath));
    ExtIsDotted(srcPath);
    if e == "" || e == STRM then ".mkv" else e
  }

  function LocalPathFor(strmPath: string, srcPath: string): string {
    TrimSuffix(strmPath, STRM) + CopyExt(srcPath)
  }

  /** A local copy is never named like a .strm file. */
  lemma LocalPathIsNotStrm(strmPath: string, srcPath: string)
    ensures Ext(LocalPathFor(strmPath, srcPath)) == CopyExt(srcPath)
    ensures !HasSuffix(LocalPathFor(strmPath, srcPath), STRM)
  {
    var path := LocalPathFor(strmPath, srcPath);
    ExtOfStem(TrimSuffix(strmPath, STRM), CopyExt(srcPath));
    StrmSuffixIsExt(path);
  }

  lemma StrmSuffixIsExt(path: string)
    ensures HasSuffix(path, STRM) ==> Ext(path) == STRM
  {
    if HasSuffix(path, STRM) {
      assert path == TrimSuffix(path, STRM) + STRM;
      ExtOfStem(TrimSuffix(path, STRM), STRM);
    }
  }

  /** Different .strm paths get different copies, whatever the source files are called. */
  lemma LocalPathInjective(strm1: string, src1: string, strm2: string, src2: string)
    requires HasSuffix(strm1, STRM) && HasSuffix(strm2, STRM)
    requires LocalPathFor(strm1, src1) == LocalPathFor(strm2, src2)
    ensures strm1 == strm2
  {
    var stem1, stem2 := TrimSuffix(strm1, STRM), TrimSuffix(strm2, STRM);
    LocalPathIsNotStrm(strm1, src1);
    LocalPathIsNotStrm(strm2, src2);
    assert CopyExt(src1) == CopyExt(src2);
    assert stem1 == LocalPathFor(strm1, src1)[..|stem1|] == LocalPathFor(strm2, src2)[..|stem2|] == stem2;
    assert strm1 == stem1 + STRM && strm2 == stem2 + STRM;
  }

  // ----- extensions in words -----

  const CAPITALS := "ABCDEFGHIJKLMNOPQRSTUVWXYZ"
  const SMALLS := "abcdefghijklmnopqrstuvwxyz"

  /** The text in small letters. */
  ghost predicate SmallOf(e: string, small: string) {
    |small| == |e| && forall i :: 0 <= i < |e| ==> SmallChar(e[i], small[i])
  }

  ghost predicate SmallChar(c: char, d: char) {
    if c in CAPITALS then exists n :: 0 <= n < 26 && CAPITALS[n] == c && SMALLS[n] == d else d == c
  }

  lemma SmallIsLower(e: string, small: string)
    requires SmallOf(e, small)
    ensures Lower(e) == small
  {
    forall i | 0 <= i < |e|
      ensures LowerChar(e[i]) == small[i]
    {
      assert SmallChar(e[i], small[i]);
      LowerCharIs(e[i], small[i]);
    }
  }

  lemma LowerCharIs(c: char, d: char)
    requires SmallChar(c, d)
    ensures LowerChar(c) == d
  {
    if c in CAPITALS {
      var n :| 0 <= n < 26 && CAPITALS[n] == c && SMALLS[n] == d;
      LetterAt(n);
    } else {
      NoCapital(c);
    }
  }

  lemma NoCapital(c: char)
    requires c !in CAPITALS
    ensures LowerChar(c) == c
  {
    if 'A' <= c <= 'Z' {
      LetterAt(c as int - 'A' as int);
    }
  }

  lemma LetterAt(n: nat)
    requires n < 26
    ensures CAPITALS[n] as int == 'A' as int + n && SMALLS[n] as int == 'a' as int + n
  {
  }

  lemma {:induction false} NoDotNoExt(head: string, name: string)
    requires NoDotName(head, name)
    ensures Ext(head + name) == ""
  {
    if name == "" {
      assert head + name == head;
    } else {
      var path, n := head + name, |name| - 1;
      assert path[..|path| - 1] == head + name[..n];
      NoDotNoExt(head, name[..n]);
    }
  }

  /** The extension a copy of the file keeps: its own in small letters; .mkv for a .strm and for a name
      without one. */
  ghost predicate KeepsExt(src: string, ext: string) {
    || (exists name: string, e: string :: src == name + e && Dotted(e) && SmallOf(e, ext) && ext != ".strm")
    || (ext == ".mkv" && ((exists name: string, e: string :: src == name + e && Dotted(e) && SmallOf(e, ".strm"))
                          || exists head: string, name: string :: src == head + name && NoDotName(head, name)))
  }

  /** The last element of the path has no dot. */
  predicate NoDotName(head: string, name: string) {
    '.' !in name && '/' !in name && (head == "" || head[|head| - 1] == '/')
  }

  lemma CopyExtText(src: string, ext: string)
    requires KeepsExt(src, ext)
    ensures CopyExt(src) == ext
  {
    if exists name: string, e: string :: src == name + e && Dotted(e) && SmallOf(e, ext) && ext != ".strm" {
      var name: string, e: string :| src == name + e && Dotted(e) && SmallOf(e, ext);
      ExtOfStem(name, e);
      SmallIsLower(e, ext);
    } else if exists name: string, e: string :: src == name + e && Dotted(e) && SmallOf(e, ".strm") {
      var name: string, e: string :| src == name + e && Dotted(e) && SmallOf(e, ".strm");
      ExtOfStem(name, e);
      SmallIsLower(e, ".strm");
    } else {
      var head: string, name: string :| src == head + name && NoDotName(head, name);
      NoDotNoExt(head, name);
    }
  }

  /** A local copy takes the .strm's place and keeps its file's extension. */
  lemma CopyKeepsExtension(stem: string, src: string, ext: string)
    requires KeepsExt(src, ext)
    ensures LocalPathFor(stem + ".strm", src) == stem + ext
  {
    CopyExtText(src, ext);
    SuffixOfConcat(stem, STRM, STRM);
    assert TrimSuffix(stem + ".strm", STRM) == stem;
  }

  /** within: path lies strictly inside root. */
  predicate Within(root: string, path: string) {
    |path| > |root| + 1 && root + "/" <= path
  }

  function Join(root: string, rel: string): string {
    root + "/" + rel
  }

  function Rel(root: string, path: string): (rel: string)
    requires Within(root, path)
    ensures Join(root, rel) == path && rel != ""
  {
    path[|root| + 1..]
  }

  datatype Roots = Roots(library: string, downloads: string)

  /** The root a local copy lives under, the download folder first; "" when under neither. */
  function CopyRoot(r: Roots, path: string): string {
    if Within(r.downloads, path) then r.downloads
    else if Within(r.library, path) then r.library
    else ""
  }

  /** Where the copy belonging to a .strm path sits under a given root. */
  function CopyHome(r: Roots, root: string, strmPath: string, srcPath: string): string
    requires Within(r.library, strmPath)
  {
    LocalPathWithin(r.library, strmPath, srcPath);
    Join(root, Rel(r.library, LocalPathFor(strmPath, srcPath)))
  }

  /** The path a finished copy is moved to: there is one exactly for a copy that is in the library
      and not under the download root yet, and it keeps its place below the root. */
  function MoveTarget(r: Roots, localPath: string): (t: string)
    ensures t != "" <==> CopyRoot(r, localPath) != "" && !Within(r.downloads, localPath)
    ensures r.library != "" ==> (t != "" <==> Within(r.library, localPath) && !Within(r.downloads, localPath))
    ensures t != "" ==> Within(r.library, localPath) && Within(r.downloads, t)
                        && Rel(r.downloads, t) == Rel(r.library, localPath)
  {
    var root := CopyRoot(r, localPath);
    if root == "" || root == r.downloads then ""
    else Join(r.downloads, Rel(root, localPath))
  }

  lemma LocalPathWithin(root: string, strmPath: string, srcPath: string)
    ensures Within(root, strmPath) ==> Within(root, LocalPathFor(strmPath, srcPath))
  {
    if Within(root, strmPath) {
      var stem := TrimSuffix(strmPath, STRM);
      assert strmPath[|root|] == '/';
      assert |stem| < |strmPath| ==> forall i :: |stem| <= i < |strmPath| ==> strmPath[i] == STRM[i - |stem|];
      assert LocalPathFor(strmPath, srcPath)[..|root| + 1] == strmPath[..|root| + 1];
    }
  }

  /** The same copy root and the same destination come only from the same .strm path, and a
      destination is never named like a .strm file. */
  lemma CopyHomeInjective(r: Roots, root: string, strm1: string, src1: string, strm2: string, src2: string)
    requires HasSuffix(strm1, STRM) && HasSuffix(strm2, STRM)
    requires Within(r.library, strm1) && Within(r.library, strm2)
    requires CopyHome(r, root, strm1, src1) == CopyHome(r, root, strm2, src2)
    ensures strm1 == strm2
  {
    LocalPathWithin(r.library, strm1, src1);
    LocalPathWithin(r.library, strm2, src2);
    var rel1 := Rel(r.library, LocalPathFor(strm1, src1));
    var rel2 := Rel(r.library, LocalPathFor(strm2, src2));
    assert rel1 == Join(root, rel1)[|root| + 1..] == Join(root, rel2)[|root| + 1..] == rel2;
    LocalPathInjective(strm1, src1, strm2, src2);
  }

  lemma BelowRoot(root: string, rel: string, ext: string)
    requires ext != ""
    ensures Within(root, root + "/" + rel + ext) && Rel(root, root + "/" + rel + ext) == rel + ext
    ensures Join(root, rel + ext) == root + "/" + rel + ext
  {
    var path := root + "/" + rel + ext;
    assert path[..|root| + 1] == root + "/" && path[|root| + 1..] == rel + ext;
  }

  /** Under either root a copy keeps its place below the library. */
  lemma CopyHomeText(r: Roots, root: string, rel: string, src: string, ext: string)
    requires KeepsExt(src, ext)
    ensures Within(r.library, r.library + "/" + rel + ".strm")
    ensures CopyHome(r, root, r.library + "/" + rel + ".strm", src) == root + "/" + rel + ext
  {
    var path := r.library + "/" + rel + ".strm";
    CopyExtText(src, ext);
    BelowRoot(r.library, rel, ".strm");
    BelowRoot(r.library, rel, ext);
    BelowRoot(root, rel, ext);
    LocalPathWithin(r.library, path, src);
    CopyKeepsExtension(r.library + "/" + rel, src, ext);
    hide Within, LocalPathFor, KeepsExt, Dotted, Join;
  }

  lemma CopyHomeIsNotStrm(r: Roots, root: string, strmPath: string, srcPath: string)
    requires Within(r.library, strmPath)
    ensures !HasSuffix(CopyHome(r, root, strmPath, srcPath), STRM)
  {
    LocalPathWithin(r.library, strmPath, srcPath);
    LocalPathIsNotStrm(strmPath, srcPath);
    var path := LocalPathFor(strmPath, srcPath);
    ExtOfLastElement(root, r.library, Rel(r.library, path));
    StrmSuffixIsExt(CopyHome(r, root, strmPath, srcPath));
  }
}
