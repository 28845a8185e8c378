/** Concrete libraries in which a sync loses a copy: the source of a Move in progress, an orphan, and
    a finished copy at its row's place (internal/strm/local.go). */
module CopyLossExamples {
  import opened Text
  import opened Paths
  import opened Library
  import opened LibrarySafety
  import opened LibraryCopies

  // ----- a Move in progress -----

  /** Both copies are at home: a's at x, which a Move is reading, and b's at y. In the next sync a's
      file wants to be at z and b's at x. */
  ghost predicate MovingAt(r: Roots, a: Key, b: Key, s: State, x: string, y: string, z: string, root: string) {
    && a != b && x != y && x != z && y != z
    && x + STRM != y + STRM && x + STRM != z + STRM && y + STRM != z + STRM
    && s == State(map[a := Row("", "f.mkv", 0, x + STRM, 0), b := Row("", "f.mkv", 0, y + STRM, 0)],
                  map[a := Copy(Moving, x + ".mkv"), b := Copy(Done, y + ".mkv")],
                  map[x + ".mkv" := "old", y + ".mkv" := "new"], 0)
    && CopyRoot(r, y + ".mkv") == root != "" && Within(r.library, x + STRM)
    && CopyHome(r, root, x + STRM, "f.mkv") == x + ".mkv"
  }

  /** A file that wants a path, with any ten alternates. */
  function Wants(k: Key, stem: string, others: seq<string>): Item {
    Item(k, "", "f.mkv", 0, stem + STRM, others, "u")
  }

  predicate TenStrms(others: seq<string>) {
    |others| == 10 && forall p :: p in others ==> HasSuffix(p, STRM)
  }

  lemma WantsIsStrm(k: Key, stem: string, others: seq<string>)
    requires TenStrms(others)
    ensures StrmItem(Wants(k, stem, others))
  {
    hide HasSuffix;
    StrmAndMkv(stem);
  }

  lemma MovingShape(r: Roots, a: Key, b: Key, s: State, x: string, y: string, z: string, root: string)
    requires MovingAt(r, a, b, s, x, y, z, root)
    ensures Shaped(s)
  {
    hide CopyRoot, CopyHome, Within, HasSuffix;
    StrmAndMkv(x);
    StrmAndMkv(y);
  }

  lemma WantsGets(rows: map<Key, Row>, k: Key, stem: string, others: seq<string>)
    requires forall k' :: k' in rows && k' != k ==> rows[k'].strmPath != stem + STRM
    ensures UniquePath(rows, Wants(k, stem, others)) == stem + STRM
  {
    assert Candidates(Wants(k, stem, others))[0] == stem + STRM;
  }

  /** The sync places a's file at z and leaves its copy, ... */
  lemma FirstStaysPut(r: Roots, a: Key, b: Key, s: State, x: string, y: string, z: string, root: string,
                      others: seq<string>)
    requires MovingAt(r, a, b, s, x, y, z, root) && TenStrms(others)
    ensures var mid := Step(r, s, Wants(a, z, others), 0);
            && Shaped(mid) && mid.copies == s.copies
            && mid.rows == s.rows[a := Row("", "f.mkv", 0, z + STRM, 0)]
            && SameAt(s.disk, mid.disk, y + ".mkv")
  {
    hide Step, UniquePath, CopyRoot, CopyHome, Within, HasSuffix, Shaped, StrmItem;
    MovingShape(r, a, b, s, x, y, z, root);
    WantsIsStrm(a, z, others);
    WantsGets(s.rows, a, z, others);
    MovingIsLeft(r, s, Wants(a, z, others));
    StrmAndMkv(y);
    StepKeepsShape(r, s, Wants(a, z, others), 0);
    StepRowsAre(r, s, Wants(a, z, others), 0);
    StepOnCopies(r, s, Wants(a, z, others), 0);
  }

  lemma MovingIsLeft(r: Roots, s: State, it: Item)
    requires s.HasCopy(it.key) && s.copies[it.key].status.Moving?
    ensures !MovesCopy(r, s, it)
  {
  }

  /** ... and then renames b's copy onto it. */
  lemma SecondMoves(r: Roots, a: Key, b: Key, s: State, mid: State, x: string, y: string, z: string, root: string,
                    others: seq<string>)
    requires MovingAt(r, a, b, s, x, y, z, root) && mid.copies == s.copies
    requires mid.rows == s.rows[a := Row("", "f.mkv", 0, z + STRM, 0)] && SameAt(s.disk, mid.disk, y + ".mkv")
    ensures var it := Wants(b, x, others);
            && MovesCopy(r, mid, it)
            && CopyWanted(r, mid.copies[b], UniquePath(mid.rows, it), it.filePath) == x + ".mkv" != y + ".mkv"
  {
    WantsGets(mid.rows, b, x, others);
    assert x + ".mkv" != y + ".mkv" by {
      assert (x + ".mkv")[..|x|] == x && (y + ".mkv")[..|y|] == y;
    }
    hide UniquePath, CopyRoot, CopyHome, HasSuffix;
  }

  lemma SecondOverwrites(r: Roots, a: Key, b: Key, s: State, mid: State, x: string, y: string, z: string, root: string,
                         others: seq<string>)
    requires MovingAt(r, a, b, s, x, y, z, root) && TenStrms(others) && Shaped(mid) && mid.copies == s.copies
    requires mid.rows == s.rows[a := Row("", "f.mkv", 0, z + STRM, 0)] && SameAt(s.disk, mid.disk, y + ".mkv")
    ensures Overwritten(Step(r, mid, Wants(b, x, others), 0), a, x)
  {
    hide Step, UniquePath, CopyRoot, CopyHome, HasSuffix, Shaped, Within, CopyWanted, MovesCopy, TenStrms, StrmItem;
    WantsIsStrm(b, x, others);
    SecondMoves(r, a, b, s, mid, x, y, z, root, others);
    StepOnCopies(r, mid, Wants(b, x, others), 0);
  }

  lemma RunOfTwo(r: Roots, s: State, first: Item, second: Item, stamp: int)
    ensures Run(r, s, [first, second], stamp) == Step(r, Step(r, s, first, stamp), second, stamp)
  {
    hide Step;
    assert [first, second][..1] == [first] && [first][..0] == [];
    assert Run(r, s, [first], stamp) == Step(r, s, first, stamp);
  }

  /** a's row still says that a Move is reading the copy at x, and that file holds other content. */
  predicate Overwritten(t: State, a: Key, x: string) {
    && a in t.copies && t.copies[a] == Copy(Moving, x + ".mkv")
    && x + ".mkv" in t.disk && t.disk[x + ".mkv"] == "new"
  }

  lemma MovingIsLost(r: Roots, a: Key, b: Key, s: State, x: string, y: string, z: string, root: string, name: string,
                     others: seq<string>)
    requires MovingAt(r, a, b, s, x, y, z, root) && TenStrms(others)
    ensures Overwritten(Sync(r, s, name, [Wants(a, z, others), Wants(b, x, others)], 0, 0), a, x)
  {
    var items := [Wants(a, z, others), Wants(b, x, others)];
    var mid, ran := Step(r, s, Wants(a, z, others), 0), Run(r, s, items, 0);
    RunOfTwo(r, s, Wants(a, z, others), Wants(b, x, others), 0);
    MovingShape(r, a, b, s, x, y, z, root);
    WantsIsStrm(b, x, others);
    hide Run, Step, MovingAt, Shaped, RemoveRows;
    FirstStaysPut(r, a, b, s, x, y, z, root, others);
    SecondOverwrites(r, a, b, s, mid, x, y, z, root, others);
    StepKeepsShape(r, mid, Wants(b, x, others), 0);
    PruneKeepsCopies(ran, Stale(ran.rows, name, Seen(items), 0));
  }

  lemma MovingHomes(r: Roots, a: Key, b: Key, s: State, x: string, y: string, z: string, root: string)
    requires MovingAt(r, a, b, s, x, y, z, root) && LibraryPath(r, x + STRM) && LibraryPath(r, y + STRM)
    requires CopyRoot(r, x + ".mkv") == root && CopyHome(r, root, y + STRM, "f.mkv") == y + ".mkv"
    ensures AllHome(r, s)
  {
    hide CopyRoot, CopyHome, Within, HasSuffix;
    forall k | s.HasCopy(k)
      ensures Home(r, s, k)
    {
      assert k == a || k == b;
    }
  }

  /** A copy that a Move is reading is not relocated, but nothing keeps its place for it: here both
      copies are at home, and after one sync the row of a, still moving, has b's content. */
  lemma MovingIsOverwritten(r: Roots, a: Key, b: Key, s: State, name: string, others: seq<string>)
    requires r == Roots("/m", "/d") && a != b && TenStrms(others)
    requires s == State(map[a := Row("", "f.mkv", 0, "/m/x" + STRM, 0), b := Row("", "f.mkv", 0, "/m/y" + STRM, 0)],
                        map[a := Copy(Moving, "/m/x" + ".mkv"), b := Copy(Done, "/m/y" + ".mkv")],
                        map["/m/x" + ".mkv" := "old", "/m/y" + ".mkv" := "new"], 0)
    ensures AllHome(r, s)
    ensures Overwritten(Sync(r, s, name, [Wants(a, "/m/z", others), Wants(b, "/m/x", others)], 0, 0), a, "/m/x")
  {
    hide CopyRoot, CopyHome, Within, Run, LibraryPath, Sync, Overwritten, AllHome;
    MovingPaths(r);
    MovingHomes(r, a, b, s, "/m/x", "/m/y", "/m/z", "/m");
    MovingIsLost(r, a, b, s, "/m/x", "/m/y", "/m/z", "/m", name, others);
  }

  lemma MovingPaths(r: Roots)
    requires r == Roots("/m", "/d")
    ensures CopyRoot(r, "/m/x" + ".mkv") == "/m" == CopyRoot(r, "/m/y" + ".mkv")
    ensures LibraryPath(r, "/m/x" + STRM) && LibraryPath(r, "/m/y" + STRM) && Within(r.library, "/m/x" + STRM)
    ensures CopyHome(r, "/m", "/m/x" + STRM, "f.mkv") == "/m/x" + ".mkv"
    ensures CopyHome(r, "/m", "/m/y" + STRM, "f.mkv") == "/m/y" + ".mkv"
    ensures "/m/x" != "/m/y" && "/m/x" != "/m/z" && "/m/y" != "/m/z"
    ensures "/m/x" + STRM != "/m/y" + STRM && "/m/x" + STRM != "/m/z" + STRM && "/m/y" + STRM != "/m/z" + STRM
  {
    hide Ext;
    ExtOfStem("f", ".mkv");
    assert "f" + ".mkv" == "f.mkv" && Lower(".mkv") == ".mkv";
    assert TrimSuffix("/m/x" + STRM, STRM) == "/m/x" && TrimSuffix("/m/y" + STRM, STRM) == "/m/y";
    assert Within("/m", "/m/x" + ".mkv") && Within("/m", "/m/y" + ".mkv");
    assert "/m/x"[3] != "/m/y"[3] && ("/m/x" + STRM)[3] != ("/m/y" + STRM)[3];
    assert "/m/x"[1] != "/d"[1];
    assert ("/m/z" + STRM)[3] == 'z' && "/m/z"[3] == 'z';
    assert ("/m/x" + ".mkv")[1] == 'm' && ("/m/y" + ".mkv")[1] == 'm';
    assert ("/m/x" + STRM)[1] == 'm' && ("/m/y" + STRM)[1] == 'm' && ("/d" + "/")[1] == 'd';
  }

  // ----- an orphan -----

  /** b's row and copy at y, an orphaned copy of a at x, and b's file now wants to be at x. */
  ghost predicate OrphanAt(r: Roots, a: Key, b: Key, s: State, it: Item, x: string, y: string, root: string) {
    && a != b && x != y && x + STRM != y + STRM
    && s == State(map[b := Row("", "f.mkv", 0, y + STRM, 0)],
                  map[a := Copy(Done, x + ".mkv"), b := Copy(Done, y + ".mkv")],
                  map[x + ".mkv" := "old", y + ".mkv" := "new"], 0)
    && TenStrms(it.alternates) && it == Wants(b, x, it.alternates)
    && CopyRoot(r, y + ".mkv") == root != "" && Within(r.library, x + STRM)
    && CopyHome(r, root, x + STRM, "f.mkv") == x + ".mkv"
  }

  lemma OrphanShape(r: Roots, a: Key, b: Key, s: State, it: Item, x: string, y: string, root: string)
    requires OrphanAt(r, a, b, s, it, x, y, root)
    ensures Shaped(s) && StrmItem(it)
  {
    hide CopyRoot, CopyHome, Within, HasSuffix;
    StrmAndMkv(x);
    StrmAndMkv(y);
    WantsIsStrm(b, x, it.alternates);
  }

  lemma StrmAndMkv(stem: string)
    ensures HasSuffix(stem + STRM, STRM) && !HasSuffix(stem + ".mkv", STRM)
  {
    hide Ext;
    ExtOfStem(stem, ".mkv");
    StrmSuffixIsExt(stem + ".mkv");
    SuffixOfConcat(stem, STRM, STRM);
    assert ".mkv"[1] != STRM[1];
  }

  lemma OrphanMoves(r: Roots, a: Key, b: Key, s: State, it: Item, x: string, y: string, root: string)
    requires OrphanAt(r, a, b, s, it, x, y, root)
    ensures UniquePath(s.rows, it) == x + STRM && MovesCopy(r, s, it)
  {
    hide CopyRoot, CopyHome, Within;
    WantsGets(s.rows, b, x, it.alternates);
    assert x + ".mkv" != y + ".mkv" by {
      assert (x + ".mkv")[..|x|] == x && (y + ".mkv")[..|y|] == y;
    }
  }

  lemma OrphanIsLost(r: Roots, a: Key, b: Key, s: State, it: Item, x: string, y: string, root: string)
    requires OrphanAt(r, a, b, s, it, x, y, root)
    ensures var t := Step(r, s, it, 0);
            t.copies[a].localPath == x + ".mkv" && x + ".mkv" in t.disk && t.disk[x + ".mkv"] == "new"
  {
    hide CopyRoot, CopyHome, Within, Step, UniquePath;
    OrphanShape(r, a, b, s, it, x, y, root);
    OrphanMoves(r, a, b, s, it, x, y, root);
    StepOnCopies(r, s, it, 0);
  }

  /** A copy whose row is gone (its torrent left the cloud) is not at home, and another copy can
      be relocated on top of it: the content "old" below is lost. */
  lemma OrphanIsOverwritten(r: Roots, a: Key, b: Key, s: State, it: Item)
    requires r == Roots("/m", "/m") && a != b
    requires s == State(map[b := Row("", "f.mkv", 0, "/m/y" + STRM, 0)],
                        map[a := Copy(Done, "/m/x" + ".mkv"), b := Copy(Done, "/m/y" + ".mkv")],
                        map["/m/x" + ".mkv" := "old", "/m/y" + ".mkv" := "new"], 0)
    requires TenStrms(it.alternates) && it == Wants(b, "/m/x", it.alternates)
    ensures Home(r, s, b) && !Home(r, s, a)
    ensures var t := Step(r, s, it, 0);
            t.copies[a].localPath == "/m/x" + ".mkv" && "/m/x" + ".mkv" in t.disk
            && t.disk["/m/x" + ".mkv"] == "new"
  {
    hide CopyRoot, CopyHome, Within, Step;
    ExamplePaths(r);
    OrphanIsLost(r, a, b, s, it, "/m/x", "/m/y", "/m");
  }

  lemma ExamplePaths(r: Roots)
    requires r == Roots("/m", "/m")
    ensures CopyRoot(r, "/m/y" + ".mkv") == "/m"
    ensures Within("/m", "/m/x" + STRM) && LibraryPath(r, "/m/y" + STRM)
    ensures CopyHome(r, "/m", "/m/x" + STRM, "f.mkv") == "/m/x" + ".mkv"
    ensures CopyHome(r, "/m", "/m/y" + STRM, "f.mkv") == "/m/y" + ".mkv"
    ensures "/m/x" != "/m/y" && "/m/x" + STRM != "/m/y" + STRM
  {
    hide Ext;
    ExtOfStem("f", ".mkv");
    assert "f" + ".mkv" == "f.mkv" && Lower(".mkv") == ".mkv";
    assert TrimSuffix("/m/x" + STRM, STRM) == "/m/x" && TrimSuffix("/m/y" + STRM, STRM) == "/m/y";
    assert Within("/m", "/m/x" + ".mkv") && Within("/m", "/m/y" + ".mkv");
    assert "/m/x"[3] != "/m/y"[3] && ("/m/x" + STRM)[3] != ("/m/y" + STRM)[3];
  }

  // ----- a copy at home -----

  /** k's row and copy are at x, and so is the record of a, which has no row; a's file is back in the
      cloud and wants to be at z. */
  ghost predicate SharedAt(r: Roots, a: Key, k: Key, s: State, it: Item, x: string, z: string, root: string) {
    && a != k && x + ".mkv" != z + ".mkv" && x + STRM != z + STRM
    && s == State(map[k := Row("", "f.mkv", 0, x + STRM, 0)],
                  map[a := Copy(Done, x + ".mkv"), k := Copy(Done, x + ".mkv")], map[x + ".mkv" := "film"], 0)
    && TenStrms(it.alternates) && it == Wants(a, z, it.alternates)
    && CopyRoot(r, x + ".mkv") == root != "" && Within(r.library, z + STRM)
    && CopyHome(r, root, z + STRM, "f.mkv") == z + ".mkv"
  }

  lemma SharedIsTaken(r: Roots, a: Key, k: Key, s: State, it: Item, x: string, z: string, root: string)
    requires SharedAt(r, a, k, s, it, x, z, root)
    ensures var t := Step(r, s, it, 0);
            t.copies[k].localPath == x + ".mkv" && x + ".mkv" !in t.disk
  {
    hide CopyRoot, CopyHome, Within, Step, UniquePath, HasSuffix;
    StrmAndMkv(x);
    WantsIsStrm(a, z, it.alternates);
    WantsGets(s.rows, a, z, it.alternates);
    StepOnCopies(r, s, it, 0);
  }

  /** A download is renamed over an orphaned copy at the same place, so that both are recorded there.
      When the orphan's torrent comes back under another name, its sync takes the file of k away,
      although k's copy is at home. */
  lemma HomeIsTaken(r: Roots, a: Key, k: Key, s: State, it: Item)
    requires r == Roots("/m", "/m") && a != k
    requires s == State(map[k := Row("", "f.mkv", 0, "/m/x" + STRM, 0)],
                        map[a := Copy(Done, "/m/x" + ".mkv"), k := Copy(Done, "/m/x" + ".mkv")],
                        map["/m/x" + ".mkv" := "film"], 0)
    requires TenStrms(it.alternates) && it == Wants(a, "/m/z", it.alternates)
    ensures Home(r, s, k) && a !in s.rows
    ensures var t := Step(r, s, it, 0);
            t.copies[k].localPath == "/m/x" + ".mkv" && "/m/x" + ".mkv" !in t.disk
  {
    hide CopyRoot, CopyHome, Within, Step, Wants;
    SharedPaths(r);
    SharedIsTaken(r, a, k, s, it, "/m/x", "/m/z", "/m");
  }

  lemma SharedPaths(r: Roots)
    requires r == Roots("/m", "/m")
    ensures CopyRoot(r, "/m/x" + ".mkv") == "/m"
    ensures Within("/m", "/m/z" + STRM) && LibraryPath(r, "/m/x" + STRM)
    ensures CopyHome(r, "/m", "/m/x" + STRM, "f.mkv") == "/m/x" + ".mkv"
    ensures CopyHome(r, "/m", "/m/z" + STRM, "f.mkv") == "/m/z" + ".mkv"
    ensures "/m/x" + ".mkv" != "/m/z" + ".mkv" && "/m/x" + STRM != "/m/z" + STRM
  {
    hide Ext;
    ExtOfStem("f", ".mkv");
    assert "f" + ".mkv" == "f.mkv" && Lower(".mkv") == ".mkv";
    assert TrimSuffix("/m/x" + STRM, STRM) == "/m/x" && TrimSuffix("/m/z" + STRM, STRM) == "/m/z";
    assert Within("/m", "/m/x" + ".mkv") && Within("/m", "/m/z" + ".mkv");
    assert ("/m/x" + ".mkv")[3] != ("/m/z" + ".mkv")[3] && ("/m/x" + STRM)[3] != ("/m/z" + STRM)[3];
  }
}
