/** Pruning folders left empty by a move or a deletion (internal/strm/local.go). */
module Folders {
  import opened Paths

  /** filepath.Dir of a cleaned path below the file system's root. */
  function Dir(path: string): (d: string)
    ensures |d| <= |path| && d == path[..|d|]
    ensures path != "" ==> |d| < |path|
  {
    if path == "" then ""
    else if path[|path| - 1] == '/' then path[..|path| - 1]
    else Dir(path[..|path| - 1])
  }

  /** Going up from inside a root never leaves it. */
  lemma {:induction false} DirStays(root: string, path: string)
    requires root + "/" <= path
    ensures root <= Dir(path)
  {
    if path[|path| - 1] != '/' {
      assert |path| > |root| + 1;
      DirStays(root, path[..|path| - 1]);
    }
  }

  class Tree {
    var dirs: set<string>
    var files: set<string>

    constructor (dirs: set<string>, files: set<string>)
      ensures this.dirs == dirs && this.files == files
    {
      this.dirs, this.files := dirs, files;
    }

    predicate IsEmpty(d: string)
      reads this
    {
      forall e :: e in dirs + files ==> Dir(e) != d
    }

    /** pruneEmptyDirs: goes up from dir, removing folders as long as they are empty, and stops at
        the root, at a folder that is not there or at one that is not empty. It keeps every file,
        orphans nothing, and removes nothing but folders strictly inside the root. */
    method PruneEmptyDirs(r: Roots, dir: string) returns (stop: string)
      modifies this
      ensures files == old(files) && dirs <= old(dirs)
      ensures forall d :: d in old(dirs) - dirs ==>
                CopyRoot(r, dir) != "" && Within(CopyRoot(r, dir), d) && d <= dir && |stop| < |d|
      ensures forall e :: e in dirs + files ==> Dir(e) !in old(dirs) - dirs
      ensures stop <= dir && (CopyRoot(r, dir) != "" ==> CopyRoot(r, dir) <= stop)
      ensures CopyRoot(r, dir) == "" || !Within(CopyRoot(r, dir), stop) || stop !in dirs || !IsEmpty(stop)
      ensures CopyRoot(r, dir) == "" ==> dirs == old(dirs)
    {
      var root := CopyRoot(r, dir);
      stop := dir;
      while root != "" && Within(root, stop)
        invariant files == old(files) && dirs <= old(dirs) && stop <= dir
        invariant root != "" ==> root <= stop
        invariant forall d :: d in old(dirs) - dirs ==> root != "" && Within(root, d) && d <= dir && |stop| < |d|
        invariant forall e :: e in dirs + files ==> Dir(e) !in old(dirs) - dirs
        invariant root == "" ==> dirs == old(dirs)
        decreases |stop|
      {
        if stop !in dirs || !IsEmpty(stop) {
          return;
        }
        dirs := dirs - {stop};
        DirStays(root, stop);
        stop := Dir(stop);
      }
    }
  }

  /** Every entry has its parent folder. */
  ghost predicate Rooted(dirs: set<string>, files: set<string>, base: set<string>) {
    forall e :: e in dirs + files && e !in base ==> Dir(e) in dirs || Dir(e) in base
  }

  /** Removing folders that no remaining entry sits in keeps the tree whole. */
  lemma PruningKeepsTree(dirs: set<string>, files: set<string>, kept: set<string>, base: set<string>)
    requires Rooted(dirs, files, base) && kept <= dirs
    requires forall e :: e in kept + files ==> Dir(e) !in dirs - kept
    ensures Rooted(kept, files, base)
  {
    forall e | e in kept + files && e !in base
      ensures Dir(e) in kept || Dir(e) in base
    {
      assert e in dirs + files;
    }
  }
}
