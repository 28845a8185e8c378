/** Real-Debrid reports a torrent's selected files and serves them from a list of links in the
    same order: two walks that must agree (internal/provider/realdebrid/realdebrid.go). */
module RealDebrid {
  import opened Wrappers
  import opened Text

  /** A file as the API lists it; selected is 0 or 1. */
  datatype File = File(id: int, path: string, bytes: int, selected: int)

  datatype Reported = Reported(id: string, path: string, bytes: int)

  function TrimSlash(path: string): string {
    if path != "" && path[0] == '/' then path[1..] else path
  }

  function Report(f: File): Reported {
    Reported(ItoaInt(f.id), TrimSlash(f.path), f.bytes)
  }

  /** Selected files among the first n. */
  function SelectedCount(files: seq<File>, n: nat): nat
    requires n <= |files|
  {
    if n == 0 then 0 else SelectedCount(files, n - 1) + if files[n - 1].selected != 0 then 1 else 0
  }

  ghost predicate DistinctIds(files: seq<File>) {
    forall i, j :: 0 <= i < j < |files| ==> files[i].id != files[j].id
  }

  /** The selected files among the first n, as reported. */
  function ReportedFiles(files: seq<File>, n: nat): (r: seq<Reported>)
    requires n <= |files|
    ensures |r| == SelectedCount(files, n)
  {
    if n == 0 then []
    else ReportedFiles(files, n - 1) + if files[n - 1].selected != 0 then [Report(files[n - 1])] else []
  }

  /** The place, among the selected files, of the first selected file with this ID. */
  function PlaceOf(files: seq<File>, n: nat, fileId: string): Option<nat>
    requires n <= |files|
  {
    if n == 0 then None
    else if PlaceOf(files, n - 1, fileId).Some? then PlaceOf(files, n - 1, fileId)
    else if files[n - 1].selected != 0 && ItoaInt(files[n - 1].id) == fileId then Some(SelectedCount(files, n - 1))
    else None
  }

  /** info: appends the selected files in order. */
  method Info(files: seq<File>) returns (reported: seq<Reported>)
    ensures reported == ReportedFiles(files, |files|)
  {
    reported := [];
    for n := 0 to |files|
      invariant reported == ReportedFiles(files, n)
    {
      if files[n].selected == 0 {
        continue;
      }
      reported := reported + [Report(files[n])];
    }
  }

  /** FileLink: counts selected files up to the requested one; an ID that is not selected, or
      has no link, is an error. */
  method FileLink(files: seq<File>, links: seq<string>, fileId: string) returns (link: Option<string>)
    ensures var place := PlaceOf(files, |files|, fileId);
            link == if place.Some? && place.value < |links| then Some(links[place.value]) else None
  {
    hide ItoaInt;
    var selected := 0;
    var linkIdx := -1;
    for n := 0 to |files|
      invariant selected == SelectedCount(files, n) && linkIdx == -1
      invariant PlaceOf(files, n, fileId) == None
    {
      if files[n].selected == 0 {
        continue;
      }
      if ItoaInt(files[n].id) == fileId {
        linkIdx := selected;
        PlaceStays(files, n + 1, |files|, fileId);
        break;
      }
      selected := selected + 1;
    }
    if linkIdx < 0 || linkIdx >= |links| {
      return None;
    }
    link := Some(links[linkIdx]);
  }

  lemma {:induction false} PlaceStays(files: seq<File>, m: nat, n: nat, fileId: string)
    requires m <= n <= |files| && PlaceOf(files, m, fileId).Some?
    ensures PlaceOf(files, n, fileId) == PlaceOf(files, m, fileId)
    decreases n
  {
    hide ItoaInt, SelectedCount;
    if m == n {
    } else {
      PlaceStays(files, m, n - 1, fileId);
    }
  }

  /** With distinct IDs the p-th file that info reports has place p in FileLink's walk, so it is
      served from the p-th link. */
  lemma {:induction false} WalksAgree(files: seq<File>, n: nat, p: nat)
    requires DistinctIds(files) && n <= |files| && p < SelectedCount(files, n)
    ensures PlaceOf(files, n, ReportedFiles(files, n)[p].id) == Some(p)
  {
    var id := ReportedFiles(files, n)[p].id;
    if p < SelectedCount(files, n - 1) {
      WalksAgree(files, n - 1, p);
    } else {
      var f := files[n - 1];
      assert id == ItoaInt(f.id);
      if PlaceOf(files, n - 1, id).Some? {
        PlaceIsOfFile(files, n - 1, id);
        var i :| 0 <= i < n - 1 && files[i].selected != 0 && ItoaInt(files[i].id) == id;
        ItoaIntInjective(files[i].id, f.id);
      }
    }
  }

  /** Every other ID, unselected or unknown, has no place and is an error. */
  lemma {:induction false} PlaceIsOfFile(files: seq<File>, n: nat, fileId: string)
    requires n <= |files|
    ensures PlaceOf(files, n, fileId).Some? <==>
            exists i :: 0 <= i < n && files[i].selected != 0 && ItoaInt(files[i].id) == fileId
    ensures PlaceOf(files, n, fileId).Some? ==> PlaceOf(files, n, fileId).value < SelectedCount(files, n)
  {
    if n == 0 {
    } else {
      PlaceIsOfFile(files, n - 1, fileId);
    }
  }

  /** The i-th file is selected, and p selected files come before it. */
  ghost predicate SelectedAt(files: seq<File>, i: nat, p: nat) {
    i < |files| && files[i].selected != 0 && SelectedCount(files, i) == p
  }

  /** What a file is reported as: its ID in decimal, its size, and its path without a leading slash. */
  ghost predicate ReportOf(r: Reported, f: File) {
    && r.id == ItoaInt(f.id) && r.bytes == f.bytes
    && (f.path == "/" + r.path || (f.path == r.path && (f.path == "" || f.path[0] != '/')))
  }

  /** The p-th file that info reports is the selected file with p selected ones before it. */
  lemma {:induction false} ReportsSelected(files: seq<File>, n: nat, p: nat) returns (i: nat)
    requires n <= |files| && p < SelectedCount(files, n)
    ensures i < n && SelectedAt(files, i, p) && ReportOf(ReportedFiles(files, n)[p], files[i])
  {
    if p < SelectedCount(files, n - 1) {
      i := ReportsSelected(files, n - 1, p);
    } else {
      i := n - 1;
      var path := files[i].path;
      assert path != "" && path[0] == '/' ==> path == "/" + path[1..];
    }
  }
}
