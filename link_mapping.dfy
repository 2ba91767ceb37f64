/**
 * Choosing the restricted download link of a debrid torrent for a requested
 * file id (backend/services/debrid/link_mapping.go). The provider returns one
 * link per selected file, in file order, so a file's link is found by
 * counting the selected files before it.
 */
module LinkMapping {
  import opened Wrappers
  import opened Strs

  /** A file of a torrent: its numeric id, its `Selected` flag and its path. */
  datatype TorrentFile = TorrentFile(id: int, selected: int, path: string)

  /** The part of `TorrentInfo` the lookup reads. */
  datatype TorrentInfo = TorrentInfo(files: seq<TorrentFile>, links: seq<string>)

  /** What `resolveRestrictedLink` returns. */
  datatype Resolved = Resolved(link: string, filename: string, index: int, matched: bool)

  /** The number of files in `files` that take up a link (`Selected != 0`). */
  function SelectedCount(files: seq<TorrentFile>): (n: nat)
    ensures n <= |files|
  {
    if files == [] then 0
    else SelectedCount(files[..|files| - 1]) + (if files[|files| - 1].selected != 0 then 1 else 0)
  }

  /** The first file with `Selected == 1`. */
  function FirstSelected(files: seq<TorrentFile>): (r: Option<nat>)
    ensures r.Some? ==> r.value < |files| && files[r.value].selected == 1
    ensures r.Some? ==> forall k :: 0 <= k < r.value ==> files[k].selected != 1
    ensures r.None? ==> forall k :: 0 <= k < |files| ==> files[k].selected != 1
  {
    if files == [] then None
    else if files[0].selected == 1 then Some(0)
    else
      var t := FirstSelected(files[1..]);
      if t.None? then None else Some(t.value + 1)
  }

  /** The fallback file name: the path of the first file with `Selected == 1`, or "". */
  function FallbackName(files: seq<TorrentFile>): string
  {
    match FirstSelected(files)
    case None => ""
    case Some(k) => files[k].path
  }

  /** File `f` takes up a link and its decimal id is `target`. */
  predicate IsTarget(f: TorrentFile, target: string)
  {
    f.selected != 0 && IntToString(f.id) == target
  }

  /** The first selected file whose decimal id is `target`. */
  function FirstMatch(files: seq<TorrentFile>, target: string): (r: Option<nat>)
    ensures r.Some? ==> r.value < |files| && IsTarget(files[r.value], target)
    ensures r.Some? ==> forall k :: 0 <= k < r.value ==> !IsTarget(files[k], target)
    ensures r.None? ==> forall k :: 0 <= k < |files| ==> !IsTarget(files[k], target)
  {
    if files == [] then None
    else if IsTarget(files[0], target) then Some(0)
    else
      var t := FirstMatch(files[1..], target);
      if t.None? then None else Some(t.value + 1)
  }

  /** The first link with the fallback name, unmatched. */
  function Fallback(info: TorrentInfo): Resolved
    requires info.links != []
  {
    Resolved(info.links[0], FallbackName(info.files), 0, false)
  }

  /** The first selected file's path, by `resolveRestrictedLink`'s scan. */
  method ScanFirstSelected(files: seq<TorrentFile>) returns (filename: string)
    ensures filename == FallbackName(files)
  {
    filename := "";
    var i := 0;
    while i < |files|
      invariant 0 <= i <= |files|
      invariant forall k :: 0 <= k < i ==> files[k].selected != 1
    {
      if files[i].selected == 1 {
        filename := files[i].path;
        return;
      }
      i := i + 1;
    }
  }

  /** The link of the first selected file with decimal id `target`, when its
      position among the selected files names a link. */
  function MatchedLink(files: seq<TorrentFile>, links: seq<string>, target: string): Option<Resolved>
  {
    match FirstMatch(files, target)
    case Some(j) =>
      var n := SelectedCount(files[..j]);
      if n < |links| then Some(Resolved(links[n], files[j].path, n, true)) else None
    case None => None
  }

  /** What `resolveRestrictedLink` returns. A nil info or no links gives
      nothing; a blank id or no files gives the fallback; otherwise the first
      selected file with the trimmed id gets the link at its position among the
      selected files, when there is one, and everything else falls back. */
  function Resolve(info: Option<TorrentInfo>, fileID: string): Resolved
  {
    if info.None? || info.value.links == [] then Resolved("", "", 0, false)
    else if IsBlank(fileID) || info.value.files == [] then Fallback(info.value)
    else MatchedLink(info.value.files, info.value.links, Trim(fileID)).GetOr(Fallback(info.value))
  }

  /** The matching loop of `resolveRestrictedLink`: `linkIndex` counts the
      selected files passed so far. */
  method ScanForTarget(files: seq<TorrentFile>, links: seq<string>, target: string) returns (r: Option<Resolved>)
    ensures r == MatchedLink(files, links, target)
  {
    var linkIndex := 0;
    var i := 0;
    while i < |files|
      invariant 0 <= i <= |files|
      invariant linkIndex == SelectedCount(files[..i])
      invariant forall k :: 0 <= k < i ==> !IsTarget(files[k], target)
    {
      var file := files[i];
      assert files[..i + 1][..i] == files[..i];
      if file.selected == 0 {
        i := i + 1;
        continue;
      }
      if IntToString(file.id) == target {
        if linkIndex >= |links| {
          return None;
        }
        return Some(Resolved(links[linkIndex], file.path, linkIndex, true));
      }
      linkIndex := linkIndex + 1;
      i := i + 1;
    }
    return None;
  }

  /** `resolveRestrictedLink`. */
  method ResolveRestrictedLink(info: Option<TorrentInfo>, fileID: string) returns (r: Resolved)
    ensures r == Resolve(info, fileID)
  {
    if info.None? || |info.value.links| == 0 {
      return Resolved("", "", 0, false);
    }
    var files := info.value.files;
    var links := info.value.links;
    if Trim(fileID) == "" || |files| == 0 {
      var filename := ScanFirstSelected(files);
      return Resolved(links[0], filename, 0, false);
    }
    var hit := ScanForTarget(files, links, Trim(fileID));
    if hit.Some? {
      return hit.value;
    }
    var filename := ScanFirstSelected(files);
    return Resolved(links[0], filename, 0, false);
  }

  /** A match names an existing link and carries the path of a selected file
      whose decimal id is the trimmed request, and there are exactly `index`
      selected files before it; an unmatched result is the first link (or
      nothing) at index 0 with the fallback name. */
  lemma ResolveMeaning(info: Option<TorrentInfo>, fileID: string)
    ensures var r := Resolve(info, fileID);
      r.matched ==>
        && info.Some? && 0 <= r.index < |info.value.links| && r.link == info.value.links[r.index]
        && exists j :: 0 <= j < |info.value.files| && IsTarget(info.value.files[j], Trim(fileID))
             && r.filename == info.value.files[j].path && r.index == SelectedCount(info.value.files[..j])
    ensures var r := Resolve(info, fileID);
      !r.matched ==>
        && r.index == 0
        && (if info.None? || info.value.links == [] then r.link == "" && r.filename == ""
            else r.link == info.value.links[0] && r.filename == FallbackName(info.value.files))
  {
    var r := Resolve(info, fileID);
    if r.matched {
      var j := FirstMatch(info.value.files, Trim(fileID)).value;
      assert MatchedLink(info.value.files, info.value.links, Trim(fileID)).Some?;
      assert IsTarget(info.value.files[j], Trim(fileID));
    }
  }

  /** Files 1, 2 (unselected) and 3 with links for 1 and 3: asking for "3"
      gives the second link at index 1 with file 3's path, the case of
      TestResolveRestrictedLinkMatchesPreferredID
      (backend/services/debrid/link_mapping_test.go:5-28). */
  lemma UnselectedFileTakesNoLink()
    ensures var files := [TorrentFile(1, 1, "file1.mkv"), TorrentFile(2, 0, "file2.mkv"), TorrentFile(3, 1, "file3.mkv")];
      Resolve(Some(TorrentInfo(files, ["link-1", "link-3"])), "3") == Resolved("link-3", "file3.mkv", 1, true)
  {
    var files := [TorrentFile(1, 1, "file1.mkv"), TorrentFile(2, 0, "file2.mkv"), TorrentFile(3, 1, "file3.mkv")];
    assert IntToString(1) == "1" && IntToString(2) == "2" && IntToString(3) == "3";
    assert Trim("3") == "3";
    assert FirstMatch(files, "3") == Some(2);
    assert files[..2][..1] == files[..1];
    assert SelectedCount(files[..2]) == 1;
  }

  /** An id that no selected file has falls back to the first link and the
      first selected file's path, the case of
      TestResolveRestrictedLinkFallsBackWhenMissing
      (backend/services/debrid/link_mapping_test.go:30-48). */
  lemma MissingIdFallsBack()
    ensures Resolve(Some(TorrentInfo([TorrentFile(1, 1, "file1.mkv")], ["link-1"])), "99") == Resolved("link-1", "file1.mkv", 0, false)
  {
    var files := [TorrentFile(1, 1, "file1.mkv")];
    assert IntToString(1) == "1";
    assert Trim("99") == "99";
    assert FirstMatch(files, "99") == None;
  }
}
