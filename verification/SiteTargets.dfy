/** The targets of a site clone: every selected or rejected page gets an ordinal and a local path of its own. */
module SiteTargets {
  import opened Common
  import opened ArchivePaths

  /** A page of the selection; `isRoot` says that its normalised URL is the root's. */
  datatype Chosen = Chosen(id: string, isRoot: bool)

  datatype Target = Target(pageId: string, ordinal: nat, localPath: string, cancelled: bool)

  /** Identifiers are UUIDs: 36 characters, and different whatever the case of their letters. */
  ghost predicate ProperIds(ids: seq<string>) {
    && (forall i :: 0 <= i < |ids| ==> |ids[i]| == 36)
    && (forall i, j :: 0 <= i < j < |ids| ==> Lower(ids[i]) != Lower(ids[j]))
  }

  function PageFile(folder: string, id: string): string {
    folder + id + ".html"
  }

  function NumberedFile(folder: string, id: string, ordinal: nat): string {
    folder + id + "-" + Numeral(ordinal) + ".html"
  }

  /** sitePagePath. */
  function SitePagePath(page: Chosen): string {
    if page.isRoot then "index.html" else PageFile("pages/", page.id)
  }

  function SelectedIds(selected: seq<Chosen>): (ids: seq<string>)
    ensures |ids| == |selected| && forall i :: 0 <= i < |ids| ==> ids[i] == selected[i].id
  {
    seq(|selected|, i requires 0 <= i < |selected| => selected[i].id)
  }

  /** The path of target `i`: the root's belongs to the first page that has it, all others carry their own identifier. */
  ghost predicate PathOf(selected: seq<Chosen>, rejected: seq<string>, i: nat, path: string)
    requires i < |selected| + |rejected|
  {
    if i >= |selected| then path == PageFile("rejected/", rejected[i - |selected|])
    else if !selected[i].isRoot then path == PageFile("pages/", selected[i].id)
    else if forall j :: 0 <= j < i ==> !selected[j].isRoot then path == "index.html"
    else path == NumberedFile("pages/", selected[i].id, i)
  }

  /** One row per page, in order, on pairwise different paths whatever their case; rejected pages are cancelled. */
  ghost predicate Assigned(selected: seq<Chosen>, rejected: seq<string>, targets: seq<Target>) {
    && |targets| <= |selected| + |rejected|
    && (forall i :: 0 <= i < |targets| ==>
          && targets[i].ordinal == i && (targets[i].cancelled <==> i >= |selected|)
          && targets[i].pageId == (SelectedIds(selected) + rejected)[i]
          && PathOf(selected, rejected, i, targets[i].localPath))
  }

  /** The path is in the folder, and its file name starts with the identifier. */
  ghost predicate Carries(path: string, folder: string, id: string) {
    && |id| == 36 && |path| >= |folder| + 36
    && path[..|folder|] == folder && path[|folder|..|folder| + 36] == id
  }

  ghost predicate IsFolder(folder: string) {
    folder == "pages/" || folder == "rejected/"
  }

  ghost function FolderOf(selected: seq<Chosen>, i: nat): string {
    if i < |selected| then "pages/" else "rejected/"
  }

  lemma LowerHead(path: string, folder: string)
    requires IsFolder(folder) && |path| >= |folder| && path[..|folder|] == folder
    ensures |Lower(path)| > 0 && Lower(path)[0] == folder[0]
  {
    assert path[0] == path[..|folder|][0];
  }

  lemma LowerSlice(s: string, from: nat, to: nat)
    requires from <= to <= |s|
    ensures Lower(s[from..to]) == Lower(s)[from..to]
  {}

  /** Files that carry different identifiers are different files, and none is the root's. */
  lemma CarriersDiffer(a: string, folderA: string, idA: string, b: string, folderB: string, idB: string)
    requires IsFolder(folderA) && IsFolder(folderB) && Carries(a, folderA, idA) && Carries(b, folderB, idB)
    requires Lower(idA) != Lower(idB)
    ensures Lower(a) != Lower(b)
  {
    hide Lower;
    LowerSlice(a, |folderA|, |folderA| + 36);
    LowerSlice(b, |folderB|, |folderB| + 36);
    LowerHead(a, folderA);
    LowerHead(b, folderB);
  }

  lemma CarrierIsNotRoot(a: string, folder: string, id: string)
    requires IsFolder(folder) && Carries(a, folder, id)
    ensures Lower(a) != Lower("index.html")
  {
    LowerHead(a, folder);
    assert Lower("index.html")[0] == 'i';
  }

  lemma PathForm(selected: seq<Chosen>, rejected: seq<string>, i: nat, path: string)
    requires ProperIds(SelectedIds(selected) + rejected) && i < |selected| + |rejected| && PathOf(selected, rejected, i, path)
    ensures path == "index.html" || Carries(path, FolderOf(selected, i), (SelectedIds(selected) + rejected)[i])
  {
    var id := (SelectedIds(selected) + rejected)[i];
    if i < |selected| && selected[i].isRoot && path != "index.html" {
      assert path == "pages/" + id + ("-" + Numeral(i) + ".html");
    }
  }

  /** Two targets never share a path. */
  lemma PathsDiffer(selected: seq<Chosen>, rejected: seq<string>, i: nat, j: nat, a: string, b: string)
    requires ProperIds(SelectedIds(selected) + rejected) && i < j < |selected| + |rejected|
    requires PathOf(selected, rejected, i, a) && PathOf(selected, rejected, j, b)
    ensures Lower(a) != Lower(b)
  {
    hide Lower;
    var ids := SelectedIds(selected) + rejected;
    PathForm(selected, rejected, i, a);
    PathForm(selected, rejected, j, b);
    if a == "index.html" && b == "index.html" {
      NotBothRoot(selected, rejected, i, j);
    } else if a == "index.html" {
      CarrierIsNotRoot(b, FolderOf(selected, j), ids[j]);
    } else if b == "index.html" {
      CarrierIsNotRoot(a, FolderOf(selected, i), ids[i]);
    } else {
      CarriersDiffer(a, FolderOf(selected, i), ids[i], b, FolderOf(selected, j), ids[j]);
    }
  }

  lemma NotBothRoot(selected: seq<Chosen>, rejected: seq<string>, i: nat, j: nat)
    requires i < j < |selected| + |rejected| && ProperIds(SelectedIds(selected) + rejected)
    ensures !(PathOf(selected, rejected, i, "index.html") && PathOf(selected, rejected, j, "index.html"))
  {
    if i < |selected| && j < |selected| {
      NotIndex("pages/", selected[i].id, ".html");
      NotIndex("pages/", selected[j].id, ".html");
      NotIndex("pages/", selected[j].id, "-" + Numeral(j) + ".html");
      NotIndex("pages/", selected[i].id, "-" + Numeral(i) + ".html");
      assert NumberedFile("pages/", selected[j].id, j) == "pages/" + selected[j].id + ("-" + Numeral(j) + ".html");
      assert NumberedFile("pages/", selected[i].id, i) == "pages/" + selected[i].id + ("-" + Numeral(i) + ".html");
    } else {
      NotIndex("rejected/", rejected[j - |selected|], ".html");
    }
  }

  lemma NotIndex(folder: string, id: string, rest: string)
    requires IsFolder(folder)
    ensures folder + id + rest != "index.html"
  {
    assert (folder + id + rest)[0] == folder[0];
  }

  /** The paths taken so far. */
  ghost predicate Taken(targets: seq<Target>, seen: set<string>) {
    forall path :: path in seen <==> exists i :: 0 <= i < |targets| && Lower(targets[i].localPath) == path
  }

  lemma TakenMore(targets: seq<Target>, seen: set<string>, target: Target)
    requires Taken(targets, seen)
    ensures Taken(targets + [target], seen + {Lower(target.localPath)})
  {
    var more := targets + [target];
    forall path ensures path in seen + {Lower(target.localPath)} <==> exists i :: 0 <= i < |more| && Lower(more[i].localPath) == path {
      if path in seen {
        var i :| 0 <= i < |targets| && Lower(targets[i].localPath) == path;
        assert more[i] == targets[i];
      } else if path == Lower(target.localPath) {
        assert more[|targets|] == target;
      }
    }
  }

  /** The path a page is due is free. */
  lemma FreePath(selected: seq<Chosen>, rejected: seq<string>, targets: seq<Target>, seen: set<string>, path: string)
    requires ProperIds(SelectedIds(selected) + rejected) && Assigned(selected, rejected, targets) && Taken(targets, seen)
    requires |targets| < |selected| + |rejected| && PathOf(selected, rejected, |targets|, path)
    ensures Lower(path) !in seen
  {
    hide Lower;
    forall i | 0 <= i < |targets| ensures Lower(targets[i].localPath) != Lower(path) {
      PathsDiffer(selected, rejected, i, |targets|, targets[i].localPath, path);
    }
  }

  /** So is every other path with its identifier. */
  lemma OwnPathFree(selected: seq<Chosen>, rejected: seq<string>, targets: seq<Target>, seen: set<string>, path: string)
    requires ProperIds(SelectedIds(selected) + rejected) && Assigned(selected, rejected, targets) && Taken(targets, seen)
    requires |targets| < |selected| + |rejected|
    requires Carries(path, FolderOf(selected, |targets|), (SelectedIds(selected) + rejected)[|targets|])
    ensures Lower(path) !in seen
  {
    hide Lower;
    var n, ids := |targets|, SelectedIds(selected) + rejected;
    forall i | 0 <= i < n ensures Lower(targets[i].localPath) != Lower(path) {
      PathForm(selected, rejected, i, targets[i].localPath);
      if targets[i].localPath == "index.html" {
        CarrierIsNotRoot(path, FolderOf(selected, n), ids[n]);
      } else {
        CarriersDiffer(targets[i].localPath, FolderOf(selected, i), ids[i], path, FolderOf(selected, n), ids[n]);
      }
    }
  }

  lemma NumberedCarries(folder: string, id: string, ordinal: nat)
    requires |id| == 36
    ensures Carries(NumberedFile(folder, id, ordinal), folder, id)
  {
    assert NumberedFile(folder, id, ordinal) == folder + id + ("-" + Numeral(ordinal) + ".html");
  }

  lemma RootTaken(selected: seq<Chosen>, rejected: seq<string>, targets: seq<Target>, seen: set<string>)
    requires Assigned(selected, rejected, targets) && Taken(targets, seen) && |targets| < |selected| && selected[|targets|].isRoot
    ensures Lower("index.html") in seen <==> exists j :: 0 <= j < |targets| && selected[j].isRoot
  {
    if j :| 0 <= j < |targets| && selected[j].isRoot {
      var first := FirstRoot(selected, j);
      assert targets[first].localPath == "index.html";
    } else {
      forall i | 0 <= i < |targets| ensures Lower(targets[i].localPath) != Lower("index.html") {
        assert PathOf(selected, rejected, i, targets[i].localPath);
        assert targets[i].localPath[0] == 'p';
      }
    }
  }

  function FirstRoot(selected: seq<Chosen>, j: nat): (i: nat)
    requires j < |selected| && selected[j].isRoot
    ensures i <= j && selected[i].isRoot && forall k :: 0 <= k < i ==> !selected[k].isRoot
  {
    if k: nat :| k < j && selected[k].isRoot then FirstRoot(selected, k) else j
  }

  /** The page's first path is the one it gets, unless it is the root's and taken. */
  lemma RootOrFree(selected: seq<Chosen>, rejected: seq<string>, targets: seq<Target>, seen: set<string>)
    requires ProperIds(SelectedIds(selected) + rejected) && Assigned(selected, rejected, targets) && Taken(targets, seen)
    requires |targets| < |selected|
    ensures var n := |targets|;
      var path := SitePagePath(selected[n]);
      if Lower(path) in seen then PathOf(selected, rejected, n, NumberedFile("pages/", selected[n].id, n))
      else PathOf(selected, rejected, n, path)
  {
    var n := |targets|;
    if selected[n].isRoot {
      RootTaken(selected, rejected, targets, seen);
    } else {
      FreePath(selected, rejected, targets, seen, SitePagePath(selected[n]));
    }
  }

  /** A taken path is replaced by one with the ordinal in it, and one replacement is enough. */
  method SelectedPath(page: Chosen, ordinal: nat, seen: set<string>, ghost selected: seq<Chosen>, ghost rejected: seq<string>, ghost targets: seq<Target>)
    returns (path: string)
    requires ProperIds(SelectedIds(selected) + rejected) && Assigned(selected, rejected, targets) && Taken(targets, seen)
    requires ordinal == |targets| < |selected| && page == selected[ordinal]
    ensures PathOf(selected, rejected, ordinal, path)
  {
    hide ProperIds, Assigned, Taken, PathOf, Lower, Numeral;
    path := SitePagePath(page);
    RootOrFree(selected, rejected, targets, seen);
    while Lower(path) in seen
      invariant path == SitePagePath(page)
                || (path == NumberedFile("pages/", page.id, ordinal) && Lower(SitePagePath(page)) in seen && Lower(path) !in seen)
      decreases Lower(path) in seen
    {
      path := NumberedFile("pages/", page.id, ordinal);
      FreePath(selected, rejected, targets, seen, path);
    }
  }

  method RejectedPath(id: string, ordinal: nat, seen: set<string>, ghost selected: seq<Chosen>, ghost rejected: seq<string>, ghost targets: seq<Target>)
    returns (path: string)
    requires ProperIds(SelectedIds(selected) + rejected) && Assigned(selected, rejected, targets) && Taken(targets, seen)
    requires |selected| <= ordinal == |targets| < |selected| + |rejected| && id == rejected[ordinal - |selected|]
    ensures PathOf(selected, rejected, ordinal, path)
  {
    hide Assigned, Taken, Lower, Numeral, NumberedFile;
    path := PageFile("rejected/", id);
    assert id == (SelectedIds(selected) + rejected)[ordinal];
    while Lower(path) in seen
      invariant path == PageFile("rejected/", id) || (Lower(PageFile("rejected/", id)) in seen && Lower(path) !in seen)
      decreases Lower(path) in seen
    {
      path := NumberedFile("rejected/", id, ordinal);
      NumberedCarries("rejected/", id, ordinal);
      OwnPathFree(selected, rejected, targets, seen, path);
    }
    FreePath(selected, rejected, targets, seen, PageFile("rejected/", id));
  }

  lemma AssignedMore(selected: seq<Chosen>, rejected: seq<string>, targets: seq<Target>, target: Target)
    requires Assigned(selected, rejected, targets) && |targets| < |selected| + |rejected|
    requires target.ordinal == |targets| && (target.cancelled <==> |targets| >= |selected|)
    requires target.pageId == (SelectedIds(selected) + rejected)[|targets|] && PathOf(selected, rejected, |targets|, target.localPath)
    ensures Assigned(selected, rejected, targets + [target])
  {
    hide PathOf;
  }

  /**
   * The second half of ingestion: a target for every page of the selection, or
   * the root alone when nothing was selected.
   */
  method PlanTargets(jobId: string, selected: seq<Chosen>, rejected: seq<string>) returns (targets: seq<Target>)
    requires ProperIds(SelectedIds(selected) + rejected)
    ensures selected == [] ==> targets == [Target(jobId, 0, "index.html", false)]
    ensures selected != [] ==> Assigned(selected, rejected, targets) && |targets| == |selected| + |rejected|
    ensures forall i, j :: 0 <= i < j < |targets| ==> Lower(targets[i].localPath) != Lower(targets[j].localPath)
  {
    hide ProperIds, Assigned, Taken, PathOf, Lower;
    if selected == [] {
      return [Target(jobId, 0, "index.html", false)];
    }
    targets := [];
    var seen: set<string> := {};
    assert Assigned(selected, rejected, targets) && Taken(targets, seen) by { NothingAssigned(selected, rejected); }
    for n := 0 to |selected|
      invariant |targets| == n && Assigned(selected, rejected, targets) && Taken(targets, seen)
    {
      var path := SelectedPath(selected[n], n, seen, selected, rejected, targets);
      var target := Target(selected[n].id, n, path, false);
      AssignedMore(selected, rejected, targets, target);
      TakenMore(targets, seen, target);
      seen := seen + {Lower(path)};
      targets := targets + [target];
    }
    for n := 0 to |rejected|
      invariant |targets| == |selected| + n && Assigned(selected, rejected, targets) && Taken(targets, seen)
    {
      var path := RejectedPath(rejected[n], |targets|, seen, selected, rejected, targets);
      var target := Target(rejected[n], |targets|, path, true);
      AssignedMore(selected, rejected, targets, target);
      TakenMore(targets, seen, target);
      seen := seen + {Lower(path)};
      targets := targets + [target];
    }
    AllDiffer(selected, rejected, targets);
  }

  lemma NothingAssigned(selected: seq<Chosen>, rejected: seq<string>)
    ensures Assigned(selected, rejected, []) && Taken([], {})
  {}

  lemma AllDiffer(selected: seq<Chosen>, rejected: seq<string>, targets: seq<Target>)
    requires ProperIds(SelectedIds(selected) + rejected) && Assigned(selected, rejected, targets)
    ensures forall i, j :: 0 <= i < j < |targets| ==> Lower(targets[i].localPath) != Lower(targets[j].localPath)
  {
    hide ProperIds, PathOf, Lower;
    forall i, j | 0 <= i < j < |targets| ensures Lower(targets[i].localPath) != Lower(targets[j].localPath) {
      PathsDiffer(selected, rejected, i, j, targets[i].localPath, targets[j].localPath);
    }
  }
}
