/** planStaticClone: which resources of a page are packaged, under which paths, and how the page links to them. */
module StaticPlan {
  import opened Common
  import opened ArchivePaths

  const MAX_FILES := 100
  const MAX_INPUT_BYTES := 52_428_800

  /** A captured resource. URL handling is not modelled: `url` is normalised, `eligible` says its origin is allowed. */
  datatype Input = Input(url: string, body: Option<nat>, skipped: bool, eligible: bool, stylesheet: bool, desired: Path)

  datatype SkipReason = AlreadySkipped | ExternalOrigin | FileCountBudget | InputBudget

  datatype Outcome = Placed(path: Path) | Skipped(reason: SkipReason)

  /** What two resources must share to share a file: the desired path, and for stylesheets the URL. */
  datatype ContentKey = ContentKey(desired: Path, context: Option<string>)

  function KeyOf(input: Input): ContentKey {
    ContentKey(input.desired, if input.stylesheet then Some(input.url) else None)
  }

  predicate Candidate(input: Input) {
    !input.skipped && input.body.Some? && input.eligible
  }

  /** The bytes of the inputs that brought a file of their own. */
  ghost function FileBytes(inputs: seq<Input>, files: seq<nat>): nat
    requires forall k :: 0 <= k < |files| ==> files[k] < |inputs| && inputs[files[k]].body.Some?
  {
    if files == [] then 0
    else FileBytes(inputs, files[..|files| - 1]) + inputs[files[|files| - 1]].body.value
  }

  ghost predicate PlacedAt(outcomes: seq<Outcome>, i: int) {
    0 <= i < |outcomes| && outcomes[i].Placed?
  }

  /**
   * `files` are the inputs that brought a file of their own, in order. Their paths are
   * distinct and not the page's, whatever the case of their letters; every
   * placed input uses the file of one of them, with the same content key.
   */
  ghost predicate Planned(main: Path, inputs: seq<Input>, shared: bool, outcomes: seq<Outcome>, files: seq<nat>)
    requires |outcomes| <= |inputs|
  {
    && (forall k :: 0 <= k < |files| ==> PlacedAt(outcomes, files[k]) && inputs[files[k]].body.Some?)
    && (forall k, m :: 0 <= k < m < |files| ==> files[k] < files[m])
    && (forall k :: 0 <= k < |files| ==> LowerPath(outcomes[files[k]].path) != LowerPath(main))
    && (forall k, m :: 0 <= k < m < |files| ==> LowerPath(outcomes[files[k]].path) != LowerPath(outcomes[files[m]].path))
    && (forall i :: PlacedAt(outcomes, i) ==> Candidate(inputs[i]) && FromFile(inputs, shared, outcomes, files, i))
    && (shared ==> forall k, m :: 0 <= k < m < |files| ==> KeyOf(inputs[files[k]]) != KeyOf(inputs[files[m]]))
  }

  /** Input `i` has its own file, or shares that of an input with the same content key. */
  ghost predicate FromFile(inputs: seq<Input>, shared: bool, outcomes: seq<Outcome>, files: seq<nat>, i: int)
    requires |outcomes| <= |inputs| && PlacedAt(outcomes, i)
  {
    exists k :: 0 <= k < |files| && PlacedAt(outcomes, files[k]) && outcomes[files[k]].path == outcomes[i].path
                && (files[k] == i || (shared && KeyOf(inputs[files[k]]) == KeyOf(inputs[i])))
  }

  ghost predicate LastPlaced(inputs: seq<Input>, outcomes: seq<Outcome>, i: int, url: string)
    requires |outcomes| <= |inputs|
  {
    && PlacedAt(outcomes, i) && inputs[i].url == url
    && forall j :: PlacedAt(outcomes, j) && inputs[j].url == url ==> j <= i
  }

  /** The page's links: exactly the URLs of placed inputs, each linked to the path of the last one that has it. */
  ghost predicate Linked(main: Path, inputs: seq<Input>, outcomes: seq<Outcome>, links: map<string, Path>)
    requires main != [] && |outcomes| <= |inputs| && forall i :: PlacedAt(outcomes, i) ==> outcomes[i].path != []
  {
    && (forall i :: PlacedAt(outcomes, i) ==> inputs[i].url in links)
    && (forall url :: url in links ==> exists i :: LastPlaced(inputs, outcomes, i, url) && links[url] == RelativeArchivePath(main, outcomes[i].path))
  }

  ghost predicate PathsNonEmpty(outcomes: seq<Outcome>) {
    forall i :: PlacedAt(outcomes, i) ==> outcomes[i].path != []
  }

  // ------------------------------------------------------------ what follows

  /** Two inputs with the same bytes, and for stylesheets the same URL, since that is what their references are relative to. */
  predicate SameContent(a: Input, b: Input) {
    a.desired == b.desired && a.stylesheet == b.stylesheet && (a.stylesheet ==> a.url == b.url)
  }

  /** Two placed inputs share a path, whatever its case, only if they share their contents; shared contents share the path. */
  lemma {:induction false} SharedPaths(main: Path, inputs: seq<Input>, shared: bool, outcomes: seq<Outcome>, files: seq<nat>, i: int, j: int)
    requires |outcomes| <= |inputs| && Planned(main, inputs, shared, outcomes, files)
    requires PlacedAt(outcomes, i) && PlacedAt(outcomes, j) && i != j
    ensures LowerPath(outcomes[i].path) != LowerPath(main)
    ensures LowerPath(outcomes[i].path) == LowerPath(outcomes[j].path) <==> shared && SameContent(inputs[i], inputs[j])
  {
    assert FromFile(inputs, shared, outcomes, files, i) && FromFile(inputs, shared, outcomes, files, j);
    var k :| 0 <= k < |files| && PlacedAt(outcomes, files[k]) && outcomes[files[k]].path == outcomes[i].path
             && (files[k] == i || (shared && KeyOf(inputs[files[k]]) == KeyOf(inputs[i])));
    var m :| 0 <= m < |files| && PlacedAt(outcomes, files[m]) && outcomes[files[m]].path == outcomes[j].path
             && (files[m] == j || (shared && KeyOf(inputs[files[m]]) == KeyOf(inputs[j])));
    assert KeyOf(inputs[i]) == KeyOf(inputs[j]) <==> SameContent(inputs[i], inputs[j]);
    hide LowerPath, KeyOf, SameContent;
    if k != m {
      assert LowerPath(outcomes[files[k]].path) != LowerPath(outcomes[files[m]].path) by {
        var a, b := if k < m then k else m, if k < m then m else k;
        assert LowerPath(outcomes[files[a]].path) != LowerPath(outcomes[files[b]].path);
      }
      if shared {
        var a, b := if k < m then k else m, if k < m then m else k;
        assert KeyOf(inputs[files[a]]) != KeyOf(inputs[files[b]]);
      }
    }
  }

  // ----------------------------------------------------------------- the loop

  lemma FileBytesMore(inputs: seq<Input>, files: seq<nat>, i: nat)
    requires forall k :: 0 <= k < |files| ==> files[k] < |inputs| && inputs[files[k]].body.Some?
    requires i < |inputs| && inputs[i].body.Some?
    ensures FileBytes(inputs, files + [i]) == FileBytes(inputs, files) + inputs[i].body.value
  {
    assert (files + [i])[..|files|] == files;
  }

  lemma SkipMore(main: Path, inputs: seq<Input>, shared: bool, outcomes: seq<Outcome>, files: seq<nat>, reason: SkipReason)
    requires |outcomes| < |inputs| && Planned(main, inputs, shared, outcomes, files)
    ensures Planned(main, inputs, shared, outcomes + [Skipped(reason)], files)
  {
    var more := outcomes + [Skipped(reason)];
    forall i | PlacedAt(more, i) ensures Candidate(inputs[i]) && FromFile(inputs, shared, more, files, i) {
      assert PlacedAt(outcomes, i);
      FromFileMore(inputs, shared, outcomes, files, i, Skipped(reason), files);
    }
  }

  lemma FromFileMore(inputs: seq<Input>, shared: bool, outcomes: seq<Outcome>, files: seq<nat>, i: int, next: Outcome, files': seq<nat>)
    requires |outcomes| < |inputs| && PlacedAt(outcomes, i) && FromFile(inputs, shared, outcomes, files, i) && files <= files'
    ensures FromFile(inputs, shared, outcomes + [next], files', i)
  {
    var k :| 0 <= k < |files| && PlacedAt(outcomes, files[k]) && outcomes[files[k]].path == outcomes[i].path
             && (files[k] == i || (shared && KeyOf(inputs[files[k]]) == KeyOf(inputs[i])));
    assert files'[k] == files[k] && PlacedAt(outcomes + [next], files'[k]);
  }

  lemma ShareMore(main: Path, inputs: seq<Input>, outcomes: seq<Outcome>, files: seq<nat>, k: nat)
    requires |outcomes| < |inputs| && Planned(main, inputs, true, outcomes, files) && k < |files|
    requires Candidate(inputs[|outcomes|]) && KeyOf(inputs[files[k]]) == KeyOf(inputs[|outcomes|])
    ensures Planned(main, inputs, true, outcomes + [Placed(outcomes[files[k]].path)], files)
  {
    var next := Placed(outcomes[files[k]].path);
    var more := outcomes + [next];
    hide LowerPath, KeyOf;
    forall i | PlacedAt(more, i) ensures Candidate(inputs[i]) && FromFile(inputs, true, more, files, i) {
      if i < |outcomes| {
        assert PlacedAt(outcomes, i);
        FromFileMore(inputs, true, outcomes, files, i, next, files);
      } else {
        assert PlacedAt(more, files[k]) && more[files[k]].path == more[i].path;
      }
    }
  }

  lemma FileMore(main: Path, inputs: seq<Input>, shared: bool, outcomes: seq<Outcome>, files: seq<nat>, path: Path)
    requires |outcomes| < |inputs| && Planned(main, inputs, shared, outcomes, files) && Candidate(inputs[|outcomes|])
    requires LowerPath(path) != LowerPath(main)
    requires forall k :: 0 <= k < |files| ==> LowerPath(outcomes[files[k]].path) != LowerPath(path)
    requires shared ==> forall k :: 0 <= k < |files| ==> KeyOf(inputs[files[k]]) != KeyOf(inputs[|outcomes|])
    ensures Planned(main, inputs, shared, outcomes + [Placed(path)], files + [|outcomes|])
  {
    var next := Placed(path);
    var more, files' := outcomes + [next], files + [|outcomes|];
    hide LowerPath, KeyOf;
    forall i | PlacedAt(more, i) ensures Candidate(inputs[i]) && FromFile(inputs, shared, more, files', i) {
      if i < |outcomes| {
        assert PlacedAt(outcomes, i);
        FromFileMore(inputs, shared, outcomes, files, i, next, files');
      } else {
        assert files'[|files|] == i && PlacedAt(more, files'[|files|]);
      }
    }
    forall k | 0 <= k < |files'| ensures PlacedAt(more, files'[k]) && inputs[files'[k]].body.Some? {
      assert k < |files| ==> PlacedAt(outcomes, files[k]);
    }
  }

  lemma StillLast(inputs: seq<Input>, outcomes: seq<Outcome>, next: Outcome, i: int, url: string)
    requires |outcomes| < |inputs| && LastPlaced(inputs, outcomes, i, url) && (next.Placed? ==> inputs[|outcomes|].url != url)
    ensures LastPlaced(inputs, outcomes + [next], i, url)
  {
    forall j | PlacedAt(outcomes + [next], j) && inputs[j].url == url ensures j <= i {
      assert PlacedAt(outcomes, j);
    }
  }

  lemma LinkedMore(main: Path, inputs: seq<Input>, outcomes: seq<Outcome>, links: map<string, Path>, next: Outcome)
    requires main != [] && |outcomes| < |inputs| && PathsNonEmpty(outcomes) && Linked(main, inputs, outcomes, links)
    requires next.Placed? ==> next.path != []
    ensures PathsNonEmpty(outcomes + [next])
    ensures Linked(main, inputs, outcomes + [next],
      if next.Placed? then links[inputs[|outcomes|].url := RelativeArchivePath(main, next.path)] else links)
  {
    hide RelativeArchivePath;
    var more := outcomes + [next];
    var after := if next.Placed? then links[inputs[|outcomes|].url := RelativeArchivePath(main, next.path)] else links;
    forall i | PlacedAt(more, i) ensures inputs[i].url in after && more[i].path != [] {
      assert i < |outcomes| ==> PlacedAt(outcomes, i);
    }
    forall url | url in after
      ensures exists i :: LastPlaced(inputs, more, i, url) && after[url] == RelativeArchivePath(main, more[i].path)
    {
      if next.Placed? && url == inputs[|outcomes|].url {
        assert LastPlaced(inputs, more, |outcomes|, url);
      } else {
        var i :| LastPlaced(inputs, outcomes, i, url) && links[url] == RelativeArchivePath(main, outcomes[i].path);
        StillLast(inputs, outcomes, next, i, url);
      }
    }
  }

  ghost predicate FilesOk(inputs: seq<Input>, outcomes: seq<Outcome>, files: seq<nat>) {
    forall k :: 0 <= k < |files| ==> PlacedAt(outcomes, files[k]) && files[k] < |inputs| && inputs[files[k]].body.Some?
  }

  /** The taken paths: the page's and those of the files. */
  ghost function Taken(main: Path, inputs: seq<Input>, outcomes: seq<Outcome>, files: seq<nat>): set<Path>
    requires FilesOk(inputs, outcomes, files)
  {
    {LowerPath(main)} + set k | 0 <= k < |files| :: LowerPath(outcomes[files[k]].path)
  }

  /** The files of the inputs before `i`; `files` ascends. */
  ghost function FilesBefore(files: seq<nat>, i: nat): (before: seq<nat>)
    ensures |before| <= |files| && before == files[..|before|]
  {
    if files == [] || files[|files| - 1] < i then files else FilesBefore(files[..|files| - 1], i)
  }

  /** What becomes of input `i`, given the files that the inputs before it have brought. */
  ghost predicate Decided(main: Path, inputs: seq<Input>, shared: bool, htmlBytes: nat, outcomes: seq<Outcome>, files: seq<nat>, i: nat)
    requires i < |outcomes| <= |inputs| && inputs[i].desired != [] && FilesOk(inputs, outcomes, files)
  {
    var input, before := inputs[i], FilesBefore(files, i);
    if input.skipped || input.body.None? then outcomes[i] == Skipped(AlreadySkipped)
    else if !input.eligible then outcomes[i] == Skipped(ExternalOrigin)
    else if shared && exists k :: 0 <= k < |before| && KeyOf(inputs[before[k]]) == KeyOf(input) then
      outcomes[i].Placed? && i !in files
    else if |before| + 1 >= MAX_FILES then outcomes[i] == Skipped(FileCountBudget)
    else if htmlBytes + FileBytes(inputs, before) + input.body.value > MAX_INPUT_BYTES then outcomes[i] == Skipped(InputBudget)
    else outcomes[i].Placed? && i in files && FirstFree(input.desired, Taken(main, inputs, outcomes, before), outcomes[i].path)
  }

  ghost predicate AllDecided(main: Path, inputs: seq<Input>, shared: bool, htmlBytes: nat, outcomes: seq<Outcome>, files: seq<nat>)
    requires |outcomes| <= |inputs| && FilesOk(inputs, outcomes, files)
    requires forall i :: 0 <= i < |inputs| ==> inputs[i].desired != []
  {
    forall i :: 0 <= i < |outcomes| ==> Decided(main, inputs, shared, htmlBytes, outcomes, files, i)
  }

  /** Each content key seen is stored with the file that holds it. */
  ghost predicate Stored(inputs: seq<Input>, outcomes: seq<Outcome>, files: seq<nat>, contents: map<ContentKey, Path>)
    requires FilesOk(inputs, outcomes, files)
  {
    && (forall k :: 0 <= k < |files| ==> KeyOf(inputs[files[k]]) in contents)
    && (forall key :: key in contents ==> exists k :: 0 <= k < |files| && KeyOf(inputs[files[k]]) == key
                                                      && outcomes[files[k]].path == contents[key])
  }

  /** Everything the loop keeps, apart from the budgets. */
  ghost predicate Going(main: Path, inputs: seq<Input>, shared: bool, htmlBytes: nat, outcomes: seq<Outcome>, files: seq<nat>,
                        links: map<string, Path>, used: set<Path>, contents: map<ContentKey, Path>)
    requires main != [] && forall i :: 0 <= i < |inputs| ==> inputs[i].desired != []
  {
    && |outcomes| <= |inputs| && FilesOk(inputs, outcomes, files)
    && Planned(main, inputs, shared, outcomes, files)
    && PathsNonEmpty(outcomes) && Linked(main, inputs, outcomes, links)
    && AllDecided(main, inputs, shared, htmlBytes, outcomes, files)
    && used == Taken(main, inputs, outcomes, files)
    && (shared ==> Stored(inputs, outcomes, files, contents))
  }

  /**
   * The plan: at most a hundred files with the page itself, and no more bytes
   * than the budget unless the page alone exceeds it.
   */
  method PlanStaticClone(main: Path, inputs: seq<Input>, htmlBytes: nat, shared: bool)
    returns (outcomes: seq<Outcome>, links: map<string, Path>, ghost files: seq<nat>)
    requires main != [] && forall i :: 0 <= i < |inputs| ==> inputs[i].desired != []
    ensures IsPlan(main, inputs, shared, htmlBytes, outcomes, links, files)
    ensures |files| + 1 <= MAX_FILES
    ensures files == [] || htmlBytes + FileBytes(inputs, files) <= MAX_INPUT_BYTES
  {
    hide Going, Planned, Linked, AllDecided, PathsNonEmpty, Taken, Stored, LowerPath, KeyOf;
    outcomes, links, files := [], map[], [];
    var used: set<Path> := {LowerPath(main)};
    var contents: map<ContentKey, Path> := map[];
    var plannedFiles, plannedBytes := 1, htmlBytes;
    Begin(main, inputs, shared, htmlBytes);
    for n := 0 to |inputs|
      invariant |outcomes| == n && FilesOk(inputs, outcomes, files)
      invariant Going(main, inputs, shared, htmlBytes, outcomes, files, links, used, contents)
      invariant plannedFiles == |files| + 1 <= MAX_FILES
      invariant plannedBytes == htmlBytes + FileBytes(inputs, files)
      invariant files == [] || plannedBytes <= MAX_INPUT_BYTES
    {
      var input := inputs[n];
      var outcome;
      if input.skipped || input.body.None? {
        outcome := Skipped(AlreadySkipped);
        GoOnSkipping(main, inputs, shared, htmlBytes, outcomes, files, links, used, contents, AlreadySkipped);
      } else if !input.eligible {
        outcome := Skipped(ExternalOrigin);
        GoOnSkipping(main, inputs, shared, htmlBytes, outcomes, files, links, used, contents, ExternalOrigin);
      } else if shared && KeyOf(input) in contents {
        outcome := Placed(contents[KeyOf(input)]);
        GoOnSharing(main, inputs, htmlBytes, outcomes, files, links, used, contents);
        links := links[input.url := RelativeArchivePath(main, outcome.path)];
      } else if plannedFiles >= MAX_FILES {
        outcome := Skipped(FileCountBudget);
        GoOnSkipping(main, inputs, shared, htmlBytes, outcomes, files, links, used, contents, FileCountBudget);
      } else if plannedBytes + input.body.value > MAX_INPUT_BYTES {
        outcome := Skipped(InputBudget);
        GoOnSkipping(main, inputs, shared, htmlBytes, outcomes, files, links, used, contents, InputBudget);
      } else {
        var path, taken, tries := DeduplicatePath(input.desired, used);
        outcome := Placed(path);
        GoOnPlacing(main, inputs, shared, htmlBytes, outcomes, files, links, used, contents, path);
        FileBytesMore(inputs, files, n);
        contents := if shared then contents[KeyOf(input) := path] else contents;
        used := taken;
        links := links[input.url := RelativeArchivePath(main, path)];
        files := files + [n];
        plannedFiles, plannedBytes := plannedFiles + 1, plannedBytes + input.body.value;
      }
      outcomes := outcomes + [outcome];
    }
    Gone(main, inputs, shared, htmlBytes, outcomes, files, links, used, contents);
  }

  lemma Gone(main: Path, inputs: seq<Input>, shared: bool, htmlBytes: nat, outcomes: seq<Outcome>, files: seq<nat>,
             links: map<string, Path>, used: set<Path>, contents: map<ContentKey, Path>)
    requires main != [] && forall i :: 0 <= i < |inputs| ==> inputs[i].desired != []
    requires Going(main, inputs, shared, htmlBytes, outcomes, files, links, used, contents)
    ensures |outcomes| <= |inputs| && FilesOk(inputs, outcomes, files) && Planned(main, inputs, shared, outcomes, files)
    ensures AllDecided(main, inputs, shared, htmlBytes, outcomes, files)
    ensures PathsNonEmpty(outcomes) && Linked(main, inputs, outcomes, links)
    ensures used == Taken(main, inputs, outcomes, files) && (shared ==> Stored(inputs, outcomes, files, contents))
  {}

  lemma GoingOn(main: Path, inputs: seq<Input>, shared: bool, htmlBytes: nat, outcomes: seq<Outcome>, files: seq<nat>,
                links: map<string, Path>, used: set<Path>, contents: map<ContentKey, Path>)
    requires main != [] && forall i :: 0 <= i < |inputs| ==> inputs[i].desired != []
    requires |outcomes| <= |inputs| && FilesOk(inputs, outcomes, files) && Planned(main, inputs, shared, outcomes, files)
    requires AllDecided(main, inputs, shared, htmlBytes, outcomes, files)
    requires PathsNonEmpty(outcomes) && Linked(main, inputs, outcomes, links)
    requires used == Taken(main, inputs, outcomes, files) && (shared ==> Stored(inputs, outcomes, files, contents))
    ensures Going(main, inputs, shared, htmlBytes, outcomes, files, links, used, contents)
  {}

  lemma Begin(main: Path, inputs: seq<Input>, shared: bool, htmlBytes: nat)
    requires main != [] && forall i :: 0 <= i < |inputs| ==> inputs[i].desired != []
    ensures Going(main, inputs, shared, htmlBytes, [], [], map[], {LowerPath(main)}, map[])
  {}

  // ------------------------------------------------------ one turn of the loop

  /** The inputs decided before stay decided; the files before an input stay the same. */
  lemma DecidedMore(main: Path, inputs: seq<Input>, shared: bool, htmlBytes: nat, outcomes: seq<Outcome>, files: seq<nat>,
                    next: Outcome, files': seq<nat>)
    requires forall i :: 0 <= i < |inputs| ==> inputs[i].desired != []
    requires |outcomes| < |inputs| && FilesOk(inputs, outcomes, files) && AllDecided(main, inputs, shared, htmlBytes, outcomes, files)
    requires files' == files || files' == files + [|outcomes|]
    requires FilesOk(inputs, outcomes + [next], files')
    requires Decided(main, inputs, shared, htmlBytes, outcomes + [next], files', |outcomes|)
    ensures AllDecided(main, inputs, shared, htmlBytes, outcomes + [next], files')
  {
    hide Decided, FilesOk;
    forall i | 0 <= i < |outcomes| ensures Decided(main, inputs, shared, htmlBytes, outcomes + [next], files', i) {
      assert Decided(main, inputs, shared, htmlBytes, outcomes, files, i);
      DecidedStays(main, inputs, shared, htmlBytes, outcomes, files, next, files', i);
    }
  }

  lemma DecidedStays(main: Path, inputs: seq<Input>, shared: bool, htmlBytes: nat, outcomes: seq<Outcome>, files: seq<nat>,
                     next: Outcome, files': seq<nat>, i: nat)
    requires i < |outcomes| < |inputs| && inputs[i].desired != []
    requires FilesOk(inputs, outcomes, files) && Decided(main, inputs, shared, htmlBytes, outcomes, files, i)
    requires files' == files || files' == files + [|outcomes|]
    requires FilesOk(inputs, outcomes + [next], files')
    ensures Decided(main, inputs, shared, htmlBytes, outcomes + [next], files', i)
  {
    hide LowerPath, KeyOf, FirstFree, FilesBefore, FileBytes, Taken;
    BeforeMore(files, |outcomes|, i);
    TakenMore(main, inputs, outcomes, FilesBefore(files, i), next);
    assert i in files' <==> i in files;
  }

  lemma BeforeMore(files: seq<nat>, n: nat, i: nat)
    requires i <= n
    ensures FilesBefore(files + [n], i) == FilesBefore(files, i)
    ensures (forall k :: 0 <= k < |files| ==> files[k] < n) ==> FilesBefore(files, n) == files
  {
    assert (files + [n])[..|files|] == files;
  }

  lemma TakenMore(main: Path, inputs: seq<Input>, outcomes: seq<Outcome>, files: seq<nat>, next: Outcome)
    requires FilesOk(inputs, outcomes, files)
    ensures FilesOk(inputs, outcomes + [next], files)
    ensures Taken(main, inputs, outcomes + [next], files) == Taken(main, inputs, outcomes, files)
  {
    hide LowerPath;
    var more := outcomes + [next];
    assert forall k :: 0 <= k < |files| ==> PlacedAt(outcomes, files[k]) && more[files[k]] == outcomes[files[k]];
  }

  lemma StoredMore(inputs: seq<Input>, outcomes: seq<Outcome>, files: seq<nat>, contents: map<ContentKey, Path>, next: Outcome)
    requires FilesOk(inputs, outcomes, files) && Stored(inputs, outcomes, files, contents)
    ensures FilesOk(inputs, outcomes + [next], files) && Stored(inputs, outcomes + [next], files, contents)
  {
    hide KeyOf;
    var more := outcomes + [next];
    assert forall k :: 0 <= k < |files| ==> PlacedAt(outcomes, files[k]) && more[files[k]] == outcomes[files[k]];
  }

  /** The branch that refuses an input. */
  ghost predicate Refusal(inputs: seq<Input>, shared: bool, htmlBytes: nat, files: seq<nat>, n: nat, contents: map<ContentKey, Path>, reason: SkipReason)
    requires n < |inputs| && forall k :: 0 <= k < |files| ==> files[k] < |inputs| && inputs[files[k]].body.Some?
  {
    var input := inputs[n];
    if input.skipped || input.body.None? then reason == AlreadySkipped
    else if !input.eligible then reason == ExternalOrigin
    else
      && !(shared && KeyOf(input) in contents)
      && if |files| + 1 >= MAX_FILES then reason == FileCountBudget
         else htmlBytes + FileBytes(inputs, files) + input.body.value > MAX_INPUT_BYTES && reason == InputBudget
  }

  lemma GoOnSkipping(main: Path, inputs: seq<Input>, shared: bool, htmlBytes: nat, outcomes: seq<Outcome>, files: seq<nat>,
                     links: map<string, Path>, used: set<Path>, contents: map<ContentKey, Path>, reason: SkipReason)
    requires main != [] && forall i :: 0 <= i < |inputs| ==> inputs[i].desired != []
    requires |outcomes| < |inputs| && Going(main, inputs, shared, htmlBytes, outcomes, files, links, used, contents)
    requires FilesOk(inputs, outcomes, files) && Refusal(inputs, shared, htmlBytes, files, |outcomes|, contents, reason)
    ensures FilesOk(inputs, outcomes + [Skipped(reason)], files)
    ensures Going(main, inputs, shared, htmlBytes, outcomes + [Skipped(reason)], files, links, used, contents)
  {
    hide Planned, Linked, AllDecided, PathsNonEmpty, Taken, Stored, LowerPath, KeyOf, Decided;
    SkipMore(main, inputs, shared, outcomes, files, reason);
    LinkedMore(main, inputs, outcomes, links, Skipped(reason));
    TakenMore(main, inputs, outcomes, files, Skipped(reason));
    if shared {
      StoredMore(inputs, outcomes, files, contents, Skipped(reason));
    }
    SkippedDecided(main, inputs, shared, htmlBytes, outcomes, files, contents, reason);
    DecidedMore(main, inputs, shared, htmlBytes, outcomes, files, Skipped(reason), files);
  }

  lemma SkippedDecided(main: Path, inputs: seq<Input>, shared: bool, htmlBytes: nat, outcomes: seq<Outcome>, files: seq<nat>,
                       contents: map<ContentKey, Path>, reason: SkipReason)
    requires |outcomes| < |inputs| && inputs[|outcomes|].desired != [] && FilesOk(inputs, outcomes, files)
    requires shared ==> Stored(inputs, outcomes, files, contents)
    requires Refusal(inputs, shared, htmlBytes, files, |outcomes|, contents, reason)
    ensures FilesOk(inputs, outcomes + [Skipped(reason)], files)
    ensures Decided(main, inputs, shared, htmlBytes, outcomes + [Skipped(reason)], files, |outcomes|)
  {
    hide LowerPath, KeyOf, Taken, Stored, FileBytes, FirstFree, FilesBefore;
    TakenMore(main, inputs, outcomes, files, Skipped(reason));
    BeforeMore(files, |outcomes|, |outcomes|);
    if shared && KeyOf(inputs[|outcomes|]) !in contents {
      NewKey(inputs, outcomes, files, contents, KeyOf(inputs[|outcomes|]));
    }
  }

  lemma GoOnSharing(main: Path, inputs: seq<Input>, htmlBytes: nat, outcomes: seq<Outcome>, files: seq<nat>,
                    links: map<string, Path>, used: set<Path>, contents: map<ContentKey, Path>)
    requires main != [] && forall i :: 0 <= i < |inputs| ==> inputs[i].desired != []
    requires |outcomes| < |inputs| && Going(main, inputs, true, htmlBytes, outcomes, files, links, used, contents)
    requires Candidate(inputs[|outcomes|]) && KeyOf(inputs[|outcomes|]) in contents
    ensures contents[KeyOf(inputs[|outcomes|])] != []
    ensures var path := contents[KeyOf(inputs[|outcomes|])];
      && FilesOk(inputs, outcomes + [Placed(path)], files)
      && Going(main, inputs, true, htmlBytes, outcomes + [Placed(path)], files,
               links[inputs[|outcomes|].url := RelativeArchivePath(main, path)], used, contents)
  {
    hide Planned, Linked, AllDecided, Taken, Stored, LowerPath, KeyOf, Decided, Candidate;
    var next := Placed(contents[KeyOf(inputs[|outcomes|])]);
    var k := HolderOf(inputs, outcomes, files, contents, KeyOf(inputs[|outcomes|]));
    ShareMore(main, inputs, outcomes, files, k);
    assert PlacedAt(outcomes, files[k]);
    LinkedMore(main, inputs, outcomes, links, next);
    TakenMore(main, inputs, outcomes, files, next);
    StoredMore(inputs, outcomes, files, contents, next);
    SharedDecided(main, inputs, htmlBytes, outcomes, files, k, next);
    DecidedMore(main, inputs, true, htmlBytes, outcomes, files, next, files);
  }

  lemma HolderOf(inputs: seq<Input>, outcomes: seq<Outcome>, files: seq<nat>, contents: map<ContentKey, Path>, key: ContentKey) returns (k: nat)
    requires FilesOk(inputs, outcomes, files) && Stored(inputs, outcomes, files, contents) && key in contents
    ensures k < |files| && KeyOf(inputs[files[k]]) == key && outcomes[files[k]].path == contents[key]
  {
    hide KeyOf;
    k :| 0 <= k < |files| && KeyOf(inputs[files[k]]) == key && outcomes[files[k]].path == contents[key];
  }

  lemma SharedDecided(main: Path, inputs: seq<Input>, htmlBytes: nat, outcomes: seq<Outcome>, files: seq<nat>, k: nat, next: Outcome)
    requires |outcomes| < |inputs| && inputs[|outcomes|].desired != [] && FilesOk(inputs, outcomes, files) && next.Placed?
    requires Candidate(inputs[|outcomes|]) && k < |files| && KeyOf(inputs[files[k]]) == KeyOf(inputs[|outcomes|])
    ensures FilesOk(inputs, outcomes + [next], files)
    ensures Decided(main, inputs, true, htmlBytes, outcomes + [next], files, |outcomes|)
  {
    hide LowerPath, KeyOf, Taken;
    TakenMore(main, inputs, outcomes, files, next);
    BeforeMore(files, |outcomes|, |outcomes|);
  }

  lemma GoOnPlacing(main: Path, inputs: seq<Input>, shared: bool, htmlBytes: nat, outcomes: seq<Outcome>, files: seq<nat>,
                    links: map<string, Path>, used: set<Path>, contents: map<ContentKey, Path>, path: Path)
    requires main != [] && forall i :: 0 <= i < |inputs| ==> inputs[i].desired != []
    requires |outcomes| < |inputs| && Going(main, inputs, shared, htmlBytes, outcomes, files, links, used, contents)
    requires FilesOk(inputs, outcomes, files) && Candidate(inputs[|outcomes|])
    requires shared ==> KeyOf(inputs[|outcomes|]) !in contents
    requires |files| + 1 < MAX_FILES && htmlBytes + FileBytes(inputs, files) + inputs[|outcomes|].body.value <= MAX_INPUT_BYTES
    requires FirstFree(inputs[|outcomes|].desired, used, path)
    ensures path != []
    ensures var next, files' := Placed(path), files + [|outcomes|];
      && FilesOk(inputs, outcomes + [next], files')
      && Going(main, inputs, shared, htmlBytes, outcomes + [next], files',
               links[inputs[|outcomes|].url := RelativeArchivePath(main, path)], used + {LowerPath(path)},
               if shared then contents[KeyOf(inputs[|outcomes|]) := path] else contents)
  {
    hide Going, FilesOk, Planned, PathsNonEmpty, Linked, AllDecided, Taken, Stored, LowerPath, KeyOf, Decided, FileBytes, FirstFree;
    var next, files' := Placed(path), files + [|outcomes|];
    var key := KeyOf(inputs[|outcomes|]);
    Gone(main, inputs, shared, htmlBytes, outcomes, files, links, used, contents);
    assert path != [] && LowerPath(path) !in used by { FirstFreeIsFree(inputs[|outcomes|].desired, used, path); }
    FreePath(main, inputs, outcomes, files, path);
    if shared {
      NewKey(inputs, outcomes, files, contents, key);
    }
    FileMore(main, inputs, shared, outcomes, files, path);
    LinkedMore(main, inputs, outcomes, links, next);
    PlacedFiles(main, inputs, outcomes, files, path);
    if shared {
      PlacedStored(inputs, outcomes, files, contents, path);
    }
    PlacedDecided(main, inputs, shared, htmlBytes, outcomes, files, path);
    DecidedMore(main, inputs, shared, htmlBytes, outcomes, files, next, files');
    GoingOn(main, inputs, shared, htmlBytes, outcomes + [next], files', links[inputs[|outcomes|].url := RelativeArchivePath(main, path)],
            used + {LowerPath(path)}, if shared then contents[key := path] else contents);
  }

  lemma FirstFreeIsFree(desired: Path, used: set<Path>, path: Path)
    requires desired != [] && FirstFree(desired, used, path)
    ensures path != [] && LowerPath(path) !in used
  {}

  lemma FreePath(main: Path, inputs: seq<Input>, outcomes: seq<Outcome>, files: seq<nat>, path: Path)
    requires FilesOk(inputs, outcomes, files) && LowerPath(path) !in Taken(main, inputs, outcomes, files)
    ensures LowerPath(path) != LowerPath(main)
    ensures forall k :: 0 <= k < |files| ==> LowerPath(outcomes[files[k]].path) != LowerPath(path)
  {
    hide LowerPath;
  }

  lemma NewKey(inputs: seq<Input>, outcomes: seq<Outcome>, files: seq<nat>, contents: map<ContentKey, Path>, key: ContentKey)
    requires FilesOk(inputs, outcomes, files) && Stored(inputs, outcomes, files, contents) && key !in contents
    ensures forall k :: 0 <= k < |files| ==> KeyOf(inputs[files[k]]) != key
  {
    hide KeyOf;
  }

  lemma PlacedFiles(main: Path, inputs: seq<Input>, outcomes: seq<Outcome>, files: seq<nat>, path: Path)
    requires |outcomes| < |inputs| && inputs[|outcomes|].body.Some? && FilesOk(inputs, outcomes, files)
    ensures var more, files' := outcomes + [Placed(path)], files + [|outcomes|];
      FilesOk(inputs, more, files') && Taken(main, inputs, more, files') == Taken(main, inputs, outcomes, files) + {LowerPath(path)}
  {
    hide LowerPath;
    var more, files' := outcomes + [Placed(path)], files + [|outcomes|];
    TakenMore(main, inputs, outcomes, files, Placed(path));
    assert forall k :: 0 <= k < |files| ==> files'[k] == files[k];
    assert files'[|files|] == |outcomes|;
    forall p | p in Taken(main, inputs, more, files) ensures p in Taken(main, inputs, more, files') {
      if k :| 0 <= k < |files| && LowerPath(more[files[k]].path) == p {
        assert LowerPath(more[files'[k]].path) == p;
      }
    }
    assert LowerPath(more[files'[|files|]].path) == LowerPath(path);
  }

  lemma PlacedStored(inputs: seq<Input>, outcomes: seq<Outcome>, files: seq<nat>, contents: map<ContentKey, Path>, path: Path)
    requires |outcomes| < |inputs| && inputs[|outcomes|].body.Some? && FilesOk(inputs, outcomes, files)
    requires Stored(inputs, outcomes, files, contents) && KeyOf(inputs[|outcomes|]) !in contents
    ensures var more, files' := outcomes + [Placed(path)], files + [|outcomes|];
      FilesOk(inputs, more, files') && Stored(inputs, more, files', contents[KeyOf(inputs[|outcomes|]) := path])
  {
    hide KeyOf;
    var more, files' := outcomes + [Placed(path)], files + [|outcomes|];
    var key := KeyOf(inputs[|outcomes|]);
    var after := contents[key := path];
    assert forall k :: 0 <= k < |files| ==> files'[k] == files[k] && PlacedAt(outcomes, files[k]);
    assert files'[|files|] == |outcomes|;
    forall other | other in after
      ensures exists k :: 0 <= k < |files'| && KeyOf(inputs[files'[k]]) == other && more[files'[k]].path == after[other]
    {
      if other == key {
        assert more[files'[|files|]].path == after[other];
      } else {
        var k := HolderOf(inputs, outcomes, files, contents, other);
        assert KeyOf(inputs[files'[k]]) == other && more[files'[k]].path == after[other];
      }
    }
  }

  lemma PlacedDecided(main: Path, inputs: seq<Input>, shared: bool, htmlBytes: nat, outcomes: seq<Outcome>, files: seq<nat>, path: Path)
    requires |outcomes| < |inputs| && inputs[|outcomes|].desired != [] && FilesOk(inputs, outcomes, files) && Candidate(inputs[|outcomes|])
    requires shared ==> forall k :: 0 <= k < |files| ==> KeyOf(inputs[files[k]]) != KeyOf(inputs[|outcomes|])
    requires |files| + 1 < MAX_FILES && htmlBytes + FileBytes(inputs, files) + inputs[|outcomes|].body.value <= MAX_INPUT_BYTES
    requires FirstFree(inputs[|outcomes|].desired, Taken(main, inputs, outcomes, files), path)
    ensures var more, files' := outcomes + [Placed(path)], files + [|outcomes|];
      FilesOk(inputs, more, files') && Decided(main, inputs, shared, htmlBytes, more, files', |outcomes|)
  {
    hide LowerPath, KeyOf, Taken, FirstFree;
    var more, files' := outcomes + [Placed(path)], files + [|outcomes|];
    PlacedFiles(main, inputs, outcomes, files, path);
    TakenMore(main, inputs, outcomes, files, Placed(path));
    BeforeMore(files, |outcomes|, |outcomes|);
    assert files'[|files|] == |outcomes|;
  }

  // ------------------------------------------------------- where the links lead

  /** What PlanStaticClone gives. */
  ghost predicate IsPlan(main: Path, inputs: seq<Input>, shared: bool, htmlBytes: nat, outcomes: seq<Outcome>, links: map<string, Path>, files: seq<nat>)
    requires main != [] && forall i :: 0 <= i < |inputs| ==> inputs[i].desired != []
  {
    && |outcomes| == |inputs| && FilesOk(inputs, outcomes, files) && Planned(main, inputs, shared, outcomes, files)
    && AllDecided(main, inputs, shared, htmlBytes, outcomes, files)
    && PathsNonEmpty(outcomes) && Linked(main, inputs, outcomes, links)
  }

  /** A file of its own lies on a variant of the path it asked for. */
  lemma FileFolder(main: Path, inputs: seq<Input>, shared: bool, htmlBytes: nat, outcomes: seq<Outcome>, files: seq<nat>, f: nat)
    requires |outcomes| == |inputs| && f < |inputs| && inputs[f].desired != [] && Normal(inputs[f].desired)
    requires FilesOk(inputs, outcomes, files) && f in files && Decided(main, inputs, shared, htmlBytes, outcomes, files, f)
    ensures outcomes[f].Placed? && outcomes[f].path != []
    ensures Normal(outcomes[f].path) && Dir(outcomes[f].path) == Dir(inputs[f].desired)
  {
    hide FirstFree, Taken, FilesBefore, FileBytes, KeyOf, Normal;
    var before := FilesBefore(files, f);
    assert PlacedAt(outcomes, f);
    FirstFreeNormal(inputs[f].desired, Taken(main, inputs, outcomes, before), outcomes[f].path);
  }

  /** Every planned path lies in the folder of a path that some input asked for. */
  lemma PlannedFolder(main: Path, inputs: seq<Input>, shared: bool, htmlBytes: nat, outcomes: seq<Outcome>, links: map<string, Path>, files: seq<nat>, i: int)
    requires main != [] && forall j :: 0 <= j < |inputs| ==> inputs[j].desired != [] && Normal(inputs[j].desired)
    requires IsPlan(main, inputs, shared, htmlBytes, outcomes, links, files) && PlacedAt(outcomes, i)
    ensures outcomes[i].path != [] && Normal(outcomes[i].path)
    ensures exists f :: 0 <= f < |inputs| && Dir(outcomes[i].path) == Dir(inputs[f].desired)
  {
    hide Decided, KeyOf, LowerPath, Linked;
    assert FromFile(inputs, shared, outcomes, files, i);
    var k :| 0 <= k < |files| && PlacedAt(outcomes, files[k]) && outcomes[files[k]].path == outcomes[i].path
             && (files[k] == i || (shared && KeyOf(inputs[files[k]]) == KeyOf(inputs[i])));
    assert Decided(main, inputs, shared, htmlBytes, outcomes, files, files[k]);
    FileFolder(main, inputs, shared, htmlBytes, outcomes, files, files[k]);
  }

  /**
   * Every link written into the page belongs to the last placed input with that
   * URL, and leads to its file unless that bears the name of the page's own
   * directory.
   */
  lemma LinksLead(main: Path, inputs: seq<Input>, shared: bool, htmlBytes: nat, outcomes: seq<Outcome>, links: map<string, Path>, files: seq<nat>, url: string)
    requires main != [] && forall i :: 0 <= i < |inputs| ==> inputs[i].desired != [] && Normal(inputs[i].desired)
    requires IsPlan(main, inputs, shared, htmlBytes, outcomes, links, files) && url in links
    ensures exists i ::
      && LastPlaced(inputs, outcomes, i, url)
      && (Follow(Dir(main), links[url]) == outcomes[i].path <==> outcomes[i].path != Dir(main))
  {
    var i :| LastPlaced(inputs, outcomes, i, url) && links[url] == RelativeArchivePath(main, outcomes[i].path);
    PlannedFolder(main, inputs, shared, htmlBytes, outcomes, links, files, i);
    hide RelativeArchivePath, Follow, Normal;
    LinkRoundTrip(main, outcomes[i].path);
  }

  /** Content addressing asks for a path in the asset folder, named after the content. */
  ghost predicate ContentAddressed(inputs: seq<Input>) {
    forall i :: 0 <= i < |inputs| ==> |inputs[i].desired| == 2 && inputs[i].desired[0] == "assets" && Normal(inputs[i].desired)
  }

  /** The page's link for `url`, followed from its directory, is the path of the last placed input with that URL. */
  ghost predicate LeadsToFile(main: Path, inputs: seq<Input>, outcomes: seq<Outcome>, links: map<string, Path>, url: string)
    requires main != [] && |outcomes| <= |inputs|
  {
    url in links && exists i :: LastPlaced(inputs, outcomes, i, url) && Follow(Dir(main), links[url]) == outcomes[i].path
  }

  /** No link is for a file that bears the name of the page's own directory. */
  ghost predicate NoneIsFolder(main: Path, inputs: seq<Input>, outcomes: seq<Outcome>, links: map<string, Path>)
    requires main != [] && |outcomes| <= |inputs|
  {
    forall i, url :: url in links && LastPlaced(inputs, outcomes, i, url) ==> outcomes[i].path != Dir(main)
  }

  /**
   * With content addressing all links lead to their files, if and only if none
   * of these bears the name of the page's own directory; and that none does is
   * certain for any page but one in a folder among the assets.
   */
  lemma ContentAddressedLinksLead(main: Path, inputs: seq<Input>, htmlBytes: nat, outcomes: seq<Outcome>, links: map<string, Path>, files: seq<nat>)
    requires main != [] && ContentAddressed(inputs)
    requires IsPlan(main, inputs, true, htmlBytes, outcomes, links, files)
    ensures (forall url :: url in links ==> LeadsToFile(main, inputs, outcomes, links, url)) <==> NoneIsFolder(main, inputs, outcomes, links)
    ensures !(|main| == 3 && main[0] == "assets") ==> NoneIsFolder(main, inputs, outcomes, links)
  {
    hide ContentAddressed, Follow, Linked, Planned, AllDecided;
    forall i, url | url in links && LastPlaced(inputs, outcomes, i, url)
      ensures LeadsToFile(main, inputs, outcomes, links, url) <==> outcomes[i].path != Dir(main)
      ensures outcomes[i].path == Dir(main) ==> |main| == 3 && main[0] == "assets"
    {
      AllNormal(inputs);
      LinksLead(main, inputs, true, htmlBytes, outcomes, links, files, url);
      AssetPath(main, inputs, htmlBytes, outcomes, links, files, i);
    }
    forall url | url in links ensures exists i :: LastPlaced(inputs, outcomes, i, url) {
      AllNormal(inputs);
      LinksLead(main, inputs, true, htmlBytes, outcomes, links, files, url);
    }
  }

  lemma AllNormal(inputs: seq<Input>)
    requires ContentAddressed(inputs)
    ensures forall i :: 0 <= i < |inputs| ==> inputs[i].desired != [] && Normal(inputs[i].desired)
  {}

  lemma AssetPath(main: Path, inputs: seq<Input>, htmlBytes: nat, outcomes: seq<Outcome>, links: map<string, Path>, files: seq<nat>, i: int)
    requires main != [] && ContentAddressed(inputs)
    requires IsPlan(main, inputs, true, htmlBytes, outcomes, links, files) && PlacedAt(outcomes, i)
    ensures outcomes[i].path == Dir(main) ==> |main| == 3 && main[0] == "assets"
  {
    PlannedFolder(main, inputs, true, htmlBytes, outcomes, links, files, i);
    hide Linked, Planned, AllDecided;
    var f :| 0 <= f < |inputs| && Dir(outcomes[i].path) == Dir(inputs[f].desired);
    AssetIsNoFolder(main, outcomes[i].path, inputs[f].desired);
  }

  lemma AssetIsNoFolder(main: Path, path: Path, desired: Path)
    requires main != [] && path != [] && |desired| == 2 && desired[0] == "assets" && Dir(path) == Dir(desired)
    ensures path == Dir(main) ==> |main| == 3 && main[0] == "assets"
  {
    assert |Dir(path)| == 1 && Dir(path)[0] == path[0];
  }
}
