/**
 * Aliases between archive paths. A path stands for its lower-case form. An
 * alias map is used by following it until a path that has no alias.
 */
module ResourceAliases {
  import opened Common

  type Path = string

  /** The end of the trail of `path`; a path seen before has no alias any more. */
  function Resolve(aliases: map<Path, Path>, path: Path): (end: Path)
    decreases |aliases|
  {
    if path !in aliases then path
    else
      assert aliases.Keys == (aliases - {path}).Keys + {path};
      Resolve(aliases - {path}, aliases[path])
  }

  /** The aliases in the order they were made: each led to a path without an alias at the time. */
  ghost predicate Ordered(aliases: map<Path, Path>, history: seq<Path>) {
    && Distinct(history)
    && (forall p :: p in aliases <==> p in history)
    && (forall i :: 0 <= i < |history| ==> aliases[history[i]] !in history[..i + 1])
  }

  lemma InPrefix(history: seq<Path>, k: nat)
    requires k <= |history|
    ensures forall j :: 0 <= j < k ==> history[j] in history[..k]
  {
    forall j | 0 <= j < k ensures history[j] in history[..k] {
      assert history[..k][j] == history[j];
    }
  }

  /** Paths left behind do not come up again. */
  lemma {:induction false} Forward(aliases: map<Path, Path>, history: seq<Path>, left: set<Path>, k: nat, path: Path)
    requires Ordered(aliases, history) && k <= |history|
    requires forall p :: p in left ==> p in history[..k]
    requires path !in history[..k]
    ensures Resolve(aliases - left, path) == Resolve(aliases, path)
    ensures Resolve(aliases, path) !in aliases
    ensures path in aliases ==> Resolve(aliases, path) == Resolve(aliases, aliases[path])
    decreases |history| - k
  {
    if path in aliases {
      var i :| 0 <= i < |history| && history[i] == path;
      InPrefix(history, k);
      forall p | p in left + {path} ensures p in history[..i + 1] {
        if p in left {
          var j :| 0 <= j < k && history[..k][j] == p;
          assert history[..i + 1][j] == p;
        } else {
          assert history[..i + 1][i] == path;
        }
      }
      assert (aliases - left) - {path} == aliases - (left + {path});
      Forward(aliases, history, left + {path}, i + 1, aliases[path]);
      Forward(aliases, history, {path}, i + 1, aliases[path]);
    } else {
      assert path !in aliases - left;
    }
  }

  /** Aliases made in order never go round in circles. */
  lemma ResolveEnds(aliases: map<Path, Path>, history: seq<Path>, path: Path)
    requires Ordered(aliases, history)
    ensures Resolve(aliases, path) !in aliases
    ensures path in aliases ==> Resolve(aliases, path) == Resolve(aliases, aliases[path])
  {
    Forward(aliases, history, {}, 0, path);
  }

  /** A new alias from one unaliased path to another keeps the order. */
  lemma AddAlias(aliases: map<Path, Path>, history: seq<Path>, p: Path, c: Path)
    requires Ordered(aliases, history) && p !in aliases && c !in aliases && p != c
    ensures Ordered(aliases[p := c], history + [p])
  {
    var more, longer := aliases[p := c], history + [p];
    forall i | 0 <= i < |longer| ensures more[longer[i]] !in longer[..i + 1] {
      if i < |history| {
        assert longer[..i + 1] == history[..i + 1];
        assert longer[i] == history[i] && history[i] in history;
      } else {
        assert longer[..i + 1] == longer;
      }
    }
  }

  /** It redirects exactly the trails that used to end at `p`. */
  lemma {:induction false} AddRedirects(aliases: map<Path, Path>, history: seq<Path>, p: Path, c: Path, path: Path)
    requires Ordered(aliases, history) && p !in aliases && c !in aliases && p != c
    ensures Resolve(aliases[p := c], path) == if Resolve(aliases, path) == p then c else Resolve(aliases, path)
    ensures Resolve(aliases[p := c], Resolve(aliases, path)) == Resolve(aliases[p := c], path)
    decreases if path in aliases then |aliases| + 1 - Position(history, path) else 0
  {
    AddAlias(aliases, history, p, c);
    ResolveEnds(aliases, history, path);
    ResolveEnds(aliases[p := c], history + [p], path);
    if path in aliases {
      PositionRises(aliases, history, path);
      AddRedirects(aliases, history, p, c, aliases[path]);
    } else if path == p {
      ResolveEnds(aliases[p := c], history + [p], c);
    }
  }

  ghost function Position(history: seq<Path>, p: Path): nat
    ensures p in history ==> Position(history, p) < |history| && history[Position(history, p)] == p
    ensures p !in history ==> Position(history, p) == |history|
  {
    if history == [] then 0
    else if history[0] == p then 0
    else 1 + Position(history[1..], p)
  }

  lemma PositionRises(aliases: map<Path, Path>, history: seq<Path>, p: Path)
    requires Ordered(aliases, history) && p in aliases
    ensures aliases[p] in aliases ==> Position(history, aliases[p]) > Position(history, p)
    ensures Position(history, p) < |history| == |aliases|
  {
    var i := Position(history, p);
    HistorySize(aliases, history);
    InPrefix(history, i + 1);
  }

  lemma HistorySize(aliases: map<Path, Path>, history: seq<Path>)
    requires Ordered(aliases, history)
    ensures |history| == |aliases|
  {
    DistinctSize(history);
    assert aliases.Keys == set p | p in history;
  }

  lemma {:induction false} DistinctSize(s: seq<Path>)
    requires Distinct(s)
    ensures |set p | p in s| == |s|
  {
    if s == [] {
      assert (set p | p in s) == {};
    } else {
      DistinctSize(s[1..]);
      assert (set p | p in s) == (set p | p in s[1..]) + {s[0]};
    }
  }

  /** resolveResourceAlias: follows aliases, and gives up (None) when a path comes up twice. */
  method ResolveResourceAlias(path: Path, aliases: map<Path, Path>) returns (end: Option<Path>)
    ensures end.Some? <==> Resolve(aliases, path) !in aliases
    ensures end.Some? ==> end.value == Resolve(aliases, path)
  {
    var current := path;
    var seen: set<Path> := {};
    assert aliases - seen == aliases;
    while current in aliases
      invariant seen <= aliases.Keys
      invariant Resolve(aliases - seen, current) == Resolve(aliases, path)
      decreases aliases.Keys - seen
    {
      if current in seen {
        return None;
      }
      assert (aliases - seen) - {current} == aliases - (seen + {current});
      seen := seen + {current};
      current := aliases[current];
    }
    end := Some(current);
  }

  /** A packaged file that is not a stylesheet: its path and what it holds (hash and representation). */
  datatype Resource = Resource(path: Path, content: string)

  /** Equal paths carry equal contents. */
  ghost predicate PathsAgree(files: seq<Resource>) {
    forall i, j :: 0 <= i < |files| && 0 <= j < |files| && files[i].path == files[j].path ==> files[i].content == files[j].content
  }

  /** The canonical path of every content seen so far is unaliased, and the aliased paths are the other ones. */
  ghost predicate Canonical(files: seq<Resource>, n: nat, aliases: map<Path, Path>, canonical: map<string, Path>)
    requires n <= |files|
  {
    && (forall i :: 0 <= i < n ==> files[i].content in canonical)
    && (forall c :: c in canonical ==> canonical[c] !in aliases && Holds(files, n, canonical[c], c))
    && (forall i :: 0 <= i < n ==>
          if canonical[files[i].content] == files[i].path then files[i].path !in aliases
          else files[i].path in aliases && aliases[files[i].path] == canonical[files[i].content])
    && (forall p :: p in aliases ==> exists i :: 0 <= i < n && files[i].path == p)
  }

  /** The first of the files with this content has this path. */
  ghost predicate Holds(files: seq<Resource>, n: nat, path: Path, content: string)
    requires n <= |files|
  {
    exists k :: 0 <= k < n && files[k] == Resource(path, content) && forall j :: 0 <= j < k ==> files[j].content != content
  }

  lemma HoldsMore(files: seq<Resource>, n: nat)
    requires n < |files|
    ensures forall p, c {:trigger Holds(files, n + 1, p, c)} :: Holds(files, n, p, c) ==> Holds(files, n + 1, p, c)
    ensures (forall j :: 0 <= j < n ==> files[j].content != files[n].content) ==> Holds(files, n + 1, files[n].path, files[n].content)
  {
    assert files[n] == Resource(files[n].path, files[n].content);
  }

  lemma AliasStep(files: seq<Resource>, n: nat, aliases: map<Path, Path>, canonical: map<string, Path>)
    requires PathsAgree(files) && n < |files| && Canonical(files, n, aliases, canonical)
    requires files[n].content in canonical && canonical[files[n].content] != files[n].path
    ensures Canonical(files, n + 1, aliases[files[n].path := canonical[files[n].content]], canonical)
    ensures files[n].path in aliases ==> aliases[files[n].path] == canonical[files[n].content]
  {
    hide PathsAgree, Holds;
    HoldsMore(files, n);
    forall c | c in canonical ensures canonical[c] != files[n].path {
      HolderAgrees(files, n, canonical[c], c);
    }
    AliasedBefore(files, n, aliases, canonical);
  }

  /** A path that comes again with its content already has the alias it is due. */
  lemma AliasedBefore(files: seq<Resource>, n: nat, aliases: map<Path, Path>, canonical: map<string, Path>)
    requires PathsAgree(files) && n < |files| && Canonical(files, n, aliases, canonical) && files[n].content in canonical
    ensures files[n].path in aliases ==> aliases[files[n].path] == canonical[files[n].content]
  {
    hide Holds;
    if files[n].path in aliases {
      var i :| 0 <= i < n && files[i].path == files[n].path;
      assert files[i].content == files[n].content;
    }
  }

  lemma HolderAgrees(files: seq<Resource>, n: nat, path: Path, content: string)
    requires PathsAgree(files) && n < |files| && Holds(files, n, path, content)
    ensures path == files[n].path ==> content == files[n].content
  {
    var k :| 0 <= k < n && files[k] == Resource(path, content) && forall j :: 0 <= j < k ==> files[j].content != content;
  }

  lemma KeepStep(files: seq<Resource>, n: nat, aliases: map<Path, Path>, canonical: map<string, Path>)
    requires PathsAgree(files) && n < |files| && Canonical(files, n, aliases, canonical)
    requires files[n].content in canonical ==> canonical[files[n].content] == files[n].path
    ensures Canonical(files, n + 1, aliases, canonical[files[n].content := files[n].path])
  {
    hide PathsAgree, Holds;
    HoldsMore(files, n);
    KeptIsUnaliased(files, n, aliases, canonical);
    var more := canonical[files[n].content := files[n].path];
    assert forall c :: c in more ==> more[c] !in aliases && Holds(files, n + 1, more[c], c);
    forall i | 0 <= i < n + 1
      ensures if more[files[i].content] == files[i].path then files[i].path !in aliases
              else files[i].path in aliases && aliases[files[i].path] == more[files[i].content]
    {
      assert i < n && files[i].content != files[n].content ==> more[files[i].content] == canonical[files[i].content];
    }
  }

  lemma KeptIsUnaliased(files: seq<Resource>, n: nat, aliases: map<Path, Path>, canonical: map<string, Path>)
    requires PathsAgree(files) && n < |files| && Canonical(files, n, aliases, canonical)
    requires files[n].content in canonical ==> canonical[files[n].content] == files[n].path
    ensures files[n].path !in aliases
  {
    forall i | 0 <= i < n && files[i].path == files[n].path ensures files[n].path !in aliases {
      assert files[i].content == files[n].content;
    }
  }

  /**
   * Every file leads in at most one step to the first file with the same
   * content, and nothing but files of the archive has an alias.
   */
  ghost predicate Deduplicated(aliases: map<Path, Path>, files: seq<Resource>) {
    && (forall i :: 0 <= i < |files| ==> Holds(files, |files|, Resolve(aliases, files[i].path), files[i].content))
    && (forall i :: 0 <= i < |files| && files[i].path in aliases ==> Resolve(aliases, files[i].path) == aliases[files[i].path])
    && (forall p :: p in aliases ==> exists i :: 0 <= i < |files| && files[i].path == p)
  }

  lemma CanonicalResolves(files: seq<Resource>, aliases: map<Path, Path>, canonical: map<string, Path>, history: seq<Path>)
    requires Ordered(aliases, history) && Canonical(files, |files|, aliases, canonical)
    ensures Deduplicated(aliases, files)
  {
    forall i | 0 <= i < |files| ensures Resolve(aliases, files[i].path) == canonical[files[i].content] {
      ResolveEnds(aliases, history, files[i].path);
      ResolveEnds(aliases, history, canonical[files[i].content]);
    }
  }

  /** The first path of each content is canonical; every other path of that content becomes its alias. */
  method AliasResources(files: seq<Resource>) returns (aliases: map<Path, Path>, ghost history: seq<Path>)
    requires PathsAgree(files)
    ensures Ordered(aliases, history)
    ensures Deduplicated(aliases, files)
  {
    aliases, history := map[], [];
    var canonical: map<string, Path> := map[];
    for n := 0 to |files|
      invariant Ordered(aliases, history) && Canonical(files, n, aliases, canonical)
    {
      var path, content := files[n].path, files[n].content;
      if content in canonical && canonical[content] != path {
        AliasStep(files, n, aliases, canonical);
        if path !in aliases {
          AddAlias(aliases, history, path, canonical[content]);
          history := history + [path];
        }
        aliases := aliases[path := canonical[content]];
      } else {
        KeepStep(files, n, aliases, canonical);
        canonical := canonical[content := path];
      }
    }
    CanonicalResolves(files, aliases, canonical, history);
  }
}
