/**
 * The stylesheet fixpoint: stylesheets whose rewritten bodies are equal become
 * aliases of one of them, until nothing changes any more.
 */
module StylesheetAliases {
  import opened ResourceAliases

  /** A stylesheet is text with references to archive paths. Equal hashes mean equal bodies. */
  datatype Token = Text(text: string) | Ref(path: Path)

  type Body = seq<Token>

  function RewriteToken(aliases: map<Path, Path>, token: Token): Token {
    if token.Ref? then Ref(Resolve(aliases, token.path)) else token
  }

  /** rewriteCssResourceAliases. */
  function Rewrite(aliases: map<Path, Path>, body: Body): (r: Body) {
    seq(|body|, i requires 0 <= i < |body| => RewriteToken(aliases, body[i]))
  }

  /** No reference of the body has an alias. */
  ghost predicate Settled(aliases: map<Path, Path>, body: Body) {
    forall i :: 0 <= i < |body| && body[i].Ref? ==> body[i].path !in aliases
  }

  lemma RewriteSettles(aliases: map<Path, Path>, history: seq<Path>, body: Body)
    requires Ordered(aliases, history)
    ensures Settled(aliases, Rewrite(aliases, body))
    ensures Settled(aliases, body) <==> Rewrite(aliases, body) == body
  {
    forall i | 0 <= i < |body| && body[i].Ref?
      ensures Resolve(aliases, body[i].path) !in aliases
      ensures body[i].path !in aliases ==> Resolve(aliases, body[i].path) == body[i].path
    {
      ResolveEnds(aliases, history, body[i].path);
    }
    if Rewrite(aliases, body) == body {
      forall i | 0 <= i < |body| && body[i].Ref? ensures body[i].path !in aliases {
        assert Rewrite(aliases, body)[i] == body[i];
      }
    }
  }

  /** Rewriting with more aliases makes up for having rewritten with fewer. */
  lemma RewriteAgain(aliases: map<Path, Path>, history: seq<Path>, p: Path, c: Path, body: Body)
    requires Ordered(aliases, history) && p !in aliases && c !in aliases && p != c
    ensures Rewrite(aliases[p := c], Rewrite(aliases, body)) == Rewrite(aliases[p := c], body)
  {
    forall i | 0 <= i < |body| && body[i].Ref?
      ensures Resolve(aliases[p := c], Resolve(aliases, body[i].path)) == Resolve(aliases[p := c], body[i].path)
    {
      AddRedirects(aliases, history, p, c, body[i].path);
    }
  }

  /** Two bodies that read the same under the aliases so far also do under one more. */
  lemma StillAlike(aliases: map<Path, Path>, history: seq<Path>, p: Path, c: Path, a: Body, b: Body)
    requires Ordered(aliases, history) && p !in aliases && c !in aliases && p != c
    requires Rewrite(aliases, a) == Rewrite(aliases, b)
    ensures Rewrite(aliases[p := c], a) == Rewrite(aliases[p := c], b)
  {
    RewriteAgain(aliases, history, p, c, a);
    RewriteAgain(aliases, history, p, c, b);
  }

  lemma StaysUnsettled(aliases: map<Path, Path>, p: Path, c: Path, body: Body)
    requires !Settled(aliases, body)
    ensures !Settled(aliases[p := c], body)
  {}

  // --------------------------------------------------------------- invariants

  /** What each path first held; equal paths hold equal bodies. */
  ghost predicate Originals(paths: seq<Path>, bodies: seq<Body>, original: map<Path, Body>) {
    |bodies| == |paths| && forall i :: 0 <= i < |paths| ==> paths[i] in original && original[paths[i]] == bodies[i]
  }

  /** Every body is its original, up to aliases. */
  ghost predicate Faithful(paths: seq<Path>, bodies: seq<Body>, original: map<Path, Body>, aliases: map<Path, Path>) {
    && |bodies| == |paths|
    && forall i :: 0 <= i < |paths| ==> paths[i] in original && Rewrite(aliases, bodies[i]) == Rewrite(aliases, original[paths[i]])
  }

  /** An aliased stylesheet reads like the one it was replaced by. */
  ghost predicate Alike(original: map<Path, Body>, aliases: map<Path, Path>) {
    forall p :: p in aliases && p in original ==>
      aliases[p] in original && Rewrite(aliases, original[p]) == Rewrite(aliases, original[aliases[p]])
  }

  /** A body is remembered under the path that held it; once that path is aliased the body is out of date. */
  ghost predicate Remembered(seen: map<Body, Path>, original: map<Path, Body>, aliases: map<Path, Path>) {
    forall b {:trigger seen[b]} :: b in seen ==>
      && seen[b] in original && Rewrite(aliases, b) == Rewrite(aliases, original[seen[b]])
      && (seen[b] in aliases ==> !Settled(aliases, b))
  }

  lemma FaithfulMore(paths: seq<Path>, bodies: seq<Body>, original: map<Path, Body>, aliases: map<Path, Path>, history: seq<Path>, p: Path, c: Path)
    requires Ordered(aliases, history) && p !in aliases && c !in aliases && p != c
    requires Faithful(paths, bodies, original, aliases)
    ensures Faithful(paths, bodies, original, aliases[p := c])
  {
    forall i | 0 <= i < |paths|
      ensures Rewrite(aliases[p := c], bodies[i]) == Rewrite(aliases[p := c], original[paths[i]])
    {
      StillAlike(aliases, history, p, c, bodies[i], original[paths[i]]);
    }
  }

  lemma AlikeMore(original: map<Path, Body>, aliases: map<Path, Path>, history: seq<Path>, p: Path, c: Path)
    requires Ordered(aliases, history) && p !in aliases && c !in aliases && p != c
    requires Alike(original, aliases) && c in original
    requires p in original && Rewrite(aliases, original[p]) == Rewrite(aliases, original[c])
    ensures Alike(original, aliases[p := c])
  {
    var more := aliases[p := c];
    forall q | q in more && q in original
      ensures more[q] in original && Rewrite(more, original[q]) == Rewrite(more, original[more[q]])
    {
      StillAlike(aliases, history, p, c, original[q], original[more[q]]);
    }
  }

  lemma RememberedMore(seen: map<Body, Path>, original: map<Path, Body>, aliases: map<Path, Path>, history: seq<Path>, p: Path, c: Path, body: Body)
    requires Ordered(aliases, history) && p !in aliases && c !in aliases && p != c
    requires Remembered(seen, original, aliases)
    requires body in seen && seen[body] == c && p in original && body == Rewrite(aliases, original[p])
    ensures Remembered(seen, original, aliases[p := c])
  {
    var more := aliases[p := c];
    forall b | b in seen
      ensures Rewrite(more, b) == Rewrite(more, original[seen[b]]) && (seen[b] in more ==> !Settled(more, b))
    {
      StillAlike(aliases, history, p, c, b, original[seen[b]]);
      if seen[b] in aliases {
        StaysUnsettled(aliases, p, c, b);
      } else if seen[b] == p {
        RewriteSettles(aliases, history, b);
        assert b != body;
        StaysUnsettled(aliases, p, c, b);
      }
    }
  }

  /** A settled body that is remembered belongs to a path without an alias. */
  lemma FreshTarget(seen: map<Body, Path>, original: map<Path, Body>, aliases: map<Path, Path>, history: seq<Path>, body: Body, p: Path)
    requires Ordered(aliases, history) && Remembered(seen, original, aliases)
    requires body in seen && Settled(aliases, body) && p in original && body == Rewrite(aliases, original[p])
    ensures seen[body] !in aliases && seen[body] in original
    ensures Rewrite(aliases, original[p]) == Rewrite(aliases, original[seen[body]])
  {
    RewriteSettles(aliases, history, body);
  }

  // ------------------------------------------------------------------ rounds

  /** Everything kept through a round and from one round to the next. */
  ghost predicate Consistent(paths: seq<Path>, bodies: seq<Body>, original: map<Path, Body>, aliases: map<Path, Path>, history: seq<Path>) {
    Ordered(aliases, history) && Faithful(paths, bodies, original, aliases) && Alike(original, aliases)
  }

  /** While a round has changed nothing, the stylesheets it has passed are settled and remembered under their own paths. */
  ghost predicate Quiet(paths: seq<Path>, bodies: seq<Body>, aliases: map<Path, Path>, seen: map<Body, Path>, n: nat)
    requires n <= |paths| == |bodies|
  {
    forall k :: 0 <= k < n && paths[k] !in aliases ==>
      Settled(aliases, bodies[k]) && bodies[k] in seen && seen[bodies[k]] == paths[k]
  }

  /** Rewrites a body where it stands. */
  lemma RewritePlace(paths: seq<Path>, bodies: seq<Body>, original: map<Path, Body>, aliases: map<Path, Path>, history: seq<Path>, i: nat)
    requires Ordered(aliases, history) && Faithful(paths, bodies, original, aliases) && i < |paths|
    ensures Faithful(paths, bodies[i := Rewrite(aliases, bodies[i])], original, aliases)
    ensures Settled(aliases, Rewrite(aliases, bodies[i]))
    ensures Rewrite(aliases, bodies[i]) == Rewrite(aliases, original[paths[i]])
  {
    RewriteSettles(aliases, history, bodies[i]);
    RewriteSettles(aliases, history, Rewrite(aliases, bodies[i]));
  }

  lemma Remember(seen: map<Body, Path>, original: map<Path, Body>, aliases: map<Path, Path>, history: seq<Path>, body: Body, p: Path)
    requires Ordered(aliases, history) && Remembered(seen, original, aliases) && p !in aliases && p in original
    requires Settled(aliases, body) && body == Rewrite(aliases, original[p])
    ensures Remembered(seen[body := p], original, aliases)
  {
    RewriteSettles(aliases, history, body);
    var more := seen[body := p];
    forall b | b in more
      ensures more[b] in original && Rewrite(aliases, b) == Rewrite(aliases, original[more[b]]) && (more[b] in aliases ==> !Settled(aliases, b))
    {
      assert b != body ==> b in seen && more[b] == seen[b];
    }
  }

  lemma PathSet(paths: seq<Path>, aliases: map<Path, Path>, i: nat, c: Path)
    requires i < |paths| && paths[i] !in aliases
    ensures (set p | p in paths) - aliases[paths[i] := c].Keys < (set p | p in paths) - aliases.Keys
  {
    assert paths[i] in (set p | p in paths) - aliases.Keys;
  }

  /** One pass over the stylesheets. */
  method Round(paths: seq<Path>, bodies: array<Body>, before: map<Path, Path>, ghost original: map<Path, Body>, ghost past: seq<Path>)
    returns (aliases: map<Path, Path>, changed: bool, ghost history: seq<Path>)
    requires bodies.Length == |paths| && Consistent(paths, bodies[..], original, before, past)
    modifies bodies
    ensures Consistent(paths, bodies[..], original, aliases, history)
    ensures before.Keys <= aliases.Keys && forall p :: p in before ==> aliases[p] == before[p]
    ensures forall p :: p in aliases ==> p in before || p in paths
    ensures changed ==> (set p | p in paths) - aliases.Keys < (set p | p in paths) - before.Keys
    ensures !changed ==> aliases == before && exists seen :: Quiet(paths, bodies[..], aliases, seen, |paths|)
  {
    hide Rewrite, Settled, Resolve;
    aliases, history, changed := before, past, false;
    var seen: map<Body, Path> := map[];
    for i := 0 to |paths|
      invariant Consistent(paths, bodies[..], original, aliases, history)
      invariant Remembered(seen, original, aliases)
      invariant before.Keys <= aliases.Keys && forall p :: p in before ==> aliases[p] == before[p]
      invariant forall p :: p in aliases ==> p in before || p in paths
      invariant changed ==> (set p | p in paths) - aliases.Keys < (set p | p in paths) - before.Keys
      invariant !changed ==> aliases == before && Quiet(paths, bodies[..], aliases, seen, i)
    {
      var path := paths[i];
      if path in aliases {
        continue;
      }
      ghost var old_bodies := bodies[..];
      RewritePlace(paths, bodies[..], original, aliases, history, i);
      var body := Rewrite(aliases, bodies[i]);
      bodies[i] := body;
      assert bodies[..] == old_bodies[i := body];
      if body in seen && seen[body] != path {
        var c := seen[body];
        FreshTarget(seen, original, aliases, history, body, path);
        FaithfulMore(paths, bodies[..], original, aliases, history, path, c);
        AlikeMore(original, aliases, history, path, c);
        RememberedMore(seen, original, aliases, history, path, c, body);
        AddAlias(aliases, history, path, c);
        PathSet(paths, aliases, i, c);
        aliases := aliases[path := c];
        history := history + [path];
        changed := true;
      } else {
        Remember(seen, original, aliases, history, body, path);
        seen := seen[body := path];
      }
    }
  }

  /**
   * What the fixpoint leaves: a stylesheet that is kept refers to no aliased
   * path and reads like its original up to aliases; kept stylesheets with
   * equal bodies are one path, and one path has one body.
   */
  ghost predicate Fixed(paths: seq<Path>, bodies: seq<Body>, original: map<Path, Body>, aliases: map<Path, Path>) {
    && |bodies| == |paths|
    && (forall i :: 0 <= i < |paths| ==> paths[i] in original)
    && (forall i :: 0 <= i < |paths| && paths[i] !in aliases ==>
          Settled(aliases, bodies[i]) && bodies[i] == Rewrite(aliases, original[paths[i]]))
    && (forall i, j :: 0 <= i < |paths| && 0 <= j < |paths| && paths[i] !in aliases && paths[j] !in aliases ==>
          (bodies[i] == bodies[j] <==> paths[i] == paths[j]))
  }

  lemma QuietIsFixed(paths: seq<Path>, bodies: seq<Body>, original: map<Path, Body>, aliases: map<Path, Path>, history: seq<Path>, seen: map<Body, Path>)
    requires Consistent(paths, bodies, original, aliases, history) && Quiet(paths, bodies, aliases, seen, |paths|)
    ensures Fixed(paths, bodies, original, aliases)
  {
    forall i | 0 <= i < |paths| && paths[i] !in aliases ensures bodies[i] == Rewrite(aliases, original[paths[i]]) {
      RewriteSettles(aliases, history, bodies[i]);
    }
  }

  /**
   * The do-while loop. Every round that changes something leaves fewer
   * unaliased stylesheets, so it ends; the aliases never form a circle, and an
   * aliased stylesheet reads, alias by alias, like the one that replaces it.
   */
  method AliasStylesheets(paths: seq<Path>, bodies: array<Body>, before: map<Path, Path>, ghost original: map<Path, Body>, ghost past: seq<Path>)
    returns (aliases: map<Path, Path>, ghost history: seq<Path>)
    requires bodies.Length == |paths| && Originals(paths, bodies[..], original)
    requires Ordered(before, past) && forall p :: p in original ==> p !in before
    modifies bodies
    ensures Ordered(aliases, history) && Alike(original, aliases)
    ensures Fixed(paths, bodies[..], original, aliases)
    ensures forall p :: p in before ==> p in aliases && aliases[p] == before[p]
    ensures forall p :: p in aliases ==> p in before || p in paths
    ensures forall p :: Resolve(aliases, p) !in aliases
  {
    hide Rewrite, Settled, Resolve;
    aliases, history := before, past;
    var changed := true;
    while changed
      invariant Consistent(paths, bodies[..], original, aliases, history)
      invariant before.Keys <= aliases.Keys && forall p :: p in before ==> aliases[p] == before[p]
      invariant forall p :: p in aliases ==> p in before || p in paths
      invariant !changed ==> exists seen :: Quiet(paths, bodies[..], aliases, seen, |paths|)
      decreases (set p | p in paths) - aliases.Keys, changed
    {
      aliases, changed, history := Round(paths, bodies, aliases, original, history);
    }
    ghost var seen :| Quiet(paths, bodies[..], aliases, seen, |paths|);
    QuietIsFixed(paths, bodies[..], original, aliases, history, seen);
    forall p ensures Resolve(aliases, p) !in aliases {
      ResolveEnds(aliases, history, p);
    }
  }

  /** Following aliases from a stylesheet leads to a kept one that reads the same. */
  lemma {:induction false} ReplacementReadsAlike(paths: seq<Path>, bodies: seq<Body>, original: map<Path, Body>, aliases: map<Path, Path>, history: seq<Path>, p: Path)
    requires Ordered(aliases, history) && Alike(original, aliases) && Fixed(paths, bodies, original, aliases)
    requires p in original
    ensures Resolve(aliases, p) in original && Resolve(aliases, p) !in aliases
    ensures Rewrite(aliases, original[Resolve(aliases, p)]) == Rewrite(aliases, original[p])
    decreases if p in aliases then |aliases| + 1 - Position(history, p) else 0
  {
    ResolveEnds(aliases, history, p);
    hide Rewrite;
    if p in aliases {
      PositionRises(aliases, history, p);
      ReplacementReadsAlike(paths, bodies, original, aliases, history, aliases[p]);
    }
  }
}
