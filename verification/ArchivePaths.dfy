/** Archive paths as lists of segments: collision-free variants and relative links. */
module ArchivePaths {
  import opened Common

  /** A relative path; the last segment is the file name. */
  type Path = seq<string>

  function LowerPath(path: Path): (r: Path)
    ensures |r| == |path| && forall i :: 0 <= i < |path| ==> r[i] == Lower(path[i])
  {
    seq(|path|, i requires 0 <= i < |path| => Lower(path[i]))
  }

  // ----------------------------------------------------------------- numerals

  function Digit(n: nat): char
    requires n < 10
  {
    '0' + n as char
  }

  function Numeral(n: nat): string {
    if n < 10 then [Digit(n)] else Numeral(n / 10) + [Digit(n % 10)]
  }

  function Value(s: string): int {
    if s == "" then 0 else 10 * Value(s[..|s| - 1]) + (s[|s| - 1] as int - '0' as int)
  }

  lemma {:induction false} NumeralValue(n: nat)
    ensures Value(Numeral(n)) == n && Numeral(n) != ""
  {
    if n < 10 {
      assert Numeral(n)[..0] == "";
    } else {
      NumeralValue(n / 10);
      var s := Numeral(n / 10);
      assert Numeral(n) == s + [Digit(n % 10)];
      assert Numeral(n)[..|s|] == s;
      hide Numeral;
    }
  }

  lemma {:induction false} NumeralLower(n: nat)
    ensures Lower(Numeral(n)) == Numeral(n)
  {
    DigitLower(n % 10);
    if n >= 10 {
      NumeralLower(n / 10);
      LowerAppend(Numeral(n / 10), [Digit(n % 10)]);
    }
  }

  lemma DigitLower(d: nat)
    requires d < 10
    ensures Lower([Digit(d)]) == [Digit(d)]
  {
    assert Lower([Digit(d)])[0] == LowerChar(Digit(d));
  }

  // ----------------------------------------------------------------- variants

  /** Where the extension of a file name starts: at its last dot, unless that is its first character. */
  function DotBefore(name: string, n: nat): (i: nat)
    requires n <= |name|
    ensures i <= |name|
  {
    if n <= 1 then |name| else if name[n - 1] == '.' then n - 1 else DotBefore(name, n - 1)
  }

  function Stem(name: string): string {
    name[..DotBefore(name, |name|)]
  }

  function Extension(name: string): string {
    name[DotBefore(name, |name|)..]
  }

  /** The path with `_k` before its extension. */
  function Variant(path: Path, k: nat): Path
    requires path != []
  {
    var name := path[|path| - 1];
    path[..|path| - 1] + [Stem(name) + "_" + Numeral(k) + Extension(name)]
  }

  /** A variant keeps folder and extension: the number goes before the last dot, or to the end of a name without an extension. */
  lemma VariantShape(dir: Path, stem: string, ext: string, k: nat)
    requires stem != "" && forall i :: 0 <= i < |ext| ==> ext[i] != '.'
    ensures Variant(dir + [stem + "." + ext], k) == dir + [stem + "_" + Numeral(k) + "." + ext]
    ensures Variant(dir + [ext], k) == dir + [ext + "_" + Numeral(k)]
  {
    var name := stem + "." + ext;
    LastDot(name, |stem|, |name|);
    NoDot(ext, |ext|);
    assert (dir + [name])[..|dir|] == dir && (dir + [ext])[..|dir|] == dir;
    assert Stem(name) == stem && Extension(name) == "." + ext;
    assert Stem(ext) == ext && Extension(ext) == "";
    var front := stem + "_" + Numeral(k);
    assert front + ("." + ext) == (front + ".") + ext;
    assert ext + "_" + Numeral(k) + "" == ext + "_" + Numeral(k);
  }

  lemma {:induction false} LastDot(name: string, dot: nat, n: nat)
    requires 0 < dot < n <= |name| && name[dot] == '.' && forall i :: dot < i < n ==> name[i] != '.'
    ensures DotBefore(name, n) == dot
    decreases n
  {
    if n - 1 > dot {
      LastDot(name, dot, n - 1);
    }
  }

  lemma {:induction false} NoDot(name: string, n: nat)
    requires n <= |name| && forall i :: 0 <= i < n ==> name[i] != '.'
    ensures DotBefore(name, n) == |name|
  {
    if n > 1 {
      NoDot(name, n - 1);
    }
  }

  lemma LowerAppend(a: string, b: string)
    ensures Lower(a + b) == Lower(a) + Lower(b)
  {}

  lemma SameMiddle(p: string, a: string, b: string, s: string)
    requires p + a + s == p + b + s
    ensures a == b
  {
    assert |p + a + s| == |p| + |a| + |s| && |p + b + s| == |p| + |b| + |s|;
    assert (p + a + s)[|p|..|p| + |a|] == a;
    assert (p + b + s)[|p|..|p| + |b|] == b;
  }

  lemma LowerVariantName(name: string, k: nat)
    ensures Lower(Stem(name) + "_" + Numeral(k) + Extension(name)) == Lower(Stem(name) + "_") + Numeral(k) + Lower(Extension(name))
  {
    NumeralLower(k);
    LowerAppend(Stem(name) + "_", Numeral(k));
    LowerAppend(Stem(name) + "_" + Numeral(k), Extension(name));
  }

  /** All variants of a path differ from it and from each other, whatever the case of their letters. */
  lemma VariantsDiffer(path: Path, a: nat, b: nat)
    requires path != []
    ensures LowerPath(Variant(path, a)) == LowerPath(Variant(path, b)) ==> a == b
    ensures LowerPath(Variant(path, a)) != LowerPath(path)
  {
    var n := |path| - 1;
    var name := path[n];
    LowerVariantName(name, a);
    LowerVariantName(name, b);
    NumeralValue(a);
    NumeralValue(b);
    assert Variant(path, a)[n] == Stem(name) + "_" + Numeral(a) + Extension(name);
    assert Variant(path, b)[n] == Stem(name) + "_" + Numeral(b) + Extension(name);
    assert |Variant(path, a)[n]| > |name|;
    assert LowerPath(Variant(path, a))[n] == Lower(Variant(path, a)[n]) && LowerPath(path)[n] == Lower(name);
    if LowerPath(Variant(path, a)) == LowerPath(Variant(path, b)) {
      assert LowerPath(Variant(path, b))[n] == Lower(Variant(path, b)[n]);
      SameMiddle(Lower(Stem(name) + "_"), Numeral(a), Numeral(b), Lower(Extension(name)));
    }
  }

  /** The `k`-th path tried: the path itself, then its variants. */
  ghost function Attempt(path: Path, k: nat): (r: Path)
    requires path != []
    ensures r != []
  {
    if k == 0 then path else Variant(path, k)
  }

  /** The candidate is the first path tried that is not taken. */
  ghost predicate FirstFree(path: Path, used: set<Path>, candidate: Path)
    requires path != []
  {
    exists k: nat ::
      && candidate == Attempt(path, k)
      && LowerPath(candidate) !in used
      && forall j :: 0 <= j < k ==> LowerPath(Attempt(path, j)) in used
  }

  /** The `k`-th path tried, as it is compared. */
  ghost function Try(path: Path, k: nat): Path
    requires path != []
  {
    LowerPath(Attempt(path, k))
  }

  ghost function Tried(path: Path, counter: nat): set<Path>
    requires path != []
  {
    set k | 0 <= k < counter :: Try(path, k)
  }

  lemma TriesDiffer(path: Path, j: nat, k: nat)
    requires path != [] && j < k
    ensures Try(path, j) != Try(path, k)
  {
    VariantsDiffer(path, k, j);
  }

  lemma {:induction false} TriedSize(path: Path, counter: nat)
    requires path != []
    ensures |Tried(path, counter)| == counter
  {
    hide Try;
    if counter == 0 {
      assert Tried(path, 0) == {};
    } else {
      var k := counter - 1;
      TriedSize(path, k);
      assert Tried(path, counter) == Tried(path, k) + {Try(path, k)};
      forall j | 0 <= j < k ensures Try(path, j) != Try(path, k) {
        TriesDiffer(path, j, k);
      }
    }
  }

  lemma TriesBound(path: Path, counter: nat, used: set<Path>)
    requires path != [] && forall k :: 0 <= k < counter ==> LowerPath(Attempt(path, k)) in used
    ensures counter <= |used|
  {
    hide LowerPath, Attempt;
    assert Tried(path, counter) <= used;
    TriedSize(path, counter);
    SubsetSize(Tried(path, counter), used);
  }

  /** deduplicatePath: there are as many tries as taken paths plus one at most. */
  method DeduplicatePath(path: Path, used: set<Path>) returns (candidate: Path, taken: set<Path>, ghost tries: nat)
    requires path != []
    ensures FirstFree(path, used, candidate) && taken == used + {LowerPath(candidate)}
    ensures 1 <= tries <= |used| + 1 && candidate == Attempt(path, tries - 1)
  {
    hide LowerPath, Attempt;
    candidate := path;
    var counter := 1;
    assert candidate == Attempt(path, 0) by { FirstAttempt(path, 1); }
    while LowerPath(candidate) in used
      invariant counter >= 1 && candidate == Attempt(path, counter - 1)
      invariant forall k :: 0 <= k < counter - 1 ==> LowerPath(Attempt(path, k)) in used
      invariant counter <= |used| + 1
      decreases |used| + 1 - counter
    {
      TriesBound(path, counter, used);
      FirstAttempt(path, counter);
      candidate := Variant(path, counter);
      counter := counter + 1;
    }
    tries := counter;
    taken := used + {LowerPath(candidate)};
  }

  lemma FirstAttempt(path: Path, k: nat)
    requires path != [] && k > 0
    ensures Attempt(path, 0) == path && Attempt(path, k) == Variant(path, k)
  {}

  // ----------------------------------------------------------- relative links

  predicate Normal(path: Path) {
    forall i :: 0 <= i < |path| ==> path[i] != ".." && path[i] != "." && path[i] != ""
  }

  /** A variant stays in the folder and is no dot segment. */
  lemma VariantNormal(path: Path, k: nat)
    requires path != [] && Normal(path)
    ensures Normal(Variant(path, k)) && Dir(Variant(path, k)) == Dir(path)
  {
    var name := path[|path| - 1];
    var next := Stem(name) + "_" + Numeral(k) + Extension(name);
    assert next[|Stem(name)|] == '_';
    assert next != ".." && next != "." && next != "";
    assert Variant(path, k) == path[..|path| - 1] + [next];
  }

  lemma FirstFreeNormal(path: Path, used: set<Path>, candidate: Path)
    requires path != [] && Normal(path) && FirstFree(path, used, candidate)
    ensures candidate != [] && Normal(candidate) && Dir(candidate) == Dir(path)
  {
    hide LowerPath, Variant;
    var k: nat :| candidate == Attempt(path, k) && LowerPath(candidate) !in used && forall j :: 0 <= j < k ==> LowerPath(Attempt(path, j)) in used;
    if k > 0 {
      VariantNormal(path, k);
    }
  }

  function Shared(a: Path, b: Path): (n: nat)
    ensures n <= |a| && n <= |b| && a[..n] == b[..n]
  {
    if a == [] || b == [] || a[0] != b[0] then 0 else 1 + Shared(a[1..], b[1..])
  }

  function Ups(n: nat): Path {
    if n == 0 then [] else [".."] + Ups(n - 1)
  }

  /** The relative path from a directory to a path. */
  function Relative(dir: Path, to: Path): Path {
    var n := Shared(dir, to);
    Ups(|dir| - n) + to[n..]
  }

  function Dir(path: Path): Path
    requires path != []
  {
    path[..|path| - 1]
  }

  /** relativeArchivePath: an empty relative path is replaced by the file name. */
  function RelativeArchivePath(from: Path, to: Path): Path
    requires from != [] && to != []
  {
    var relative := Relative(Dir(from), to);
    if relative == [] then [to[|to| - 1]] else relative
  }

  /** Where a relative link leads from a directory. */
  function Follow(dir: Path, link: Path): Path
    decreases |link|
  {
    if link == [] then dir
    else if link[0] == ".." then Follow(if dir == [] then [] else Dir(dir), link[1..])
    else Follow(dir + [link[0]], link[1..])
  }

  lemma {:induction false} FollowUps(dir: Path, n: nat, rest: Path)
    requires n <= |dir|
    ensures Follow(dir, Ups(n) + rest) == Follow(dir[..|dir| - n], rest)
  {
    if n == 0 {
      assert Ups(0) + rest == rest && dir[..|dir|] == dir;
    } else {
      assert (Ups(n) + rest)[1..] == Ups(n - 1) + rest;
      FollowUps(Dir(dir), n - 1, rest);
      assert Dir(dir)[..|Dir(dir)| - (n - 1)] == dir[..|dir| - n];
    }
  }

  lemma {:induction false} FollowDown(dir: Path, rest: Path)
    requires Normal(rest)
    ensures Follow(dir, rest) == dir + rest
    decreases |rest|
  {
    if rest == [] {
      assert dir + rest == dir;
    } else {
      FollowDown(dir + [rest[0]], rest[1..]);
      assert dir + [rest[0]] + rest[1..] == dir + rest;
    }
  }

  lemma RelativeReturns(dir: Path, to: Path)
    requires Normal(to)
    ensures Follow(dir, Relative(dir, to)) == to
    ensures Relative(dir, to) == [] <==> dir == to
  {
    var n := Shared(dir, to);
    FollowUps(dir, |dir| - n, to[n..]);
    FollowDown(dir[..n], to[n..]);
    assert dir[..n] + to[n..] == to;
    if dir == to {
      SelfShared(dir);
    }
  }

  lemma {:induction false} SelfShared(a: Path)
    ensures Shared(a, a) == |a|
  {
    if a != [] {
      SelfShared(a[1..]);
    }
  }

  /** A link written into `from` leads back to its target, unless the target bears the name of the directory it is written in. */
  lemma LinkRoundTrip(from: Path, to: Path)
    requires from != [] && to != [] && Normal(to)
    ensures Follow(Dir(from), RelativeArchivePath(from, to)) == to <==> to != Dir(from)
  {
    RelativeReturns(Dir(from), to);
    if to == Dir(from) {
      var link := RelativeArchivePath(from, to);
      assert link == [to[|to| - 1]];
      FollowDown(Dir(from), link);
    }
  }
}
