/** Packing the files of a site clone into numbered shards, next fit. */
module ArchiveShards {
  import opened Common

  /** A file to write: its archive path (ASCII, in lower case), its size and the hash of its bytes. */
  datatype File = File(path: string, bytes: nat, hash: string)

  datatype Shard = Shard(number: nat, files: seq<File>, estimated: nat)

  datatype Packing =
    | Packed(shards: seq<Shard>)
    | PathCollision | ArchiveBudgetExceeded | FileExceedsShard | EmptyArchive

  /** zipEntryOverhead: the path is ASCII, so its bytes are its characters. */
  function Overhead(path: string): nat {
    256 + 2 * |path|
  }

  function Estimate(file: File): nat {
    file.bytes + Overhead(file.path)
  }

  function Content(files: seq<File>): nat {
    if files == [] then 0 else Content(files[..|files| - 1]) + files[|files| - 1].bytes
  }

  function Estimated(files: seq<File>): nat {
    if files == [] then 0 else Estimated(files[..|files| - 1]) + Estimate(files[|files| - 1])
  }

  predicate Seen(files: seq<File>, path: string) {
    exists i :: 0 <= i < |files| && files[i].path == path
  }

  /** The files that are written: the first of every path, in order. */
  function Written(files: seq<File>): seq<File> {
    if files == [] then []
    else
      var last := |files| - 1;
      if Seen(files[..last], files[last].path) then Written(files[..last]) else Written(files[..last]) + [files[last]]
  }

  /** Some path comes with two different contents. */
  predicate Collides(files: seq<File>) {
    exists i, j :: 0 <= i < |files| && 0 <= j < |files| && files[i].path == files[j].path && files[i].hash != files[j].hash
  }

  ghost function Flatten(shards: seq<Shard>): seq<File> {
    if shards == [] then [] else Flatten(shards[..|shards| - 1]) + shards[|shards| - 1].files
  }

  ghost function Sum(shards: seq<Shard>): nat {
    if shards == [] then 0 else Sum(shards[..|shards| - 1]) + shards[|shards| - 1].estimated
  }

  /** A shard is not empty, says what it holds, and fits. */
  ghost predicate ShardOk(shard: Shard, number: nat, maxShard: nat) {
    shard.number == number && shard.files != [] && shard.estimated == Estimated(shard.files) <= maxShard
  }

  /** Numbered from one, each within the limit, and no two neighbours would have fitted into one. */
  ghost predicate ShardsOk(shards: seq<Shard>, maxShard: nat) {
    && (forall i :: 0 <= i < |shards| ==> ShardOk(shards[i], i + 1, maxShard))
    && (forall i :: 0 < i < |shards| ==> shards[i - 1].estimated + Estimate(shards[i].files[0]) > maxShard)
  }

  // ----------------------------------------------------------------- lemmas

  lemma WrittenLast(files: seq<File>)
    requires files != []
    ensures var last := |files| - 1;
      Written(files) == if Seen(files[..last], files[last].path) then Written(files[..last]) else Written(files[..last]) + [files[last]]
  {}

  lemma {:induction false} WrittenPaths(files: seq<File>)
    ensures forall i :: 0 <= i < |files| ==> Seen(Written(files), files[i].path)
    ensures forall w :: w in Written(files) ==> w in files
    ensures forall i, j :: 0 <= i < j < |Written(files)| ==> Written(files)[i].path != Written(files)[j].path
  {
    if files != [] {
      var last := |files| - 1;
      var init := files[..last];
      WrittenPaths(init);
      hide Written;
      WrittenLast(files);
      forall i | 0 <= i < |files| ensures Seen(Written(files), files[i].path) {
        if i < last {
          assert Seen(Written(init), init[i].path);
          var k :| 0 <= k < |Written(init)| && Written(init)[k].path == init[i].path;
          assert Written(files)[k].path == files[i].path;
        } else if Seen(init, files[last].path) {
          var m :| 0 <= m < last && init[m].path == files[last].path;
          assert Seen(Written(init), init[m].path);
        } else {
          assert Written(files)[|Written(init)|] == files[last];
        }
      }
      if !Seen(init, files[last].path) {
        forall w | w in Written(init) ensures w.path != files[last].path {
          var m :| 0 <= m < last && init[m] == w;
        }
      }
    }
  }

  lemma FlattenLast(shards: seq<Shard>, shard: Shard)
    ensures Flatten(shards + [shard]) == Flatten(shards) + shard.files
    ensures Sum(shards + [shard]) == Sum(shards) + shard.estimated
  {
    assert (shards + [shard])[..|shards|] == shards;
  }

  lemma EstimatedLast(files: seq<File>, file: File)
    ensures Estimated(files + [file]) == Estimated(files) + Estimate(file)
    ensures Content(files + [file]) == Content(files) + file.bytes
  {
    assert (files + [file])[..|files|] == files;
  }

  lemma {:induction false} EstimatedAppend(a: seq<File>, b: seq<File>)
    ensures Estimated(a + b) == Estimated(a) + Estimated(b)
  {
    if b == [] {
      assert a + b == a;
    } else {
      assert (a + b)[..|a + b| - 1] == a + b[..|b| - 1];
      EstimatedAppend(a, b[..|b| - 1]);
    }
  }

  lemma {:induction false} SumIsEstimated(shards: seq<Shard>, maxShard: nat)
    requires forall i :: 0 <= i < |shards| ==> ShardOk(shards[i], i + 1, maxShard)
    ensures Sum(shards) == Estimated(Flatten(shards))
  {
    if shards != [] {
      SumIsEstimated(shards[..|shards| - 1], maxShard);
      EstimatedAppend(Flatten(shards[..|shards| - 1]), shards[|shards| - 1].files);
    }
  }

  lemma FirstCounts(files: seq<File>)
    requires files != []
    ensures Estimated(files) >= Estimate(files[0]) >= 256
    decreases |files|
  {
    if |files| > 1 {
      FirstCounts(files[..|files| - 1]);
    }
  }

  /** Twice the sum counts every neighbouring pair. */
  lemma {:induction false} NeighboursFill(shards: seq<Shard>, maxShard: nat)
    requires ShardsOk(shards, maxShard) && shards != []
    ensures (|shards| - 1) * maxShard + shards[|shards| - 1].estimated < 2 * Sum(shards)
  {
    var n := |shards|;
    var init := shards[..n - 1];
    FirstCounts(shards[n - 1].files);
    if n > 1 {
      NeighboursFill(init, maxShard);
      assert shards[n - 2].estimated + Estimate(shards[n - 1].files[0]) > maxShard;
      OneMore(n - 1, maxShard);
    }
  }

  /** Next fit uses fewer than twice the shards that the estimated bytes fill. */
  lemma {:induction false} NextFitBound(files: seq<File>, shards: seq<Shard>, maxShard: nat)
    requires ShardsOk(shards, maxShard) && shards != [] && Flatten(shards) == Written(files)
    ensures (|shards| - 1) * maxShard < 2 * Estimated(Written(files))
  {
    SumIsEstimated(shards, maxShard);
    NeighboursFill(shards, maxShard);
  }

  // --------------------------------------------------------------- the loop

  /** The state between two files. */
  ghost predicate Between(files: seq<File>, n: nat, written: map<string, string>, total: nat, parts: seq<Shard>, current: Option<Shard>, maxShard: nat)
    requires n <= |files|
  {
    var shards := if current.Some? then parts + [current.value] else parts;
    && !Collides(files[..n])
    && (forall p :: p in written <==> Seen(files[..n], p))
    && (forall i :: 0 <= i < n ==> files[i].path in written && written[files[i].path] == files[i].hash)
    && total == Content(Written(files[..n]))
    && ShardsOk(shards, maxShard) && Flatten(shards) == Written(files[..n])
    && (current.None? ==> parts == [])
    && (forall f :: f in Written(files[..n]) ==> Estimate(f) <= maxShard)
  }

  lemma Known(files: seq<File>, n: nat, written: map<string, string>)
    requires n < |files| && !Collides(files[..n])
    requires forall p :: p in written <==> Seen(files[..n], p)
    requires forall i :: 0 <= i < n ==> files[i].path in written && written[files[i].path] == files[i].hash
    ensures files[n].path in written ==> (written[files[n].path] == files[n].hash <==> !Collides(files[..n + 1]))
    ensures files[n].path !in written ==> !Collides(files[..n + 1])
  {
    var before, after := files[..n], files[..n + 1];
    assert forall i :: 0 <= i < n ==> before[i] == files[i] && after[i] == files[i];
    assert after[n] == files[n];
    if files[n].path in written {
      var k :| 0 <= k < n && before[k].path == files[n].path;
      assert after[k] == files[k] && written[files[k].path] == files[k].hash;
    }
    forall i, j | 0 <= i <= n && 0 <= j <= n && after[i].path == after[j].path
                  && (files[n].path in written ==> written[files[n].path] == files[n].hash)
      ensures after[i].hash == after[j].hash
    {
      if i < n && j < n {
        assert before[i].path == before[j].path;
      } else if i < n {
        assert Seen(before, files[n].path) by { assert before[i].path == files[n].path; }
      } else if j < n {
        assert Seen(before, files[n].path) by { assert before[j].path == files[n].path; }
      }
    }
  }

  lemma WrittenStep(files: seq<File>, n: nat)
    requires n < |files|
    ensures Written(files[..n + 1]) == if Seen(files[..n], files[n].path) then Written(files[..n]) else Written(files[..n]) + [files[n]]
    ensures forall p :: Seen(files[..n + 1], p) <==> Seen(files[..n], p) || p == files[n].path
  {
    assert files[..n + 1][..n] == files[..n];
    forall p ensures Seen(files[..n + 1], p) <==> Seen(files[..n], p) || p == files[n].path {
      if Seen(files[..n], p) {
        var k :| 0 <= k < n && files[..n][k].path == p;
        assert files[..n + 1][k].path == p;
      }
      assert files[..n + 1][n] == files[n];
    }
  }

  lemma {:induction false} CollidesMore(files: seq<File>, n: nat)
    requires n <= |files| && Collides(files[..n])
    ensures Collides(files)
  {
    var i, j :| 0 <= i < n && 0 <= j < n && files[..n][i].path == files[..n][j].path && files[..n][i].hash != files[..n][j].hash;
    assert files[i].path == files[j].path;
  }

  lemma {:induction false} WrittenMore(files: seq<File>, n: nat)
    requires n <= |files|
    ensures Content(Written(files[..n])) <= Content(Written(files))
    ensures forall f :: f in Written(files[..n]) ==> f in Written(files)
    decreases |files| - n
  {
    if n < |files| {
      WrittenStep(files, n);
      EstimatedLast(Written(files[..n]), files[n]);
      WrittenMore(files, n + 1);
    } else {
      assert files[..n] == files;
    }
  }

  /** Whether a packing exists: no collision, something to write, and both budgets respected. */
  ghost predicate Packable(files: seq<File>, maxShard: nat, maxArchive: nat) {
    && files != [] && !Collides(files)
    && Content(Written(files)) <= maxArchive
    && forall f :: f in Written(files) ==> Estimate(f) <= maxShard
  }

  /** The first file that cannot be written, and why: a collision counts before the archive's budget, and that before the shard's. */
  ghost predicate FailsAt(files: seq<File>, n: nat, maxShard: nat, maxArchive: nat, failure: Packing) {
    && n < |files|
    && (n == 0 || Packable(files[..n], maxShard, maxArchive))
    && var more := files[..n + 1];
       if Collides(more) then failure == PathCollision
       else if Content(Written(more)) > maxArchive then failure == ArchiveBudgetExceeded
       else Estimate(files[n]) > maxShard && failure == FileExceedsShard
  }

  lemma {:induction false} OpenNext(parts: seq<Shard>, file: File, maxShard: nat)
    requires ShardsOk(parts, maxShard) && Estimate(file) <= maxShard
    requires parts != [] ==> parts[|parts| - 1].estimated + Estimate(file) > maxShard
    ensures var next := Shard(|parts| + 1, [file], Estimate(file));
      ShardsOk(parts + [next], maxShard) && Flatten(parts + [next]) == Flatten(parts) + [file]
  {
    var next := Shard(|parts| + 1, [file], Estimate(file));
    EstimatedLast([], file);
    assert [] + [file] == [file];
    assert Estimated([file]) == Estimate(file);
    FlattenLast(parts, next);
    hide Flatten, Estimated, Estimate;
    var after := parts + [next];
    assert after[|parts|] == next && forall i :: 0 <= i < |parts| ==> after[i] == parts[i];
  }

  lemma {:induction false} Grow(parts: seq<Shard>, c: Shard, file: File, maxShard: nat)
    requires ShardsOk(parts + [c], maxShard) && c.estimated + Estimate(file) <= maxShard
    ensures var grown := c.(files := c.files + [file], estimated := c.estimated + Estimate(file));
      ShardsOk(parts + [grown], maxShard) && Flatten(parts + [grown]) == Flatten(parts + [c]) + [file]
  {
    var grown := c.(files := c.files + [file], estimated := c.estimated + Estimate(file));
    var before, after := parts + [c], parts + [grown];
    assert before[|parts|] == c && forall i :: 0 <= i < |parts| ==> before[i] == after[i];
    EstimatedLast(c.files, file);
    FlattenLast(parts, grown);
    FlattenLast(parts, c);
    hide Flatten, Estimated;
    assert grown.files[0] == c.files[0];
  }

  /** The open shard takes the file, or is closed for a new one. */
  method Place(parts: seq<Shard>, current: Option<Shard>, file: File, maxShard: nat) returns (parts': seq<Shard>, current': Shard)
    requires Estimate(file) <= maxShard
    requires current.None? ==> parts == []
    requires ShardsOk(if current.Some? then parts + [current.value] else parts, maxShard)
    ensures ShardsOk(parts' + [current'], maxShard)
    ensures Flatten(parts' + [current']) == Flatten(if current.Some? then parts + [current.value] else parts) + [file]
  {
    hide ShardsOk, Flatten;
    parts' := parts;
    if current.None? {
      OpenNext(parts, file, maxShard);
      current' := Shard(1, [file], Estimate(file));
    } else if current.value.estimated + Estimate(file) > maxShard {
      parts' := parts + [current.value];
      OpenNext(parts', file, maxShard);
      current' := Shard(|parts'| + 1, [file], Estimate(file));
    } else {
      Grow(parts, current.value, file, maxShard);
      current' := current.value.(files := current.value.files + [file], estimated := current.value.estimated + Estimate(file));
    }
  }

  /** Writes each file once into the shard that is open, opening the next one when it does not fit. */
  method Pack(files: seq<File>, maxShard: nat, maxArchive: nat) returns (result: Packing)
    ensures result.Packed? <==> Packable(files, maxShard, maxArchive)
    ensures result.Packed? ==> ShardsOk(result.shards, maxShard) && result.shards != [] && Flatten(result.shards) == Written(files)
    ensures result.EmptyArchive? <==> files == []
    ensures !result.Packed? && files != [] ==> exists n :: FailsAt(files, n, maxShard, maxArchive, result)
  {
    hide Collides, Seen, Written, Content, Estimated, Flatten, ShardsOk, FailsAt;
    var written: map<string, string> := map[];
    var total: nat := 0;
    var parts: seq<Shard> := [];
    var current: Option<Shard> := None;
    assert Between(files, 0, written, total, parts, current, maxShard) by { Start(files, maxShard); }
    for n := 0 to |files|
      invariant Between(files, n, written, total, parts, current, maxShard)
      invariant total <= maxArchive && (current.Some? <==> n > 0)
    {
      var file := files[n];
      Known(files, n, written);
      WrittenStep(files, n);
      if file.path in written {
        if written[file.path] != file.hash {
          CollidesMore(files, n + 1);
          Fails(files, n, maxShard, maxArchive, PathCollision);
          return PathCollision;
        }
        continue;
      }
      EstimatedLast(Written(files[..n]), file);
      WrittenMore(files, n + 1);
      written := written[file.path := file.hash];
      total := total + file.bytes;
      if total > maxArchive {
        Fails(files, n, maxShard, maxArchive, ArchiveBudgetExceeded);
        return ArchiveBudgetExceeded;
      }
      if Estimate(file) > maxShard {
        assert file in Written(files);
        Fails(files, n, maxShard, maxArchive, FileExceedsShard);
        return FileExceedsShard;
      }
      var shard;
      parts, shard := Place(parts, current, file, maxShard);
      current := Some(shard);
    }
    assert files[..|files|] == files;
    if current.None? {
      return EmptyArchive;
    }
    result := Packed(parts + [current.value]);
  }

  lemma Fails(files: seq<File>, n: nat, maxShard: nat, maxArchive: nat, failure: Packing)
    requires n < |files| && (n == 0 || Packable(files[..n], maxShard, maxArchive))
    requires if Collides(files[..n + 1]) then failure == PathCollision
             else if Content(Written(files[..n + 1])) > maxArchive then failure == ArchiveBudgetExceeded
             else Estimate(files[n]) > maxShard && failure == FileExceedsShard
    ensures FailsAt(files, n, maxShard, maxArchive, failure)
  {}

  lemma Start(files: seq<File>, maxShard: nat)
    ensures Between(files, 0, map[], 0, [], None, maxShard)
  {
    assert files[..0] == [];
  }
}
