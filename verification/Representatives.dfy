/** selectRepresentatives: of the captured pages that share a layout, only the first goes into the archive. */
module Representatives {
  import opened Common
  import opened Sorting

  datatype Design = Design(role: string, template: string, fingerprint: Option<string>)

  /** A captured page; the identifier stands for its rank among all identifiers. */
  datatype Bundle = Bundle(pageId: Id, ordinal: nat, design: Option<Design>)

  /** Pages without a design are groups of their own. A fingerprint is never the text that stands for a missing one. */
  datatype Group = Layout(design: Design) | Legacy(pageId: Id)

  function GroupOf(bundle: Bundle): Group {
    if bundle.design.Some? then Layout(bundle.design.value) else Legacy(bundle.pageId)
  }

  predicate Before(a: Bundle, b: Bundle) {
    a.ordinal < b.ordinal || (a.ordinal == b.ordinal && a.pageId < b.pageId)
  }

  ghost predicate UniquePages(bundles: seq<Bundle>) {
    forall i, j :: 0 <= i < j < |bundles| ==> bundles[i].pageId != bundles[j].pageId
  }

  /** The first page of its group. */
  ghost predicate Representative(bundles: set<Bundle>, b: Bundle) {
    b in bundles && forall c :: c in bundles && GroupOf(c) == GroupOf(b) ==> !Before(c, b)
  }

  /** The result as the set of pages determines it. */
  ghost predicate Represents(bundles: set<Bundle>, selected: seq<Bundle>, rejected: set<Id>) {
    && Ascending(Before, selected)
    && (forall b :: b in selected <==> Representative(bundles, b))
    && (forall id :: id in rejected <==> exists b :: b in bundles && b.pageId == id && !Representative(bundles, b))
  }

  lemma OrderIsStrict(bundles: seq<Bundle>)
    requires UniquePages(bundles)
    ensures StrictOn(Before, Elements(bundles)) && Distinct(bundles)
  {
    forall a, b | a in Elements(bundles) && b in Elements(bundles) && a != b ensures Before(a, b) || Before(b, a) {
      var i :| 0 <= i < |bundles| && bundles[i] == a;
      var j :| 0 <= j < |bundles| && bundles[j] == b;
    }
  }

  /** Any permutation of the pages gives the same result. */
  lemma RepresentsUnique(bundles: seq<Bundle>, selected: seq<Bundle>, rejected: set<Id>, selected': seq<Bundle>, rejected': set<Id>)
    requires UniquePages(bundles)
    requires Represents(Elements(bundles), selected, rejected) && Represents(Elements(bundles), selected', rejected')
    ensures selected == selected' && rejected == rejected'
  {
    OrderIsStrict(bundles);
    hide Representative, Before;
    assert Elements(selected) == Elements(selected') <= Elements(bundles) by {
      forall b | b in selected ensures b in bundles { InBundles(bundles, b); }
    }
    AscendingUnique(Before, selected, selected');
  }

  lemma InBundles(bundles: seq<Bundle>, b: Bundle)
    requires Representative(Elements(bundles), b)
    ensures b in bundles
  {}

  /** No layout is lost, and none is kept twice: every page has exactly one selected page of its group, not behind it. */
  lemma {:induction false} LayoutKept(bundles: seq<Bundle>, selected: seq<Bundle>, rejected: set<Id>, b: Bundle)
    requires UniquePages(bundles) && Represents(Elements(bundles), selected, rejected) && b in bundles
    ensures exists r :: r in selected && GroupOf(r) == GroupOf(b) && !Before(b, r)
    ensures forall r, s :: r in selected && s in selected && GroupOf(r) == GroupOf(b) == GroupOf(s) ==> r == s
  {
    OrderIsStrict(bundles);
    var r := FirstOf(Elements(bundles), Elements(bundles), b);
    assert r in selected;
    forall r, s | r in selected && s in selected && GroupOf(r) == GroupOf(b) == GroupOf(s) ensures r == s {
      assert Representative(Elements(bundles), r) && Representative(Elements(bundles), s);
      assert r in Elements(bundles) && s in Elements(bundles);
    }
  }

  /** `c` shares the layout of `b` and comes no later in the archive; pages without a design share no layout. */
  predicate AheadInLayout(c: Bundle, b: Bundle) {
    && c.design.Some? && c.design == b.design && c.pageId != b.pageId
    && (c.ordinal < b.ordinal || (c.ordinal == b.ordinal && c.pageId <= b.pageId))
  }

  /** A page is kept exactly if no page of its layout has a lower ordinal; the kept pages are in the order of their ordinals. */
  lemma KeptExactly(bundles: seq<Bundle>, selected: seq<Bundle>, rejected: set<Id>, b: Bundle)
    requires UniquePages(bundles) && Represents(Elements(bundles), selected, rejected) && b in bundles
    ensures b in selected <==> forall c :: c in bundles ==> !AheadInLayout(c, b)
    ensures b.pageId in rejected <==> b !in selected
    ensures forall i, j :: 0 <= i < j < |selected| ==> selected[i].ordinal <= selected[j].ordinal
  {
    OrderIsStrict(bundles);
    forall c | c in bundles ensures AheadInLayout(c, b) <==> GroupOf(c) == GroupOf(b) && Before(c, b) {
      assert c in Elements(bundles) && b in Elements(bundles);
      if c.pageId == b.pageId {
        SamePage(bundles, c, b);
      }
    }
    assert b in selected <==> Representative(Elements(bundles), b);
    forall c | c in bundles && c.pageId == b.pageId ensures c == b { SamePage(bundles, c, b); }
  }

  lemma SamePage(bundles: seq<Bundle>, a: Bundle, b: Bundle)
    requires UniquePages(bundles) && a in bundles && b in bundles && a.pageId == b.pageId
    ensures a == b
  {
    var i :| 0 <= i < |bundles| && bundles[i] == a;
    var j :| 0 <= j < |bundles| && bundles[j] == b;
  }

  /** The first page of the group of `b`, looked for among `rest`. */
  lemma {:induction false} FirstOf(bundles: set<Bundle>, rest: set<Bundle>, b: Bundle) returns (r: Bundle)
    requires StrictOn(Before, bundles) && rest <= bundles && b in rest
    requires forall c :: c in bundles && c !in rest && GroupOf(c) == GroupOf(b) ==> !Before(c, b)
    ensures Representative(bundles, r) && GroupOf(r) == GroupOf(b) && !Before(b, r)
    decreases |rest|
  {
    if c :| c in rest && GroupOf(c) == GroupOf(b) && Before(c, b) {
      r := FirstOf(bundles, rest - {b}, c);
    } else {
      r := b;
    }
  }

  /** The groups met so far, each under its first page. */
  ghost predicate Grouped(ordered: seq<Bundle>, n: nat, groups: set<Group>)
    requires n <= |ordered|
  {
    forall g :: g in groups <==> exists i :: 0 <= i < n && GroupOf(ordered[i]) == g
  }

  lemma FirstOfGroup(ordered: seq<Bundle>, n: nat)
    requires n < |ordered| && Ascending(Before, ordered) && StrictOn(Before, Elements(ordered))
    ensures Representative(Elements(ordered), ordered[n]) <==> forall i :: 0 <= i < n ==> GroupOf(ordered[i]) != GroupOf(ordered[n])
  {
    hide GroupOf, Before;
    var b := ordered[n];
    assert b in Elements(ordered);
    forall i | 0 <= i < n && GroupOf(ordered[i]) == GroupOf(b) ensures !Representative(Elements(ordered), b) {
      assert ordered[i] in Elements(ordered) && Before(ordered[i], b);
    }
    if forall i :: 0 <= i < n ==> GroupOf(ordered[i]) != GroupOf(b) {
      forall c | c in Elements(ordered) && GroupOf(c) == GroupOf(b) ensures !Before(c, b) {
        var k :| 0 <= k < |ordered| && ordered[k] == c;
      }
    }
  }

  /** What the loop has made of the first `n` pages. */
  ghost predicate Sifted(ordered: seq<Bundle>, n: nat, selected: seq<Bundle>, rejected: set<Id>)
    requires n <= |ordered|
  {
    && Ascending(Before, selected)
    && (forall b :: b in selected <==> exists i :: 0 <= i < n && ordered[i] == b && Representative(Elements(ordered), b))
    && (forall id :: id in rejected <==> exists i :: 0 <= i < n && ordered[i].pageId == id && !Representative(Elements(ordered), ordered[i]))
  }

  lemma Reject(ordered: seq<Bundle>, n: nat, selected: seq<Bundle>, rejected: set<Id>)
    requires n < |ordered| && Sifted(ordered, n, selected, rejected) && !Representative(Elements(ordered), ordered[n])
    ensures Sifted(ordered, n + 1, selected, rejected + {ordered[n].pageId})
  {
    hide Representative, Before;
  }

  lemma Keep(ordered: seq<Bundle>, n: nat, selected: seq<Bundle>, rejected: set<Id>)
    requires n < |ordered| && Ascending(Before, ordered)
    requires Sifted(ordered, n, selected, rejected) && Representative(Elements(ordered), ordered[n])
    ensures Sifted(ordered, n + 1, selected + [ordered[n]], rejected)
  {
    hide Representative, Before;
    forall b | b in selected ensures Before(b, ordered[n]) {
      var i :| 0 <= i < n && ordered[i] == b;
    }
  }

  lemma SiftedAll(ordered: seq<Bundle>, selected: seq<Bundle>, rejected: set<Id>)
    requires Sifted(ordered, |ordered|, selected, rejected)
    ensures Represents(Elements(ordered), selected, rejected)
  {
    forall b | Representative(Elements(ordered), b) ensures b in selected {
      InBundles(ordered, b);
    }
    hide Representative, Before;
    forall b | b in Elements(ordered) && !Representative(Elements(ordered), b) ensures b.pageId in rejected {
      var i :| 0 <= i < |ordered| && ordered[i] == b;
    }
    forall id | id in rejected ensures exists b :: b in Elements(ordered) && b.pageId == id && !Representative(Elements(ordered), b) {
      var i :| 0 <= i < |ordered| && ordered[i].pageId == id && !Representative(Elements(ordered), ordered[i]);
      assert ordered[i] in Elements(ordered);
    }
  }

  lemma Sorted(indexed: seq<Bundle>)
    requires UniquePages(indexed)
    ensures var ordered := Sort(Before, indexed);
      Elements(ordered) == Elements(indexed) && Ascending(Before, ordered) && StrictOn(Before, Elements(ordered))
  {
    OrderIsStrict(indexed);
    SortAscends(Before, indexed);
    assert Elements(Sort(Before, indexed)) == Elements(indexed);
  }

  lemma GroupStep(ordered: seq<Bundle>, n: nat, groups: set<Group>)
    requires n < |ordered| && Ascending(Before, ordered) && StrictOn(Before, Elements(ordered)) && Grouped(ordered, n, groups)
    ensures GroupOf(ordered[n]) !in groups <==> Representative(Elements(ordered), ordered[n])
    ensures Grouped(ordered, n + 1, groups + {GroupOf(ordered[n])})
  {
    FirstOfGroup(ordered, n);
    hide StrictOn, Ascending, Representative;
  }

  lemma Nothing(ordered: seq<Bundle>)
    ensures Sifted(ordered, 0, [], {}) && Grouped(ordered, 0, {})
  {}

  method SelectRepresentatives(indexed: seq<Bundle>) returns (selected: seq<Bundle>, rejected: set<Id>)
    requires UniquePages(indexed)
    ensures Represents(Elements(indexed), selected, rejected)
  {
    hide UniquePages, Elements, StrictOn, Ascending, Sort, Before, Representative, Grouped, Sifted, Represents;
    var ordered := Sort(Before, indexed);
    Sorted(indexed);
    var groups: set<Group> := {};
    selected, rejected := [], {};
    Nothing(ordered);
    for n := 0 to |ordered|
      invariant Grouped(ordered, n, groups) && Sifted(ordered, n, selected, rejected)
    {
      var item := ordered[n];
      GroupStep(ordered, n, groups);
      if GroupOf(item) in groups {
        Reject(ordered, n, selected, rejected);
        rejected := rejected + {item.pageId};
      } else {
        Keep(ordered, n, selected, rejected);
        selected := selected + [item];
      }
      groups := groups + {GroupOf(item)};
    }
    SiftedAll(ordered, selected, rejected);
  }
}
