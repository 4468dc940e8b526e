/** selectDesignPages: the loops, and that they produce the one selection there is. */
module DesignSelector {
  import opened Common
  import opened DesignSelection
  import opened Sorting

  lemma PagesStrict(reading: Reading, s: set<Page>)
    requires UniqueIds(s)
    ensures StrictOn((a: Page, b: Page) => PageBefore(reading, a, b), s)
  {}

  lemma CandidatesStrict(reading: Reading, s: set<Page>)
    requires UniqueIds(s)
    ensures StrictOn((a: Page, b: Page) => CandidateBefore(reading, a, b), s)
  {
    forall a, b, c | a in s && b in s && c in s
      ensures !CandidateBefore(reading, a, a)
      ensures a != b ==> CandidateBefore(reading, a, b) || CandidateBefore(reading, b, a)
      ensures CandidateBefore(reading, a, b) && CandidateBefore(reading, b, c) ==> CandidateBefore(reading, a, c)
    {
      CandidateOrder(reading, a, b, c);
    }
    hide CandidateBefore;
  }

  lemma RejectionsStrict(reading: Reading, s: set<Rejection>)
    requires forall a, b :: a in s && b in s && a.page.id == b.page.id ==> a == b
    ensures StrictOn((a: Rejection, b: Rejection) => PageBefore(reading, a.page, b.page), s)
  {}

  // ---------------------------------------------------------------- the loops

  /** Exactly the rejections of the pages of `done`, each once. */
  ghost predicate Noted(reading: Reading, locale: string, pages: set<Page>, done: set<Page>, rejected: seq<Rejection>) {
    && Distinct(rejected)
    && forall r :: r in rejected <==> r.page in done && Fate(reading, locale, pages, r.page) == Some(r.reason)
  }

  lemma Note(reading: Reading, locale: string, pages: set<Page>, done: set<Page>, rejected: seq<Rejection>, p: Page, reason: Reason)
    requires Noted(reading, locale, pages, done, rejected) && p !in done
    requires Fate(reading, locale, pages, p) == Some(reason)
    ensures Noted(reading, locale, pages, done + {p}, rejected + [Rejection(p, reason)])
  {
    hide Fate;
    var more := rejected + [Rejection(p, reason)];
    forall r ensures r in more <==> r in rejected || r == Rejection(p, reason) {}
  }

  /** The loop over all pages: what fails a check is rejected, the rest are candidates. */
  method Classify(reading: Reading, locale: string, ordered: seq<Page>, ghost pages: set<Page>)
    returns (candidates: seq<Page>, rejected: seq<Rejection>)
    requires pages == Elements(ordered) && Distinct(ordered)
    ensures Distinct(candidates) && forall p :: p in candidates <==> Candidate(reading, locale, pages, p)
    ensures Noted(reading, locale, pages, pages - Elements(candidates), rejected)
  {
    hide IdentityWinner, GroupWinner;
    candidates, rejected := [], [];
    for i := 0 to |ordered|
      invariant Distinct(candidates) && forall p :: p in candidates <==> p in ordered[..i] && Verdict(reading, locale, p) == None
      invariant Noted(reading, locale, pages, Elements(ordered[..i]) - Elements(candidates), rejected)
    {
      var p := ordered[i];
      assert ordered[..i + 1] == ordered[..i] + [p];
      assert p !in ordered[..i];
      var verdict := Verdict(reading, locale, p);
      if verdict.Some? {
        Note(reading, locale, pages, Elements(ordered[..i]) - Elements(candidates), rejected, p, verdict.value);
        hide Noted;
        assert Elements(ordered[..i + 1]) - Elements(candidates) == (Elements(ordered[..i]) - Elements(candidates)) + {p};
        rejected := rejected + [Rejection(p, verdict.value)];
      } else {
        hide Noted;
        assert Elements(ordered[..i + 1]) - Elements(candidates + [p]) == Elements(ordered[..i]) - Elements(candidates);
        candidates := candidates + [p];
      }
    }
    assert ordered[..|ordered|] == ordered;
    assert Elements(ordered[..|ordered|]) - Elements(candidates) == pages - Elements(candidates);
  }

  /** In candidate order, a page wins its identity exactly when it is the first one to have it. */
  lemma FirstOfIdentity(reading: Reading, locale: string, pages: set<Page>, ordered: seq<Page>, i: nat)
    requires UniqueIds(pages) && i < |ordered|
    requires Ascending((a: Page, b: Page) => CandidateBefore(reading, a, b), ordered)
    requires forall p :: p in ordered <==> Candidate(reading, locale, pages, p)
    ensures IdentityWinner(reading, locale, pages, ordered[i]) <==>
      forall j :: 0 <= j < i ==> reading.identity(ordered[j]) != reading.identity(ordered[i])
  {
    hide CandidateBefore, Candidate;
    var p := ordered[i];
    assert p in ordered;
    forall j | 0 <= j < i && reading.identity(ordered[j]) == reading.identity(p) ensures !IdentityWinner(reading, locale, pages, p) {
      assert ordered[j] in ordered && CandidateBefore(reading, ordered[j], p);
    }
    if forall j :: 0 <= j < i ==> reading.identity(ordered[j]) != reading.identity(p) {
      forall q | Candidate(reading, locale, pages, q) && reading.identity(q) == reading.identity(p) ensures !CandidateBefore(reading, q, p) {
        var k :| 0 <= k < |ordered| && ordered[k] == q;
        CandidateOrder(reading, p, q, p);
      }
    }
  }

  lemma FirstOfGroup(reading: Reading, locale: string, pages: set<Page>, ordered: seq<Page>, i: nat)
    requires UniqueIds(pages) && i < |ordered|
    requires Ascending((a: Page, b: Page) => CandidateBefore(reading, a, b), ordered)
    requires forall p :: p in ordered <==> IdentityWinner(reading, locale, pages, p)
    ensures GroupWinner(reading, locale, pages, ordered[i]) <==>
      forall j :: 0 <= j < i ==> GroupKey(reading, locale, ordered[j]) != GroupKey(reading, locale, ordered[i])
  {
    hide CandidateBefore, IdentityWinner;
    var p := ordered[i];
    assert p in ordered;
    forall j | 0 <= j < i && GroupKey(reading, locale, ordered[j]) == GroupKey(reading, locale, p) ensures !GroupWinner(reading, locale, pages, p) {
      assert ordered[j] in ordered && CandidateBefore(reading, ordered[j], p);
    }
    if forall j :: 0 <= j < i ==> GroupKey(reading, locale, ordered[j]) != GroupKey(reading, locale, p) {
      forall q | IdentityWinner(reading, locale, pages, q) && GroupKey(reading, locale, q) == GroupKey(reading, locale, p)
        ensures !CandidateBefore(reading, q, p)
      {
        var k :| 0 <= k < |ordered| && ordered[k] == q;
        CandidateOrder(reading, p, q, p);
      }
    }
  }

  /** The first winners: one candidate per identity. */
  method PickIdentities(reading: Reading, locale: string, ordered: seq<Page>, rejected0: seq<Rejection>, ghost pages: set<Page>)
    returns (winners: seq<Page>, rejected: seq<Rejection>)
    requires UniqueIds(pages) && Distinct(ordered)
    requires Ascending((a: Page, b: Page) => CandidateBefore(reading, a, b), ordered)
    requires forall p :: p in ordered <==> Candidate(reading, locale, pages, p)
    requires Noted(reading, locale, pages, pages - Elements(ordered), rejected0)
    ensures Distinct(winners) && forall p :: p in winners <==> IdentityWinner(reading, locale, pages, p)
    ensures Noted(reading, locale, pages, pages - Elements(winners), rejected)
  {
    hide IdentityWinner, GroupWinner, CandidateBefore;
    winners, rejected := [], rejected0;
    var seen: set<string> := {};
    ghost var done := pages - Elements(ordered);
    forall p | IdentityWinner(reading, locale, pages, p) ensures p in ordered { WinnerIsPage(reading, locale, pages, p); }
    for i := 0 to |ordered|
      invariant Distinct(winners) && forall p :: p in winners <==> p in ordered[..i] && IdentityWinner(reading, locale, pages, p)
      invariant seen == set p | p in ordered[..i] :: reading.identity(p)
      invariant Noted(reading, locale, pages, done, rejected)
      invariant forall p :: p in done <==> p in pages && p !in winners && p !in ordered[i..]
    {
      var p := ordered[i];
      FirstOfIdentity(reading, locale, pages, ordered, i);
      Split(ordered, i);
      assert Candidate(reading, locale, pages, p);
      hide Candidate, Noted;
      if reading.identity(p) !in seen {
        SeenNone(reading, ordered, i);
        winners := winners + [p];
      } else {
        var q :| q in ordered[..i] && reading.identity(q) == reading.identity(p);
        Note(reading, locale, pages, done, rejected, p, DuplicateReason(reading, p)) by { LoserFate(reading, locale, pages, p); }
        rejected := rejected + [Rejection(p, DuplicateReason(reading, p))];
        done := done + {p};
      }
      seen := seen + {reading.identity(p)};
    }
    assert ordered[..|ordered|] == ordered;
    assert done == pages - Elements(winners);
  }

  lemma LoserFate(reading: Reading, locale: string, pages: set<Page>, p: Page)
    requires Candidate(reading, locale, pages, p) && !IdentityWinner(reading, locale, pages, p)
    ensures Fate(reading, locale, pages, p) == Some(DuplicateReason(reading, p))
  {}

  lemma Split(s: seq<Page>, i: nat)
    requires Distinct(s) && i < |s|
    ensures s[..i + 1] == s[..i] + [s[i]] && s[i..] == [s[i]] + s[i + 1..]
    ensures s[i] !in s[..i] && s[i] !in s[i + 1..] && s[i] in s
  {}

  lemma SeenNone(reading: Reading, s: seq<Page>, i: nat)
    requires i < |s| && reading.identity(s[i]) !in (set p | p in s[..i] :: reading.identity(p))
    ensures forall j :: 0 <= j < i ==> reading.identity(s[j]) != reading.identity(s[i])
  {
    forall j | 0 <= j < i ensures reading.identity(s[j]) != reading.identity(s[i]) {
      assert s[j] in s[..i];
    }
  }

  /** The second winners: one page per role, route template and layout. */
  method PickGroups(reading: Reading, locale: string, ordered: seq<Page>, rejected0: seq<Rejection>, ghost pages: set<Page>)
    returns (winners: seq<Page>, rejected: seq<Rejection>)
    requires UniqueIds(pages) && Distinct(ordered)
    requires Ascending((a: Page, b: Page) => CandidateBefore(reading, a, b), ordered)
    requires forall p :: p in ordered <==> IdentityWinner(reading, locale, pages, p)
    requires Noted(reading, locale, pages, pages - Elements(ordered), rejected0)
    ensures Distinct(winners) && forall p :: p in winners <==> GroupWinner(reading, locale, pages, p)
    ensures Noted(reading, locale, pages, pages - Elements(winners), rejected)
  {
    hide IdentityWinner, GroupWinner, CandidateBefore, GroupKey, Keys;
    winners, rejected := [], rejected0;
    var seen: set<(string, string, string)> := {};
    assert seen == Keys(reading, locale, ordered[..0]) by { NoKeys(reading, locale); }
    ghost var done := pages - Elements(ordered);
    forall p | GroupWinner(reading, locale, pages, p) ensures p in ordered { WinnerWins(reading, locale, pages, p); }
    for i := 0 to |ordered|
      invariant Distinct(winners) && forall p :: p in winners <==> p in ordered[..i] && GroupWinner(reading, locale, pages, p)
      invariant seen == Keys(reading, locale, ordered[..i])
      invariant Noted(reading, locale, pages, done, rejected)
      invariant forall p :: p in done <==> p in pages && p !in winners && p !in ordered[i..]
    {
      var p := ordered[i];
      FirstOfGroup(reading, locale, pages, ordered, i);
      Split(ordered, i);
      WinnerIsPage(reading, locale, pages, p);
      hide Noted;
      KeysMore(reading, locale, ordered, i);
      if GroupKey(reading, locale, p) !in seen {
        winners := winners + [p];
      } else {
        Note(reading, locale, pages, done, rejected, p, TemplateDuplicate) by { RunnerUpFate(reading, locale, pages, p); }
        rejected := rejected + [Rejection(p, TemplateDuplicate)];
        done := done + {p};
      }
      seen := seen + {GroupKey(reading, locale, p)};
    }
    assert ordered[..|ordered|] == ordered;
    assert done == pages - Elements(winners);
  }

  ghost function Keys(reading: Reading, locale: string, s: seq<Page>): set<(string, string, string)> {
    set p | p in s :: GroupKey(reading, locale, p)
  }

  lemma NoKeys(reading: Reading, locale: string)
    ensures Keys(reading, locale, []) == {}
  {}

  /** The keys seen grow by one, and tell whether it is the first of its kind. */
  lemma KeysMore(reading: Reading, locale: string, s: seq<Page>, i: nat)
    requires i < |s|
    ensures Keys(reading, locale, s[..i + 1]) == Keys(reading, locale, s[..i]) + {GroupKey(reading, locale, s[i])}
    ensures GroupKey(reading, locale, s[i]) !in Keys(reading, locale, s[..i]) <==>
      forall j :: 0 <= j < i ==> GroupKey(reading, locale, s[j]) != GroupKey(reading, locale, s[i])
  {
    hide GroupKey;
    assert s[..i + 1] == s[..i] + [s[i]];
    forall j | 0 <= j < i ensures GroupKey(reading, locale, s[j]) in Keys(reading, locale, s[..i]) {
      assert s[j] in s[..i];
    }
    if key :| key in Keys(reading, locale, s[..i]) && key == GroupKey(reading, locale, s[i]) {
      var p :| p in s[..i] && GroupKey(reading, locale, p) == key;
      var j :| 0 <= j < i && s[j] == p;
    }
  }

  lemma WinnerWins(reading: Reading, locale: string, pages: set<Page>, p: Page)
    requires GroupWinner(reading, locale, pages, p)
    ensures IdentityWinner(reading, locale, pages, p)
  {}

  lemma WinnerIsPage(reading: Reading, locale: string, pages: set<Page>, p: Page)
    requires IdentityWinner(reading, locale, pages, p)
    ensures p in pages && Verdict(reading, locale, p) == None
  {}

  lemma RunnerUpFate(reading: Reading, locale: string, pages: set<Page>, p: Page)
    requires IdentityWinner(reading, locale, pages, p) && !GroupWinner(reading, locale, pages, p)
    ensures Fate(reading, locale, pages, p) == Some(TemplateDuplicate)
  {}

  /** The site's locale, from the first root page in page order. */
  method RootLocale(reading: Reading, ordered: seq<Page>) returns (locale: string)
    requires InPageOrder(reading, ordered)
    ensures LocaleOf(reading, Elements(ordered), locale)
  {
    for i := 0 to |ordered|
      invariant forall j :: 0 <= j < i ==> !reading.isRoot(ordered[j])
    {
      if reading.isRoot(ordered[i]) {
        assert IsFirstRoot(reading, Elements(ordered), ordered[i]) by {
          forall q | q in Elements(ordered) && reading.isRoot(q) ensures !PageBefore(reading, q, ordered[i]) {
            var k :| 0 <= k < |ordered| && ordered[k] == q;
          }
        }
        return reading.rootLocale(Some(ordered[i]));
      }
    }
    locale := reading.rootLocale(None);
  }

  /** Removes the first element of an identifier, if there is one. */
  function Removed(s: seq<Page>, id: Id): (r: seq<Page>) {
    if s == [] then [] else if s[0].id == id then s[1..] else [s[0]] + Removed(s[1..], id)
  }

  function RemovedRejection(s: seq<Rejection>, id: Id): (r: seq<Rejection>) {
    if s == [] then [] else if s[0].page.id == id then s[1..] else [s[0]] + RemovedRejection(s[1..], id)
  }

  lemma {:induction false} RemovedMembers(s: seq<Page>, id: Id)
    requires forall i, j :: 0 <= i < j < |s| ==> s[i].id != s[j].id
    ensures var r := Removed(s, id);
      && (forall i, j :: 0 <= i < j < |r| ==> r[i].id != r[j].id)
      && forall p :: p in r <==> p in s && p.id != id
  {
    if s != [] {
      RemovedMembers(s[1..], id);
      var rest := Removed(s[1..], id);
      forall p | p in rest ensures p.id != s[0].id {
        var i :| 0 <= i < |s| - 1 && s[1..][i] == p;
        assert s[i + 1] == p;
      }
      forall p ensures p in s <==> p == s[0] || p in s[1..] {}
    }
  }

  lemma {:induction false} RemovedRejectionMembers(s: seq<Rejection>, id: Id)
    requires forall i, j :: 0 <= i < j < |s| ==> s[i].page.id != s[j].page.id
    ensures var r := RemovedRejection(s, id);
      && (forall i, j :: 0 <= i < j < |r| ==> r[i].page.id != r[j].page.id)
      && forall p :: p in r <==> p in s && p.page.id != id
  {
    if s != [] {
      RemovedRejectionMembers(s[1..], id);
      var rest := RemovedRejection(s[1..], id);
      forall p | p in rest ensures p.page.id != s[0].page.id {
        var i :| 0 <= i < |s| - 1 && s[1..][i] == p;
        assert s[i + 1] == p;
      }
      forall p ensures p in s <==> p == s[0] || p in s[1..] {}
    }
  }

  ghost predicate ApartIds(s: seq<Page>) {
    forall i, j :: 0 <= i < j < |s| ==> s[i].id != s[j].id
  }

  lemma ApartFromUnique(s: seq<Page>, pages: set<Page>)
    requires Distinct(s) && UniqueIds(pages) && Elements(s) <= pages
    ensures ApartIds(s)
  {
    forall i, j | 0 <= i < j < |s| ensures s[i].id != s[j].id {
      assert s[i] in Elements(s) && s[j] in Elements(s);
    }
  }

  lemma NotedApart(reading: Reading, locale: string, pages: set<Page>, done: set<Page>, rejected: seq<Rejection>)
    requires Noted(reading, locale, pages, done, rejected) && UniqueIds(pages) && done <= pages
    ensures forall i, j :: 0 <= i < j < |rejected| ==> rejected[i].page.id != rejected[j].page.id
  {
    hide Fate;
    forall i, j | 0 <= i < j < |rejected| ensures rejected[i].page.id != rejected[j].page.id {
      assert rejected[i] in rejected && rejected[j] in rejected;
    }
  }

  /** Sorting by page order gives a strictly ordered result. */
  lemma PageSorted(reading: Reading, s: seq<Page>, pages: set<Page>)
    requires UniqueIds(pages) && Elements(s) <= pages && Distinct(s)
    ensures InPageOrder(reading, Sort((a: Page, b: Page) => PageBefore(reading, a, b), s))
  {
    PagesStrict(reading, Elements(s));
    SortAscends((a: Page, b: Page) => PageBefore(reading, a, b), s);
  }

  lemma CandidateSorted(reading: Reading, s: seq<Page>, pages: set<Page>)
    requires UniqueIds(pages) && Elements(s) <= pages && Distinct(s)
    ensures var before := (a: Page, b: Page) => CandidateBefore(reading, a, b);
      Ascending(before, Sort(before, s)) && Distinct(Sort(before, s))
  {
    var before := (a: Page, b: Page) => CandidateBefore(reading, a, b);
    CandidatesStrict(reading, Elements(s));
    hide CandidateBefore;
    SortAscends(before, s);
    assert Elements(Sort(before, s)) == Elements(s);
    AscendingDistinct(before, Sort(before, s));
  }

  lemma RejectionsSorted(reading: Reading, s: seq<Rejection>)
    requires forall i, j :: 0 <= i < j < |s| ==> s[i].page.id != s[j].page.id
    ensures InPageOrder(reading, PagesOf(Sort((a: Rejection, b: Rejection) => PageBefore(reading, a.page, b.page), s)))
  {
    forall a, b | a in Elements(s) && b in Elements(s) && a.page.id == b.page.id ensures a == b {
      var i :| 0 <= i < |s| && s[i] == a;
      var j :| 0 <= j < |s| && s[j] == b;
    }
    RejectionsStrict(reading, Elements(s));
    SortAscends((a: Rejection, b: Rejection) => PageBefore(reading, a.page, b.page), s);
  }

  lemma LastInOrder(reading: Reading, ordered: seq<Page>)
    requires ordered != [] && InPageOrder(reading, ordered)
    ensures forall p :: IsLast(reading, Elements(ordered), p) <==> p == ordered[|ordered| - 1]
  {
    var last := ordered[|ordered| - 1];
    forall q | q in Elements(ordered) ensures !PageBefore(reading, last, q) && (q != last ==> PageBefore(reading, q, last)) {
      var k :| 0 <= k < |ordered| && ordered[k] == q;
    }
  }

  /** The result before the budget is looked at. */
  method Choose(reading: Reading, locale: string, ordered: seq<Page>, ghost pages: set<Page>)
    returns (selected: seq<Page>, rejected: seq<Rejection>)
    requires pages == Elements(ordered) && Distinct(ordered) && UniqueIds(pages)
    ensures Distinct(selected) && forall p :: p in selected <==> GroupWinner(reading, locale, pages, p)
    ensures Noted(reading, locale, pages, pages - Elements(selected), rejected)
  {
    hide IdentityWinner, GroupWinner, CandidateBefore, Noted;
    var before := (a: Page, b: Page) => CandidateBefore(reading, a, b);
    var candidates, failing := Classify(reading, locale, ordered, pages);
    CandidateSorted(reading, candidates, pages);
    assert Elements(Sort(before, candidates)) == Elements(candidates);
    var winners, duplicates := PickIdentities(reading, locale, Sort(before, candidates), failing, pages);
    forall p | p in winners ensures p in pages { WinnerIsPage(reading, locale, pages, p); }
    CandidateSorted(reading, winners, pages);
    assert Elements(Sort(before, winners)) == Elements(winners);
    selected, rejected := PickGroups(reading, locale, Sort(before, winners), duplicates, pages);
  }

  lemma ChosenFate(reading: Reading, locale: string, pages: set<Page>, p: Page)
    ensures p in pages && Fate(reading, locale, pages, p) == None <==> GroupWinner(reading, locale, pages, p)
  {}

  lemma RejectedFates(reading: Reading, locale: string, pages: set<Page>, selected: seq<Page>, rejected: seq<Rejection>)
    requires Noted(reading, locale, pages, pages - Elements(selected), rejected)
    requires forall p :: p in selected <==> p in pages && Fate(reading, locale, pages, p) == None
    ensures forall r :: r in rejected <==> r.page in pages && Fate(reading, locale, pages, r.page) == Some(r.reason)
  {
    hide Fate;
  }

  lemma BudgetFates(reading: Reading, locale: string, pages: set<Page>, ordered: seq<Page>, budgetLimited: bool)
    requires pages == Elements(ordered) && InPageOrder(reading, ordered) && Distinct(ordered)
    ensures forall p :: p in pages ==>
      FinalFate(reading, locale, pages, budgetLimited, p)
      == if budgetLimited && |ordered| > 1 && p == ordered[|ordered| - 1] then Some(BudgetLimited) else Fate(reading, locale, pages, p)
  {
    SeqSize(ordered);
    if ordered != [] {
      LastInOrder(reading, ordered);
    }
    hide Fate;
  }

  /** The last page in page order leaves wherever it was and is rejected for the budget. */
  method CutLast(reading: Reading, locale: string, ordered: seq<Page>, selected0: seq<Page>, rejected0: seq<Rejection>, ghost pages: set<Page>)
    returns (selected: seq<Page>, rejected: seq<Rejection>)
    requires |ordered| > 1 && pages == Elements(ordered) && UniqueIds(pages)
    requires ApartIds(selected0) && forall p :: p in selected0 <==> p in pages && Fate(reading, locale, pages, p) == None
    requires forall i, j :: 0 <= i < j < |rejected0| ==> rejected0[i].page.id != rejected0[j].page.id
    requires forall r :: r in rejected0 <==> r.page in pages && Fate(reading, locale, pages, r.page) == Some(r.reason)
    ensures Distinct(selected)
    ensures forall i, j :: 0 <= i < j < |rejected| ==> rejected[i].page.id != rejected[j].page.id
    ensures forall p :: p in selected <==> p in pages && p != ordered[|ordered| - 1] && Fate(reading, locale, pages, p) == None
    ensures forall r :: r in rejected <==>
      r == Rejection(ordered[|ordered| - 1], BudgetLimited)
      || (r.page in pages && r.page != ordered[|ordered| - 1] && Fate(reading, locale, pages, r.page) == Some(r.reason))
  {
    hide Fate;
    var bounded := ordered[|ordered| - 1];
    assert bounded in pages;
    RemovedMembers(selected0, bounded.id);
    RemovedRejectionMembers(rejected0, bounded.id);
    selected := Removed(selected0, bounded.id);
    var others := RemovedRejection(rejected0, bounded.id);
    rejected := others + [Rejection(bounded, BudgetLimited)];
    forall i, j | 0 <= i < j < |rejected| ensures rejected[i].page.id != rejected[j].page.id {
      assert rejected[i] in others;
    }
    forall r ensures r in rejected <==> r in others || r == Rejection(bounded, BudgetLimited) {}
  }

  /** Every page with its final fate, before the results are sorted. */
  method Judge(reading: Reading, locale: string, ordered: seq<Page>, budgetLimited: bool, ghost pages: set<Page>)
    returns (selected: seq<Page>, rejected: seq<Rejection>)
    requires pages == Elements(ordered) && Distinct(ordered) && UniqueIds(pages) && InPageOrder(reading, ordered)
    ensures Distinct(selected)
    ensures forall i, j :: 0 <= i < j < |rejected| ==> rejected[i].page.id != rejected[j].page.id
    ensures forall p :: p in selected <==> p in pages && FinalFate(reading, locale, pages, budgetLimited, p) == None
    ensures forall r :: r in rejected <==> r.page in pages && FinalFate(reading, locale, pages, budgetLimited, r.page) == Some(r.reason)
  {
    hide GroupWinner, Fate, Noted, FinalFate;
    selected, rejected := Choose(reading, locale, ordered, pages);
    forall p ensures p in selected <==> p in pages && Fate(reading, locale, pages, p) == None { ChosenFate(reading, locale, pages, p); }
    NotedApart(reading, locale, pages, pages - Elements(selected), rejected);
    ApartFromUnique(selected, pages);
    RejectedFates(reading, locale, pages, selected, rejected);
    BudgetFates(reading, locale, pages, ordered, budgetLimited);
    if budgetLimited && |ordered| > 1 {
      assert ordered[|ordered| - 1] in pages;
      selected, rejected := CutLast(reading, locale, ordered, selected, rejected, pages);
    }
  }

  /** The pages are sorted, judged, thinned out twice, and cut by the budget; the outcome is the selection of their set. */
  method SelectDesignPages(reading: Reading, pages: seq<Page>, budgetLimited: bool)
    returns (locale: string, selected: seq<Page>, rejected: seq<Rejection>)
    requires ApartIds(pages)
    ensures IsSelection(reading, Elements(pages), budgetLimited, locale, selected, rejected)
  {
    hide FinalFate;
    ghost var all := Elements(pages);
    UniqueFromApart(pages);
    var ordered := SortPages(reading, pages, all);
    locale := RootLocale(reading, ordered);
    selected, rejected := Judge(reading, locale, ordered, budgetLimited, all);
    selected := SortPages(reading, selected, all);
    RejectionsSorted(reading, rejected);
    rejected := Sort((a: Rejection, b: Rejection) => PageBefore(reading, a.page, b.page), rejected);
  }

  lemma UniqueFromApart(s: seq<Page>)
    requires ApartIds(s)
    ensures UniqueIds(Elements(s)) && Distinct(s)
  {
    forall p, q | p in Elements(s) && q in Elements(s) && p.id == q.id ensures p == q {
      var i :| 0 <= i < |s| && s[i] == p;
      var j :| 0 <= j < |s| && s[j] == q;
    }
  }

  method SortPages(reading: Reading, s: seq<Page>, ghost pages: set<Page>) returns (r: seq<Page>)
    requires UniqueIds(pages) && Elements(s) <= pages && Distinct(s)
    ensures InPageOrder(reading, r) && Elements(r) == Elements(s) && Distinct(r)
    ensures forall p :: p in r <==> p in s
  {
    var pageBefore := (a: Page, b: Page) => PageBefore(reading, a, b);
    PageSorted(reading, s, pages);
    r := Sort(pageBefore, s);
    assert Elements(r) == Elements(s);
    PagesStrict(reading, Elements(s));
    AscendingDistinct(pageBefore, r);
  }
}
