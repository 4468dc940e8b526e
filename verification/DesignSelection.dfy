/** Choosing the pages of a design clone: one page per identity, and one per role, route template and layout. */
module DesignSelection {
  import opened Common
  import opened Sorting

  datatype Fetch = Success | Warning | Failure

  /** A crawled page; `address` is its final URL, or its URL when there is none. */
  datatype Page = Page(id: Id, address: string, fetch: Fetch, statusCode: int)

  datatype Reason =
    | AlternateLocale | QueryVariant | CanonicalDuplicate | TemplateDuplicate | NonHtml
    | ExternalOrigin | PolicyBlocked | HttpFailure | BudgetLimited

  /** How a page reads: URL handling, locale and layout inference, and the collation of URLs are not modelled. */
  datatype Reading = Reading(
    rank: string -> int, parses: string -> bool, sameOrigin: string -> bool, normalize: string -> string,
    isHtml: Page -> bool, blocked: string -> bool, isRoot: Page -> bool,
    rootLocale: Option<Page> -> string, pageLocale: Page -> string,
    role: Page -> string, template: (Page, string) -> string, hint: Page -> string,
    identity: Page -> string, hasCanonical: Page -> bool, selfCanonical: Page -> bool, hadQuery: Page -> bool)

  datatype Rejection = Rejection(page: Page, reason: Reason)

  // ------------------------------------------------------------------- orders

  /** pageOrder: by URL, then by identifier. */
  predicate PageBefore(reading: Reading, a: Page, b: Page) {
    reading.rank(a.address) < reading.rank(b.address)
    || (reading.rank(a.address) == reading.rank(b.address) && a.id < b.id)
  }

  function StatusRank(status: int): int {
    if 200 <= status < 300 then 0
    else if 300 <= status < 400 then 1
    else if 400 <= status < 500 then 2
    else if 500 <= status < 600 then 3
    else 4
  }

  function Flag(b: bool): int {
    if b then 1 else 0
  }

  /** candidateOrder, as the list of its comparisons. */
  function CandidateKey(reading: Reading, p: Page): seq<int> {
    var url := reading.normalize(p.address);
    [Flag(reading.hadQuery(p)), -Flag(reading.selfCanonical(p)), StatusRank(p.statusCode), |url|, reading.rank(url), p.id]
  }

  predicate KeyBefore(a: seq<int>, b: seq<int>)
    requires |a| == |b|
  {
    |a| > 0 && (a[0] < b[0] || (a[0] == b[0] && KeyBefore(a[1..], b[1..])))
  }

  predicate CandidateBefore(reading: Reading, a: Page, b: Page) {
    KeyBefore(CandidateKey(reading, a), CandidateKey(reading, b))
  }

  lemma {:induction false} KeyOrder(a: seq<int>, b: seq<int>, c: seq<int>)
    requires |a| == |b| == |c|
    ensures !KeyBefore(a, a)
    ensures a == b || KeyBefore(a, b) || KeyBefore(b, a)
    ensures KeyBefore(a, b) ==> !KeyBefore(b, a)
    ensures KeyBefore(a, b) && KeyBefore(b, c) ==> KeyBefore(a, c)
  {
    if |a| > 0 {
      KeyOrder(a[1..], b[1..], c[1..]);
      assert a == [a[0]] + a[1..] && b == [b[0]] + b[1..];
    }
  }

  lemma CandidateOrder(reading: Reading, a: Page, b: Page, c: Page)
    ensures !CandidateBefore(reading, a, a)
    ensures a.id == b.id || CandidateBefore(reading, a, b) || CandidateBefore(reading, b, a)
    ensures CandidateBefore(reading, a, b) ==> !CandidateBefore(reading, b, a)
    ensures CandidateBefore(reading, a, b) && CandidateBefore(reading, b, c) ==> CandidateBefore(reading, a, c)
  {
    var x, y, z := CandidateKey(reading, a), CandidateKey(reading, b), CandidateKey(reading, c);
    KeyOrder(x, y, z);
    if x == y {
      assert x[5] == y[5];
    }
    hide KeyBefore;
  }

  ghost predicate UniqueIds(pages: set<Page>) {
    forall p, q :: p in pages && q in pages && p.id == q.id ==> p == q
  }

  // ------------------------------------------------------------------ verdicts

  /** The checks a page must pass to be a candidate, in their order. */
  function Verdict(reading: Reading, locale: string, p: Page): Option<Reason> {
    if !reading.parses(p.address) then Some(HttpFailure)
    else if !reading.sameOrigin(p.address) then Some(ExternalOrigin)
    else if !reading.isHtml(p) then Some(NonHtml)
    else if p.fetch == Warning then Some(PolicyBlocked)
    else if (p.fetch == Failure || p.statusCode == 0) && !(400 <= p.statusCode < 600) then Some(HttpFailure)
    else if reading.blocked(p.address) then Some(PolicyBlocked)
    else if locale != "und" && reading.pageLocale(p) != "und" && reading.pageLocale(p) != locale then Some(AlternateLocale)
    else None
  }

  function GroupKey(reading: Reading, locale: string, p: Page): (string, string, string) {
    (reading.role(p), reading.template(p, locale), reading.hint(p))
  }

  function DuplicateReason(reading: Reading, p: Page): Reason {
    if reading.hasCanonical(p) then CanonicalDuplicate else QueryVariant
  }

  // ---------------------------------------------------- the outcome of a page

  ghost predicate Candidate(reading: Reading, locale: string, pages: set<Page>, p: Page) {
    p in pages && Verdict(reading, locale, p) == None
  }

  /** No better candidate has the same identity. */
  ghost predicate IdentityWinner(reading: Reading, locale: string, pages: set<Page>, p: Page) {
    && Candidate(reading, locale, pages, p)
    && forall q :: Candidate(reading, locale, pages, q) && reading.identity(q) == reading.identity(p) ==> !CandidateBefore(reading, q, p)
  }

  /** No better winner has the same role, template and layout. */
  ghost predicate GroupWinner(reading: Reading, locale: string, pages: set<Page>, p: Page) {
    && IdentityWinner(reading, locale, pages, p)
    && forall q :: IdentityWinner(reading, locale, pages, q) && GroupKey(reading, locale, q) == GroupKey(reading, locale, p)
         ==> !CandidateBefore(reading, q, p)
  }

  /** The fate of a page before the budget is looked at: None when it is selected. */
  ghost function Fate(reading: Reading, locale: string, pages: set<Page>, p: Page): Option<Reason> {
    if Verdict(reading, locale, p).Some? then Verdict(reading, locale, p)
    else if !IdentityWinner(reading, locale, pages, p) then Some(DuplicateReason(reading, p))
    else if !GroupWinner(reading, locale, pages, p) then Some(TemplateDuplicate)
    else None
  }

  ghost predicate IsLast(reading: Reading, pages: set<Page>, p: Page) {
    p in pages && forall q :: q in pages ==> !PageBefore(reading, p, q)
  }

  /** The fate of a page: with a limited budget the last page in page order is cut off. */
  ghost function FinalFate(reading: Reading, locale: string, pages: set<Page>, budgetLimited: bool, p: Page): Option<Reason> {
    if budgetLimited && |pages| > 1 && IsLast(reading, pages, p) then Some(BudgetLimited)
    else Fate(reading, locale, pages, p)
  }

  ghost predicate IsFirstRoot(reading: Reading, pages: set<Page>, p: Page) {
    p in pages && reading.isRoot(p) && forall q :: q in pages && reading.isRoot(q) ==> !PageBefore(reading, q, p)
  }

  /** The locale of the site, inferred from the first root page in page order if there is one. */
  ghost predicate LocaleOf(reading: Reading, pages: set<Page>, locale: string) {
    || (exists p :: IsFirstRoot(reading, pages, p) && locale == reading.rootLocale(Some(p)))
    || ((forall p :: p in pages ==> !reading.isRoot(p)) && locale == reading.rootLocale(None))
  }

  /** The result is strictly in page order. */
  ghost predicate InPageOrder(reading: Reading, s: seq<Page>) {
    forall i, j :: 0 <= i < j < |s| ==> PageBefore(reading, s[i], s[j])
  }

  ghost function PagesOf(rejected: seq<Rejection>): seq<Page> {
    seq(|rejected|, i requires 0 <= i < |rejected| => rejected[i].page)
  }

  /** What a selection of `pages` has to be, whatever order they came in. */
  ghost predicate IsSelection(reading: Reading, pages: set<Page>, budgetLimited: bool, locale: string, selected: seq<Page>, rejected: seq<Rejection>) {
    && LocaleOf(reading, pages, locale)
    && InPageOrder(reading, selected) && InPageOrder(reading, PagesOf(rejected))
    && (forall p :: p in selected <==> p in pages && FinalFate(reading, locale, pages, budgetLimited, p) == None)
    && (forall r :: r in rejected <==> r.page in pages && FinalFate(reading, locale, pages, budgetLimited, r.page) == Some(r.reason))
  }

  // ----------------------------------------------------------------- theorems

  /** Selected and rejected together hold every page exactly once. */
  lemma CanonicalPartition(reading: Reading, pages: set<Page>, budgetLimited: bool, locale: string, selected: seq<Page>, rejected: seq<Rejection>)
    requires IsSelection(reading, pages, budgetLimited, locale, selected, rejected)
    ensures Distinct(selected) && Distinct(PagesOf(rejected))
    ensures forall p :: p in pages <==> (p in selected || p in PagesOf(rejected))
    ensures forall p :: !(p in selected && p in PagesOf(rejected))
  {
    forall p | p in PagesOf(rejected) ensures p in pages && FinalFate(reading, locale, pages, budgetLimited, p).Some? {
      var i :| 0 <= i < |rejected| && PagesOf(rejected)[i] == p;
      assert rejected[i] in rejected;
    }
    forall p | p in pages && p !in selected ensures p in PagesOf(rejected) {
      var r := Rejection(p, FinalFate(reading, locale, pages, budgetLimited, p).value);
      assert r in rejected;
      var i :| 0 <= i < |rejected| && rejected[i] == r;
      assert PagesOf(rejected)[i] == p;
    }
  }

  /** A strictly ordered sequence is determined by its elements. */
  lemma SortedUnique(reading: Reading, s: seq<Page>, t: seq<Page>)
    requires InPageOrder(reading, s) && InPageOrder(reading, t)
    requires forall p :: p in s <==> p in t
    ensures s == t
  {
    forall a, b | a in Elements(s) && b in Elements(s) && a != b ensures PageBefore(reading, a, b) || PageBefore(reading, b, a) {
      var i :| 0 <= i < |s| && s[i] == a;
      var j :| 0 <= j < |s| && s[j] == b;
    }
    AscendingUnique((a: Page, b: Page) => PageBefore(reading, a, b), s, t);
  }

  lemma SortedRejections(reading: Reading, a: seq<Rejection>, b: seq<Rejection>)
    requires InPageOrder(reading, PagesOf(a)) && InPageOrder(reading, PagesOf(b))
    requires forall r :: r in a <==> r in b
    ensures a == b
  {
    forall p ensures p in PagesOf(a) <==> p in PagesOf(b) {
      SameRejected(a, b, p);
      SameRejected(b, a, p);
    }
    SortedUnique(reading, PagesOf(a), PagesOf(b));
    assert |a| == |PagesOf(a)| == |PagesOf(b)| == |b|;
    forall i | 0 <= i < |a| ensures a[i] == b[i] {
      assert a[i] in b;
      var j :| 0 <= j < |b| && b[j] == a[i];
      assert PagesOf(b)[j] == PagesOf(b)[i];
    }
  }

  lemma SameRejected(a: seq<Rejection>, b: seq<Rejection>, p: Page)
    requires forall r :: r in a ==> r in b
    ensures p in PagesOf(a) ==> p in PagesOf(b)
  {
    if p in PagesOf(a) {
      var i :| 0 <= i < |a| && PagesOf(a)[i] == p;
      assert a[i] in b;
      var j :| 0 <= j < |b| && b[j] == a[i];
      assert PagesOf(b)[j] == p;
    }
  }

  lemma SameLocale(reading: Reading, pages: set<Page>, a: string, b: string)
    requires UniqueIds(pages) && LocaleOf(reading, pages, a) && LocaleOf(reading, pages, b)
    ensures a == b
  {
    if p, q :| IsFirstRoot(reading, pages, p) && IsFirstRoot(reading, pages, q) {
      assert !PageBefore(reading, p, q) && !PageBefore(reading, q, p);
    }
  }

  /** The selection depends on the set of pages alone: any permutation of the input gives the same result. */
  lemma SelectionUnique(reading: Reading, pages: set<Page>, budgetLimited: bool,
                        locale: string, selected: seq<Page>, rejected: seq<Rejection>,
                        locale': string, selected': seq<Page>, rejected': seq<Rejection>)
    requires UniqueIds(pages)
    requires IsSelection(reading, pages, budgetLimited, locale, selected, rejected)
    requires IsSelection(reading, pages, budgetLimited, locale', selected', rejected')
    ensures locale == locale' && selected == selected' && rejected == rejected'
  {
    SameLocale(reading, pages, locale, locale');
    hide LocaleOf, FinalFate;
    SortedUnique(reading, selected, selected');
    SortedRejections(reading, rejected, rejected');
  }

  /** No two selected pages share an identity, nor a role, template and layout. */
  lemma SelectedDistinct(reading: Reading, pages: set<Page>, budgetLimited: bool, locale: string, selected: seq<Page>, rejected: seq<Rejection>, p: Page, q: Page)
    requires UniqueIds(pages) && IsSelection(reading, pages, budgetLimited, locale, selected, rejected)
    requires p in selected && q in selected
    requires reading.identity(p) == reading.identity(q) || GroupKey(reading, locale, p) == GroupKey(reading, locale, q)
    ensures p == q
  {
    CandidateOrder(reading, p, q, p);
    assert GroupWinner(reading, locale, pages, p) && GroupWinner(reading, locale, pages, q);
    hide CandidateBefore, LocaleOf, InPageOrder;
  }

  // ------------------------------------------------------- where duplicates go

  /** A page that is not the best of its kind has a best one before it. */
  lemma {:induction false} BestIdentity(reading: Reading, locale: string, pages: set<Page>, among: set<Page>, p: Page) returns (w: Page)
    requires among <= pages && p in among && forall q :: q in among ==> Candidate(reading, locale, pages, q) && reading.identity(q) == reading.identity(p)
    ensures w in among && (w == p || CandidateBefore(reading, w, p))
    ensures forall q :: q in among ==> !CandidateBefore(reading, q, w)
    decreases |among|
  {
    hide CandidateBefore, Candidate;
    if q :| q in among && CandidateBefore(reading, q, p) {
      CandidateOrder(reading, q, p, q);
      w := BestIdentity(reading, locale, pages, among - {p}, q);
      CandidateOrder(reading, w, q, p);
      CandidateOrder(reading, p, w, p);
    } else {
      w := p;
    }
  }

  lemma {:induction false} BestOfGroup(reading: Reading, locale: string, pages: set<Page>, among: set<Page>, p: Page) returns (w: Page)
    requires among <= pages && p in among
    requires forall q :: q in among ==> IdentityWinner(reading, locale, pages, q) && GroupKey(reading, locale, q) == GroupKey(reading, locale, p)
    ensures w in among && (w == p || CandidateBefore(reading, w, p))
    ensures forall q :: q in among ==> !CandidateBefore(reading, q, w)
    decreases |among|
  {
    hide CandidateBefore, IdentityWinner;
    if q :| q in among && CandidateBefore(reading, q, p) {
      CandidateOrder(reading, q, p, q);
      w := BestOfGroup(reading, locale, pages, among - {p}, q);
      CandidateOrder(reading, w, q, p);
      CandidateOrder(reading, p, w, p);
    } else {
      w := p;
    }
  }

  lemma FindIdentityWinner(reading: Reading, locale: string, pages: set<Page>, p: Page) returns (w: Page)
    requires Candidate(reading, locale, pages, p)
    ensures IdentityWinner(reading, locale, pages, w) && reading.identity(w) == reading.identity(p)
    ensures w == p || CandidateBefore(reading, w, p)
  {
    var among := set q | q in pages && Candidate(reading, locale, pages, q) && reading.identity(q) == reading.identity(p);
    w := BestIdentity(reading, locale, pages, among, p);
    hide CandidateBefore;
  }

  lemma FindGroupWinner(reading: Reading, locale: string, pages: set<Page>, p: Page) returns (w: Page)
    requires IdentityWinner(reading, locale, pages, p)
    ensures GroupWinner(reading, locale, pages, w) && GroupKey(reading, locale, w) == GroupKey(reading, locale, p)
    ensures w == p || CandidateBefore(reading, w, p)
  {
    var among := set q | q in pages && IdentityWinner(reading, locale, pages, q) && GroupKey(reading, locale, q) == GroupKey(reading, locale, p);
    w := BestOfGroup(reading, locale, pages, among, p);
    hide CandidateBefore;
    assert forall q :: IdentityWinner(reading, locale, pages, q) ==> q in pages;
  }

  /**
   * Unless the budget cut a page off, every candidate that is left out gives
   * way to a better page of its identity, and that one to a selected page of
   * its group.
   */
  lemma DuplicatesTrace(reading: Reading, pages: set<Page>, locale: string, selected: seq<Page>, rejected: seq<Rejection>, p: Page)
    returns (winner: Page, kept: Page)
    requires IsSelection(reading, pages, false, locale, selected, rejected)
    requires p in pages && Verdict(reading, locale, p) == None
    ensures reading.identity(winner) == reading.identity(p) && (winner == p || CandidateBefore(reading, winner, p))
    ensures kept in selected && GroupKey(reading, locale, kept) == GroupKey(reading, locale, winner)
    ensures kept == winner || CandidateBefore(reading, kept, winner)
    ensures p !in selected ==> kept != p
  {
    winner := FindIdentityWinner(reading, locale, pages, p);
    kept := FindGroupWinner(reading, locale, pages, winner);
    hide CandidateBefore, InPageOrder, LocaleOf;
    assert kept in pages;
  }
}
