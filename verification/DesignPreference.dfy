/** Which of the pages of one kind is kept, and why the others are not. */
module DesignPreference {
  import opened Common
  import opened DesignSelection

  /** Success, redirection, client error, server error, anything else. */
  function StatusClass(status: int): int {
    if 200 <= status < 600 then status / 100 else 6
  }

  /**
   * What makes a candidate the better one: no query before a query, its own
   * canonical before another's, then the class of its status, the shorter URL,
   * the URL's place in the collation, and its identifier.
   */
  predicate Better(reading: Reading, a: Page, b: Page) {
    var u, v := reading.normalize(a.address), reading.normalize(b.address);
    if reading.hadQuery(a) != reading.hadQuery(b) then reading.hadQuery(b)
    else if reading.selfCanonical(a) != reading.selfCanonical(b) then reading.selfCanonical(a)
    else if StatusClass(a.statusCode) != StatusClass(b.statusCode) then StatusClass(a.statusCode) < StatusClass(b.statusCode)
    else if |u| != |v| then |u| < |v|
    else if reading.rank(u) != reading.rank(v) then reading.rank(u) < reading.rank(v)
    else a.id < b.id
  }

  lemma BetterIsBefore(reading: Reading, a: Page, b: Page)
    ensures CandidateBefore(reading, a, b) <==> Better(reading, a, b)
  {
    var s, t := CandidateKey(reading, a), CandidateKey(reading, b);
    assert StatusRank(a.statusCode) < StatusRank(b.statusCode) <==> StatusClass(a.statusCode) < StatusClass(b.statusCode);
    assert StatusRank(a.statusCode) == StatusRank(b.statusCode) <==> StatusClass(a.statusCode) == StatusClass(b.statusCode);
    FirstDifference(s, t);
  }

  /** Comparing two keys of six entries, entry by entry. */
  lemma FirstDifference(s: seq<int>, t: seq<int>)
    requires |s| == |t| == 6
    ensures KeyBefore(s, t) <==>
      if s[0] != t[0] then s[0] < t[0] else if s[1] != t[1] then s[1] < t[1] else if s[2] != t[2] then s[2] < t[2]
      else if s[3] != t[3] then s[3] < t[3] else if s[4] != t[4] then s[4] < t[4] else s[5] < t[5]
  {
    var s1, t1 := s[1..], t[1..];
    var s2, t2 := s1[1..], t1[1..];
    var s3, t3 := s2[1..], t2[1..];
    var s4, t4 := s3[1..], t3[1..];
    var s5, t5 := s4[1..], t4[1..];
    assert KeyBefore(s5, t5) <==> s[5] < t[5];
    assert KeyBefore(s4, t4) <==> s[4] < t[4] || (s[4] == t[4] && KeyBefore(s5, t5));
    assert KeyBefore(s3, t3) <==> s[3] < t[3] || (s[3] == t[3] && KeyBefore(s4, t4));
    assert KeyBefore(s2, t2) <==> s[2] < t[2] || (s[2] == t[2] && KeyBefore(s3, t3));
    assert KeyBefore(s1, t1) <==> s[1] < t[1] || (s[1] == t[1] && KeyBefore(s2, t2));
  }

  // ------------------------------------------------------------ candidates

  predicate Reachable(p: Page) {
    400 <= p.statusCode < 600 || (p.fetch != Failure && p.statusCode != 0)
  }

  predicate OtherLocale(reading: Reading, locale: string, p: Page) {
    locale != "und" && reading.pageLocale(p) != "und" && reading.pageLocale(p) != locale
  }

  /** An HTML page of the site that was fetched, is allowed, and is not of another locale. */
  predicate Usable(reading: Reading, locale: string, p: Page) {
    && reading.parses(p.address) && reading.sameOrigin(p.address) && reading.isHtml(p)
    && p.fetch != Warning && Reachable(p) && !reading.blocked(p.address) && !OtherLocale(reading, locale, p)
  }

  lemma UsableIsCandidate(reading: Reading, locale: string, p: Page)
    ensures Verdict(reading, locale, p) == None <==> Usable(reading, locale, p)
  {}

  /** The page is better than every other usable page of its identity. */
  ghost predicate BestOfIdentity(reading: Reading, locale: string, pages: set<Page>, p: Page) {
    && p in pages && Usable(reading, locale, p)
    && forall q :: q in pages && q != p && Usable(reading, locale, q) && reading.identity(q) == reading.identity(p) ==> Better(reading, p, q)
  }

  /** It is that, and better than every other such page of its role, template and layout. */
  ghost predicate BestOfGroup(reading: Reading, locale: string, pages: set<Page>, p: Page) {
    && BestOfIdentity(reading, locale, pages, p)
    && forall q :: q != p && BestOfIdentity(reading, locale, pages, q)
         && reading.role(q) == reading.role(p) && reading.template(q, locale) == reading.template(p, locale) && reading.hint(q) == reading.hint(p)
         ==> Better(reading, p, q)
  }

  lemma Comparable(reading: Reading, pages: set<Page>, p: Page, q: Page)
    requires UniqueIds(pages) && p in pages && q in pages && p != q
    ensures Better(reading, p, q) <==> !CandidateBefore(reading, q, p)
  {
    hide CandidateBefore, Better;
    BetterIsBefore(reading, p, q);
    CandidateOrder(reading, p, q, p);
  }

  lemma BestIsWinner(reading: Reading, locale: string, pages: set<Page>, p: Page)
    requires UniqueIds(pages)
    ensures BestOfIdentity(reading, locale, pages, p) <==> IdentityWinner(reading, locale, pages, p)
  {
    hide CandidateBefore, Better, Usable, Verdict, UniqueIds;
    forall q ensures Usable(reading, locale, q) <==> Verdict(reading, locale, q) == None { UsableIsCandidate(reading, locale, q); }
    CandidateOrder(reading, p, p, p);
    if p in pages {
      forall q | q in pages && q != p ensures Better(reading, p, q) <==> !CandidateBefore(reading, q, p) { Comparable(reading, pages, p, q); }
    }
  }

  lemma BestIsGroupWinner(reading: Reading, locale: string, pages: set<Page>, p: Page)
    requires UniqueIds(pages)
    ensures BestOfGroup(reading, locale, pages, p) <==> GroupWinner(reading, locale, pages, p)
  {
    forall q ensures BestOfIdentity(reading, locale, pages, q) <==> IdentityWinner(reading, locale, pages, q) { BestIsWinner(reading, locale, pages, q); }
    forall q ensures BestOfIdentity(reading, locale, pages, q) ==> q in pages {}
    hide CandidateBefore, Better, BestOfIdentity, IdentityWinner, UniqueIds;
    CandidateOrder(reading, p, p, p);
    if p in pages {
      forall q | q in pages && q != p ensures Better(reading, p, q) <==> !CandidateBefore(reading, q, p) { Comparable(reading, pages, p, q); }
    }
  }

  // -------------------------------------------------------------- theorems

  /** With a limited budget, the last page in page order is cut off. */
  ghost predicate CutOff(reading: Reading, pages: set<Page>, budgetLimited: bool, p: Page) {
    budgetLimited && |pages| > 1 && p in pages && forall q :: q in pages ==> !PageBefore(reading, p, q)
  }

  /** A page is selected exactly if it is the best of its identity and of its group, and is not cut off. */
  lemma SelectedExactly(reading: Reading, pages: set<Page>, budgetLimited: bool, locale: string, selected: seq<Page>, rejected: seq<Rejection>, p: Page)
    requires UniqueIds(pages) && IsSelection(reading, pages, budgetLimited, locale, selected, rejected)
    ensures p in selected <==> BestOfGroup(reading, locale, pages, p) && !CutOff(reading, pages, budgetLimited, p)
  {
    BestIsGroupWinner(reading, locale, pages, p);
    hide BestOfGroup, CandidateBefore, LocaleOf, InPageOrder;
  }

  /** Of two usable pages with one identity the one that is not the better is not selected. */
  lemma WorseIsLeftOut(reading: Reading, pages: set<Page>, budgetLimited: bool, locale: string, selected: seq<Page>, rejected: seq<Rejection>, a: Page, b: Page)
    requires UniqueIds(pages) && IsSelection(reading, pages, budgetLimited, locale, selected, rejected)
    requires a in pages && b in pages && Usable(reading, locale, a) && Usable(reading, locale, b)
    requires reading.identity(a) == reading.identity(b) && Better(reading, a, b)
    ensures b !in selected
    ensures CutOff(reading, pages, budgetLimited, b)
      || Rejection(b, if reading.hasCanonical(b) then CanonicalDuplicate else QueryVariant) in rejected
  {
    UsableIsCandidate(reading, locale, b);
    BestIsWinner(reading, locale, pages, b);
    NotBoth(reading, a, b);
    assert !BestOfIdentity(reading, locale, pages, b) by { hide Better, Usable; }
    SelectedExactly(reading, pages, budgetLimited, locale, selected, rejected, b);
    hide CandidateBefore, IdentityWinner, BestOfIdentity, Verdict, LocaleOf, InPageOrder, Better, Usable;
  }

  lemma NotBoth(reading: Reading, a: Page, b: Page)
    requires Better(reading, a, b)
    ensures a != b && !Better(reading, b, a)
  {}

  /** What the reason of a rejection says of its page. */
  ghost predicate Holds(reading: Reading, pages: set<Page>, budgetLimited: bool, locale: string, p: Page, reason: Reason) {
    match reason
    case HttpFailure => !reading.parses(p.address) || (reading.sameOrigin(p.address) && reading.isHtml(p) && !Reachable(p))
    case ExternalOrigin => reading.parses(p.address) && !reading.sameOrigin(p.address)
    case NonHtml => reading.parses(p.address) && reading.sameOrigin(p.address) && !reading.isHtml(p)
    case PolicyBlocked =>
      reading.parses(p.address) && reading.sameOrigin(p.address) && reading.isHtml(p)
      && (p.fetch == Warning || (Reachable(p) && reading.blocked(p.address)))
    case AlternateLocale => OtherLocale(reading, locale, p)
    case CanonicalDuplicate => Usable(reading, locale, p) && !BestOfIdentity(reading, locale, pages, p) && reading.hasCanonical(p)
    case QueryVariant => Usable(reading, locale, p) && !BestOfIdentity(reading, locale, pages, p) && !reading.hasCanonical(p)
    case TemplateDuplicate => BestOfIdentity(reading, locale, pages, p) && !BestOfGroup(reading, locale, pages, p)
    case BudgetLimited => CutOff(reading, pages, budgetLimited, p)
  }

  /** Every rejection gives a reason that is true of its page. */
  lemma ReasonsHold(reading: Reading, pages: set<Page>, budgetLimited: bool, locale: string, selected: seq<Page>, rejected: seq<Rejection>, r: Rejection)
    requires UniqueIds(pages) && IsSelection(reading, pages, budgetLimited, locale, selected, rejected) && r in rejected
    ensures Holds(reading, pages, budgetLimited, locale, r.page, r.reason)
  {
    UsableIsCandidate(reading, locale, r.page);
    BestIsWinner(reading, locale, pages, r.page);
    BestIsGroupWinner(reading, locale, pages, r.page);
    hide CandidateBefore, IdentityWinner, GroupWinner, BestOfIdentity, BestOfGroup, Better, Usable, LocaleOf, InPageOrder;
  }
}
