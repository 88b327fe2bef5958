/**
 * The Bundle Explorer's `filtered` list: the catalog filtered by category,
 * then by a case-insensitive search over name and category, then ordered by
 * the selected sort key with `Array.prototype.sort` (a stable sort).
 */
module Pipeline {
  import opened Seqs
  import opened Sorting
  import opened Text
  import opened Catalog

  /** The category pill: "All" keeps everything, any other value keeps exact matches. */
  predicate PassesCategory(b: Bundle, category: string) {
    category == "All" || b.category == category
  }

  /** The search box: the lower-cased query occurs in the lower-cased name or category. */
  predicate PassesSearch(b: Bundle, search: string) {
    Contains(Lower(b.name), Lower(search)) || Contains(Lower(b.category), Lower(search))
  }

  /** An empty query keeps every bundle. */
  lemma EmptySearchKeepsAll(b: Bundle)
    ensures PassesSearch(b, "")
  {
    assert Lower("") == "";
  }

  /** The sort drop-down's value, as the comparator's `if` chain tells it apart. */
  datatype SortKey = ByMatchScore | ByLowestPremium | ByCoverageAmount | ByComprehensiveness | Unordered

  function KeyOf(sort: string): (k: SortKey)
    ensures k == Unordered <==> sort !in SortOptions
  {
    if sort == "Match Score" then ByMatchScore
    else if sort == "Lowest Premium" then ByLowestPremium
    else if sort == "Coverage Amount" then ByCoverageAmount
    else if sort == "Comprehensiveness" then ByComprehensiveness
    else Unordered
  }

  /** The comparator handed to `sort`: negative puts `a` first, positive puts `b` first. */
  function Compare(key: SortKey, a: Bundle, b: Bundle): int {
    match key
    case ByMatchScore => b.matchScore - a.matchScore
    case ByLowestPremium => a.premiumVal - b.premiumVal
    case ByCoverageAmount => CoverageAmount(b) - CoverageAmount(a)
    case ByComprehensiveness => b.stats.comprehensiveness - a.stats.comprehensiveness
    case Unordered => 0
  }

  /** The quantity the comparator orders by, ascending. */
  function Rank(key: SortKey, b: Bundle): int {
    match key
    case ByMatchScore => -b.matchScore
    case ByLowestPremium => b.premiumVal
    case ByCoverageAmount => -(CoverageAmount(b) as int)
    case ByComprehensiveness => -b.stats.comprehensiveness
    case Unordered => 0
  }

  /** The comparator is a difference of ranks, so it is a consistent total preorder. */
  lemma CompareIsRankDifference(key: SortKey, a: Bundle, b: Bundle)
    ensures Compare(key, a, b) == Rank(key, a) - Rank(key, b)
  {
  }

  /** The comparator's rank as a function of the bundle. */
  function RankOf(key: SortKey): Bundle -> int {
    (b: Bundle) => Rank(key, b)
  }

  /** Ascending by rank: no pair is out of order for the comparator. */
  ghost predicate SortedBy(r: seq<Bundle>, key: SortKey) {
    SortedOn(r, RankOf(key))
  }

  /**
   * `Array.prototype.sort` with `Compare`. The comparator is a difference of
   * ranks, so placing a bundle before the first one it does not compare
   * after is placing it by rank.
   */
  function SortBundles(s: seq<Bundle>, key: SortKey): (r: seq<Bundle>)
    ensures multiset(r) == multiset(s)
    ensures SortedBy(r, key)
  {
    Sort(s, RankOf(key))
  }

  /** A key outside the four options makes the comparator return 0, and the order is kept. */
  lemma UnknownSortKeepsOrder(s: seq<Bundle>)
    ensures SortBundles(s, Unordered) == s
  {
    UniformRankKeepsOrder(s, RankOf(Unordered), 0);
  }

  /** The two filters of `filtered`, before sorting: every copy of a passing bundle is kept. */
  function Matching(catalog: seq<Bundle>, category: string, search: string): (r: seq<Bundle>)
    ensures forall b ::
      multiset(r)[b] == if PassesCategory(b, category) && PassesSearch(b, search) then multiset(catalog)[b] else 0
  {
    Filter(Filter(catalog, b => PassesCategory(b, category)), b => PassesSearch(b, search))
  }

  /** The filtered bundles come in catalog order. */
  lemma MatchingInCatalogOrder(catalog: seq<Bundle>, category: string, search: string)
    ensures SubsequenceOf(Matching(catalog, category, search), catalog)
  {
    var p := (b: Bundle) => PassesCategory(b, category);
    var q := (b: Bundle) => PassesSearch(b, search);
    FilterIsSubsequence(catalog, p);
    FilterIsSubsequence(Filter(catalog, p), q);
    SubsequenceTransitive(Filter(Filter(catalog, p), q), Filter(catalog, p), catalog);
  }

  /** Filtering a list whose every entry already matches, by the same category and query, changes nothing. */
  lemma MatchingIdempotent(catalog: seq<Bundle>, category: string, search: string)
    ensures Matching(Matching(catalog, category, search), category, search) == Matching(catalog, category, search)
  {
    var m := Matching(catalog, category, search);
    var p := (b: Bundle) => PassesCategory(b, category);
    var q := (b: Bundle) => PassesSearch(b, search);
    forall b | b in m ensures p(b) && q(b) {
      assert multiset(m)[b] > 0;
    }
    FilterKeepsAll(m, p);
    FilterKeepsAll(m, q);
  }

  /**
   * `filtered` over a catalog (the component passes `Bundles`): the entries
   * that pass both filters, in ascending rank for the sort key.
   */
  function Filtered(catalog: seq<Bundle>, category: string, search: string, sort: string): (r: seq<Bundle>)
    ensures forall b ::
      multiset(r)[b] == if PassesCategory(b, category) && PassesSearch(b, search) then multiset(catalog)[b] else 0
    ensures SortedBy(r, KeyOf(sort))
  {
    SortBundles(Matching(catalog, category, search), KeyOf(sort))
  }

  /** A bundle is listed exactly when it is in the catalog and passes both filters. */
  lemma FilteredMembership(catalog: seq<Bundle>, category: string, search: string, sort: string)
    ensures forall b :: b in Filtered(catalog, category, search, sort) <==>
      b in catalog && PassesCategory(b, category) && PassesSearch(b, search)
  {
    var r := Filtered(catalog, category, search, sort);
    forall b ensures b in r <==> multiset(r)[b] > 0 {
    }
  }

  /** Over a catalog without repetitions, the filtered list has none either. */
  lemma FilteredDistinct(catalog: seq<Bundle>, category: string, search: string, sort: string)
    requires Distinct(catalog)
    ensures Distinct(Filtered(catalog, category, search, sort))
  {
    DistinctCountsAtMostOne(catalog);
    CountsAtMostOneDistinct(Filtered(catalog, category, search, sort));
  }

  /** The filtered list is never longer than the catalog. */
  lemma FilteredSize(catalog: seq<Bundle>, category: string, search: string, sort: string)
    ensures |Filtered(catalog, category, search, sort)| <= |catalog|
  {
    var r := Filtered(catalog, category, search, sort);
    assert multiset(r) <= multiset(catalog);
    assert |r| == |multiset(r)| <= |multiset(catalog)| == |catalog|;
  }

  /** What each of the four sort options orders the list by. */
  lemma SortOptionMeaning(r: seq<Bundle>, sort: string)
    requires SortedBy(r, KeyOf(sort))
    ensures sort == "Match Score" ==> forall i, j :: 0 <= i < j < |r| ==> r[i].matchScore >= r[j].matchScore
    ensures sort == "Lowest Premium" ==> forall i, j :: 0 <= i < j < |r| ==> r[i].premiumVal <= r[j].premiumVal
    ensures sort == "Coverage Amount" ==> forall i, j :: 0 <= i < j < |r| ==> CoverageAmount(r[i]) >= CoverageAmount(r[j])
    ensures sort == "Comprehensiveness" ==>
      forall i, j :: 0 <= i < j < |r| ==> r[i].stats.comprehensiveness >= r[j].stats.comprehensiveness
  {
  }

  /** Under a key outside the options the filtered list keeps catalog order. */
  lemma UnknownSortShowsCatalogOrder(catalog: seq<Bundle>, category: string, search: string, sort: string)
    requires sort !in SortOptions
    ensures Filtered(catalog, category, search, sort) == Matching(catalog, category, search)
    ensures SubsequenceOf(Filtered(catalog, category, search, sort), catalog)
  {
    UnknownSortKeepsOrder(Matching(catalog, category, search));
    MatchingInCatalogOrder(catalog, category, search);
  }

  /** Category "All" with an empty query shows every catalog entry. */
  lemma AllEmptyShowsCatalog(catalog: seq<Bundle>, sort: string)
    ensures multiset(Filtered(catalog, "All", "", sort)) == multiset(catalog)
    ensures |Filtered(catalog, "All", "", sort)| == |catalog|
  {
    var r := Filtered(catalog, "All", "", sort);
    forall b ensures multiset(r)[b] == multiset(catalog)[b] {
      EmptySearchKeepsAll(b);
    }
    assert multiset(r) == multiset(catalog);
    assert |r| == |multiset(r)| == |multiset(catalog)| == |catalog|;
  }

  /**
   * A sorted arrangement of a catalog starts with its entry of strictly least
   * rank and ends with its entry of strictly greatest rank.
   */
  lemma EndsOfSortedCatalog(r: seq<Bundle>, catalog: seq<Bundle>, key: SortKey, first: nat, last: nat)
    requires multiset(r) == multiset(catalog) && SortedBy(r, key)
    requires first < |catalog| && forall i :: 0 <= i < |catalog| && i != first ==> Rank(key, catalog[first]) < Rank(key, catalog[i])
    requires last < |catalog| && forall i :: 0 <= i < |catalog| && i != last ==> Rank(key, catalog[i]) < Rank(key, catalog[last])
    ensures |r| > 0 && r[0] == catalog[first] && r[|r| - 1] == catalog[last]
  {
    assert catalog[first] in multiset(r);
    var k :| 0 <= k < |r| && r[k] == catalog[first];
    assert r[0] in multiset(catalog);
    var i :| 0 <= i < |catalog| && catalog[i] == r[0];
    assert catalog[last] in multiset(r);
    var m :| 0 <= m < |r| && r[m] == catalog[last];
    assert r[|r| - 1] in multiset(catalog);
    var j :| 0 <= j < |catalog| && catalog[j] == r[|r| - 1];
  }

  /** A list holding one copy of `m` and nothing else is `[m]`. */
  lemma OnlyElement(r: seq<Bundle>, m: Bundle)
    requires forall b :: multiset(r)[b] == if b == m then 1 else 0
    ensures r == [m]
  {
    assert multiset(r) == multiset{m};
    assert |r| == |multiset(r)| == 1;
    assert r[0] in multiset(r);
  }

  /** The catalog entries in the "Premium" category are Premium Health & Life alone. */
  lemma PremiumCategoryMembers(b: Bundle)
    ensures b in Bundles && b.category == "Premium" <==> b == PremiumHealthLife
  {
    CatalogEntries();
    if b in Bundles {
      PremiumCategoryEntry();
      var i :| 0 <= i < |Bundles| && Bundles[i] == b;
      assert b.category == "Premium" <==> i == 3;
    }
  }

  /** When a single catalog entry passes both filters, it is all that is shown. */
  lemma SingleMatch(catalog: seq<Bundle>, category: string, search: string, sort: string, m: Bundle)
    requires Distinct(catalog)
    requires forall b :: b in catalog && PassesCategory(b, category) && PassesSearch(b, search) <==> b == m
    ensures Filtered(catalog, category, search, sort) == [m]
  {
    DistinctCountsAtMostOne(catalog);
    var r := Filtered(catalog, category, search, sort);
    forall b ensures multiset(r)[b] == if b == m then 1 else 0 {
      if b == m {
        assert multiset(catalog)[b] == 1 by {
          assert b in catalog;
        }
      }
    }
    OnlyElement(r, m);
  }

  /** The "Premium" pill shows exactly one bundle, Premium Health & Life. */
  lemma PremiumCategoryIsOneBundle(sort: string)
    ensures Filtered(Bundles, "Premium", "", sort) == [PremiumHealthLife]
  {
    forall b ensures b in Bundles && PassesCategory(b, "Premium") && PassesSearch(b, "") <==> b == PremiumHealthLife {
      EmptySearchKeepsAll(b);
      PremiumCategoryMembers(b);
      assert PassesCategory(b, "Premium") <==> b.category == "Premium";
    }
    CatalogDistinct();
    SingleMatch(Bundles, "Premium", "", sort, PremiumHealthLife);
  }

  /**
   * With every bundle shown, a sort whose key ranks entry `first` strictly
   * lowest and entry `last` strictly highest puts them at the two ends.
   */
  lemma SortEnds(catalog: seq<Bundle>, sort: string, first: nat, last: nat)
    requires first < |catalog| && forall i :: 0 <= i < |catalog| && i != first ==>
      Rank(KeyOf(sort), catalog[first]) < Rank(KeyOf(sort), catalog[i])
    requires last < |catalog| && forall i :: 0 <= i < |catalog| && i != last ==>
      Rank(KeyOf(sort), catalog[i]) < Rank(KeyOf(sort), catalog[last])
    ensures var r := Filtered(catalog, "All", "", sort);
      |r| == |catalog| && r[0] == catalog[first] && r[|r| - 1] == catalog[last]
  {
    AllEmptyShowsCatalog(catalog, sort);
    EndsOfSortedCatalog(Filtered(catalog, "All", "", sort), catalog, KeyOf(sort), first, last);
  }

  /** "Lowest Premium": Renter's Basic ($29) first, Premium Health & Life ($421) last. */
  lemma LowestPremiumEnds()
    ensures var r := Filtered(Bundles, "All", "", "Lowest Premium");
      |r| == 10 && r[0] == RentersBasic && r[9] == PremiumHealthLife
  {
    assert KeyOf("Lowest Premium") == ByLowestPremium;
    PremiumExtremes();
    SortEnds(Bundles, "Lowest Premium", 8, 3);
    CatalogEntries();
  }

  /** "Match Score", the initial sort: Premium Health & Life (94) first, Renter's Basic (33) last. */
  lemma MatchScoreEnds()
    ensures var r := Filtered(Bundles, "All", "", "Match Score");
      |r| == 10 && r[0] == PremiumHealthLife && r[9] == RentersBasic
  {
    assert KeyOf("Match Score") == ByMatchScore;
    MatchScoreExtremes();
    SortEnds(Bundles, "Match Score", 3, 8);
    CatalogEntries();
  }

  /** "Comprehensiveness": Premium Health & Life (97) first, Renter's Basic (28) last. */
  lemma ComprehensivenessEnds()
    ensures var r := Filtered(Bundles, "All", "", "Comprehensiveness");
      |r| == 10 && r[0] == PremiumHealthLife && r[9] == RentersBasic
  {
    assert KeyOf("Comprehensiveness") == ByComprehensiveness;
    ComprehensivenessExtremes();
    SortEnds(Bundles, "Comprehensiveness", 3, 8);
    CatalogEntries();
  }
}
