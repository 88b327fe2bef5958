/**
 * The fixed catalog of insurance bundles shown by the Bundle Explorer, with
 * the option lists of its toolbar. Presentation-only fields (icon and accent
 * colours) are not part of the record.
 */
module Catalog {
  import opened Wrappers
  import opened Seqs

  /** The four performance metrics of a bundle, each between 0 and 100. */
  datatype Stats = Stats(protection: int, affordability: int, flexibility: int, comprehensiveness: int)

  /** One row of a bundle's feature list (`label` in the source). */
  datatype Feature = Feature(name: string, included: bool)

  datatype Bundle = Bundle(
    id: string,
    code: string,
    name: string,
    category: string,
    premium: string,
    premiumVal: int,
    matchScore: int,
    riskLevel: string,
    coverage: string,
    deductible: string,
    tagline: string,
    stats: Stats,
    features: seq<Feature>,
    badge: Option<string>)

  /** The category pills, "All" first. */
  const Categories: seq<string> := ["All", "Health", "Family", "Premium", "Auto", "Home", "Rental"]

  /** The entries of the sort drop-down. */
  const SortOptions: seq<string> := ["Match Score", "Lowest Premium", "Coverage Amount", "Comprehensiveness"]

  function HealthFeatures(dental: bool, vision: bool, mental: bool, international: bool): seq<Feature> {
    [ Feature("GP & Specialist Visits", true),
      Feature("Emergency Hospitalisation", true),
      Feature("Prescription Drugs", true),
      Feature("Mental Health Support", mental),
      Feature("Dental Coverage", dental),
      Feature("Vision Care", vision),
      Feature("International Coverage", international) ]
  }

  const BasicHealth := Bundle(
    "basic_health", "BH-001", "Basic Health", "Health", "$89/mo", 89, 72, "Low",
    "$250,000", "$2,500", "Essential medical protection at accessible rates.",
    Stats(55, 92, 48, 40), HealthFeatures(false, false, false, false), None)

  const HealthDentalVision := Bundle(
    "health_dental_vision", "HDV-002", "Health + Dental + Vision", "Health", "$154/mo", 154, 88, "Low",
    "$400,000", "$1,500", "Complete everyday health — body, teeth, and eyes.",
    Stats(72, 70, 65, 74), HealthFeatures(true, true, true, false), Some("POPULAR"))

  const FamilyComprehensive := Bundle(
    "family_comprehensive", "FC-003", "Family Comprehensive", "Family", "$298/mo", 298, 61, "Medium",
    "$800,000", "$1,000", "Broad household protection that scales with your family.",
    Stats(85, 45, 80, 88), HealthFeatures(true, true, true, true), None)

  const PremiumHealthLife := Bundle(
    "premium_health_life", "PHL-004", "Premium Health & Life", "Premium", "$421/mo", 421, 94, "Low",
    "$2,000,000", "$500", "Private care, life insurance, and critical illness — all in one.",
    Stats(98, 28, 90, 97), HealthFeatures(true, true, true, true), Some("BEST MATCH"))

  function AutoFeatures(collision: bool, theft: bool, replacement: bool): seq<Feature> {
    [ Feature("Third-Party Liability", true),
      Feature("Legal Cost Coverage", true),
      Feature("Roadside Assistance", true),
      Feature("Collision Damage", collision),
      Feature("Theft Protection", theft),
      Feature("Replacement Vehicle", replacement),
      Feature("Natural Disaster Cover", false) ]
  }

  const AutoLiability := Bundle(
    "auto_liability", "AL-005", "Auto Liability Basic", "Auto", "$67/mo", 67, 45, "Low",
    "$100,000", "$500", "Legal road coverage — compliant, simple, affordable.",
    Stats(38, 97, 35, 30), AutoFeatures(false, false, false), None)

  const AutoComprehensive := Bundle(
    "auto_comprehensive", "AC-006", "Auto Comprehensive", "Auto", "$189/mo", 189, 58, "Medium",
    "$500,000", "$250", "Full vehicle protection — from fender-benders to total loss.",
    Stats(90, 55, 62, 85), AutoFeatures(true, true, true), None)

  function HomeFeatures(extras: bool): seq<Feature> {
    [ Feature("Building Cover", true),
      Feature("Contents Cover", true),
      Feature("Fire & Storm Damage", true),
      Feature("Public Liability", true),
      Feature("Accidental Damage", extras),
      Feature("High-Value Items", extras),
      Feature("Worldwide Possessions", extras) ]
  }

  const HomeStandard := Bundle(
    "home_standard", "HS-007", "Home Standard", "Home", "$112/mo", 112, 39, "Low",
    "$350,000", "$1,000", "Dependable structure and contents coverage for homeowners.",
    Stats(65, 78, 55, 60), HomeFeatures(false), None)

  const HomePremium := Bundle(
    "home_premium", "HP-008", "Home Premium", "Home", "$234/mo", 234, 52, "Low",
    "$1,200,000", "$500", "Premium home coverage — nothing left unprotected.",
    Stats(92, 38, 85, 93), HomeFeatures(true), None)

  function RentalFeatures(extras: bool): seq<Feature> {
    [ Feature("Personal Contents", true),
      Feature("Liability Protection", true),
      Feature("Temporary Accommodation", true),
      Feature("Electronics Cover", extras),
      Feature("Accidental Damage", extras),
      Feature("High-Value Jewellery", extras),
      Feature("Worldwide Possessions", false) ]
  }

  const RentersBasic := Bundle(
    "renter_basic", "RB-009", "Renter's Basic", "Rental", "$29/mo", 29, 33, "Low",
    "$25,000", "$250", "Smart, affordable protection for renters on the move.",
    Stats(32, 99, 40, 28), RentalFeatures(false), None)

  const RentersPremium := Bundle(
    "renter_premium", "RP-010", "Renter's Premium", "Rental", "$79/mo", 79, 41, "Low",
    "$80,000", "$150", "Premium renter's coverage for those with valuable belongings.",
    Stats(68, 88, 72, 65), RentalFeatures(true), None)

  /** `BUNDLES`, in source order. */
  const Bundles: seq<Bundle> := [
    BasicHealth, HealthDentalVision, FamilyComprehensive, PremiumHealthLife, AutoLiability,
    AutoComprehensive, HomeStandard, HomePremium, RentersBasic, RentersPremium ]

  /** The identifiers of the catalog entries. */
  function CatalogIds(): (ids: set<string>)
    ensures forall b :: b in Bundles ==> b.id in ids
    ensures forall id :: id in ids ==> exists b :: b in Bundles && b.id == id
  {
    set b | b in Bundles :: b.id
  }

  /** No two catalog entries share an identifier. */
  lemma CatalogIdsUnique()
    ensures |Bundles| == 10
    ensures forall i, j :: 0 <= i < j < |Bundles| ==> Bundles[i].id != Bundles[j].id
  {
  }

  /** Hence no catalog entry is listed twice. */
  lemma CatalogDistinct()
    ensures Distinct(Bundles)
    ensures forall b :: multiset(Bundles)[b] == if b in Bundles then 1 else 0
  {
    CatalogIdsUnique();
    DistinctCountsAtMostOne(Bundles);
  }

  /** The positions of the two entries the catalog-wide facts below single out. */
  lemma CatalogEntries()
    ensures |Bundles| == 10
    ensures Bundles[3] == PremiumHealthLife && Bundles[8] == RentersBasic
  {
  }

  /** "premium_health_life" identifies Premium Health & Life and no other entry. */
  lemma PremiumHealthLifeId()
    ensures PremiumHealthLife in Bundles
    ensures forall b :: b in Bundles && b.id == "premium_health_life" ==> b == PremiumHealthLife
  {
    CatalogIdsUnique();
    CatalogEntries();
    forall b | b in Bundles && b.id == "premium_health_life" ensures b == PremiumHealthLife {
      var i :| 0 <= i < |Bundles| && Bundles[i] == b;
      assert Bundles[i].id == Bundles[3].id;
    }
  }

  /** Renter's Basic ($29) is the cheapest entry and Premium Health & Life ($421) the dearest. */
  lemma PremiumExtremes()
    ensures forall i :: 0 <= i < |Bundles| && i != 8 ==> Bundles[8].premiumVal < Bundles[i].premiumVal
    ensures forall i :: 0 <= i < |Bundles| && i != 3 ==> Bundles[i].premiumVal < Bundles[3].premiumVal
  {
  }

  /** Premium Health & Life has the highest match score (94) and Renter's Basic the lowest (33). */
  lemma MatchScoreExtremes()
    ensures forall i :: 0 <= i < |Bundles| && i != 3 ==> Bundles[i].matchScore < Bundles[3].matchScore
    ensures forall i :: 0 <= i < |Bundles| && i != 8 ==> Bundles[8].matchScore < Bundles[i].matchScore
  {
  }

  /** Premium Health & Life is the most comprehensive entry (97) and Renter's Basic the least (28). */
  lemma ComprehensivenessExtremes()
    ensures forall i :: 0 <= i < |Bundles| && i != 3 ==>
      Bundles[i].stats.comprehensiveness < Bundles[3].stats.comprehensiveness
    ensures forall i :: 0 <= i < |Bundles| && i != 8 ==>
      Bundles[8].stats.comprehensiveness < Bundles[i].stats.comprehensiveness
  {
  }

  /** Premium Health & Life is the only entry in the "Premium" category. */
  lemma PremiumCategoryEntry()
    ensures forall i :: 0 <= i < |Bundles| ==> (Bundles[i].category == "Premium" <==> i == 3)
  {
  }

  predicate IsDigit(c: char) {
    '0' <= c <= '9'
  }

  /**
   * The value of the digits `d` read left to right after the digits already
   * read, whose value is `acc`; `DecimalValue(d, 0)` is the value of `d`.
   */
  function DecimalValue(d: string, acc: nat): nat
    requires forall i :: 0 <= i < |d| ==> IsDigit(d[i])
    decreases |d|
  {
    if |d| == 0 then acc
    else
      assert IsDigit(d[0]);
      DecimalValue(d[1..], acc * 10 + (d[0] as int - '0' as int))
  }

  /** The digit characters of `s`, in order, with every other character deleted. */
  function DigitsOf(s: string): (d: string)
    ensures forall i :: 0 <= i < |d| ==> IsDigit(d[i])
    ensures |d| <= |s|
    decreases |s|
  {
    if |s| == 0 then [] else (if IsDigit(s[0]) then [s[0]] else []) + DigitsOf(s[1..])
  }

  /**
   * The coverage as the sort reads it: the number formed by the digit
   * characters of the coverage text ("$2,000,000" reads as 2000000).
   */
  function CoverageAmount(b: Bundle): nat {
    DecimalValue(DigitsOf(b.coverage), 0)
  }

  /**
   * Deleting the non-digits is filtering by `IsDigit`: every digit is kept,
   * each as often as it occurs and in its order, and nothing else is.
   */
  lemma {:induction false} DigitsOfIsFilter(s: string)
    ensures DigitsOf(s) == Filter(s, IsDigit)
    ensures SubsequenceOf(DigitsOf(s), s)
    ensures forall c :: multiset(DigitsOf(s))[c] == if IsDigit(c) then multiset(s)[c] else 0
    decreases |s|
  {
    if |s| > 0 {
      DigitsOfIsFilter(s[1..]);
      if !IsDigit(s[0]) {
        assert DigitsOf(s) == DigitsOf(s[1..]);
      }
    }
    FilterIsSubsequence(s, IsDigit);
  }

  /** The digits of a concatenation are the digits of each part, in order. */
  lemma {:induction false} DigitsOfConcat(a: string, b: string)
    ensures DigitsOf(a + b) == DigitsOf(a) + DigitsOf(b)
    decreases |a|
  {
    if |a| > 0 {
      var head := if IsDigit(a[0]) then [a[0]] else [];
      assert (a + b)[0] == a[0] && (a + b)[1..] == a[1..] + b;
      DigitsOfConcat(a[1..], b);
      calc {
        DigitsOf(a + b);
        head + DigitsOf(a[1..] + b);
        head + (DigitsOf(a[1..]) + DigitsOf(b));
        (head + DigitsOf(a[1..])) + DigitsOf(b);
        DigitsOf(a) + DigitsOf(b);
      }
    } else {
      assert a + b == b;
    }
  }

  /** The digits of "$2,000,000" are "2000000". */
  lemma DigitsOfTwoMillion()
    ensures DigitsOf("$2,000,000") == "2000000"
  {
    var thousands := ",000";
    assert DigitsOf(thousands) == "000";
    assert DigitsOf("$2") == "2";
    DigitsOfConcat("$2", thousands);
    DigitsOfConcat("$2" + thousands, thousands);
    assert DigitsOf("$2" + thousands + thousands) == "2" + "000" + "000";
    assert "2" + "000" + "000" == "2000000";
    assert "$2,000,000" == "$2" + thousands + thousands;
  }

  /** Premium Health & Life's "$2,000,000" reads as 2000000. */
  lemma CoverageReading()
    ensures CoverageAmount(PremiumHealthLife) == 2000000
  {
    DigitsOfTwoMillion();
    assert DecimalValue("2000000", 0) == 2000000;
  }
}
