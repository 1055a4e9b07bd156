/**
 * The rule catalog page: the tag of each distance rule, the bonus rules
 * grouped by category in order of first appearance, and the points label of
 * each bonus rule.
 */
module PointsPage {
  import opened Wrappers
  import opened PointsConfig
  import Numbers
  import Text
  import Seqs
  import PointsEngine

  // ---------------------------------------------------------------- distance tag

  /** The tag of a distance rule: "Punkt" for exactly one point per km, "Punkte" otherwise. */
  function DistanceTag(rule: DistanceRule): string {
    Numbers.NumberText(rule.pointsPerKm) + " Punkt" + (if rule.pointsPerKm == 1.0 then "" else "e") + " pro km"
  }

  predicate EndsWith(s: string, suffix: string) {
    |suffix| <= |s| && s[|s| - |suffix|..] == suffix
  }

  /** The plural appears exactly when the rate is not one point per km. */
  lemma DistanceTagPlural(rule: DistanceRule)
    ensures EndsWith(DistanceTag(rule), "Punkte pro km") <==> rule.pointsPerKm != 1.0
    ensures EndsWith(DistanceTag(rule), " Punkt pro km") <==> rule.pointsPerKm == 1.0
  {
    var n := Numbers.NumberText(rule.pointsPerKm);
    TagEndings(n);
    if rule.pointsPerKm == 1.0 {
      SuffixOfTwo(n, " Punkt pro km", "Punkte pro km");
    } else {
      SuffixOfTwo(n + " ", "Punkte pro km", " Punkt pro km");
    }
  }

  /** The two ways a tag can end, after the rendered rate. */
  lemma TagEndings(n: string)
    ensures n + " Punkt" + "" + " pro km" == n + " Punkt pro km"
    ensures n + " Punkt" + "e" + " pro km" == (n + " ") + "Punkte pro km"
    ensures |" Punkt pro km"| == |"Punkte pro km"| && " Punkt pro km"[0] != "Punkte pro km"[0]
  {
    assert n + " Punkt" + "e" + " pro km" == n + " Punkte pro km";
  }

  /** A text ends with its own tail and not with another of the same length that starts differently. */
  lemma SuffixOfTwo(p: string, tail: string, other: string)
    requires |tail| == |other| > 0 && tail[0] != other[0]
    ensures EndsWith(p + tail, tail) && !EndsWith(p + tail, other)
  {
    assert (p + tail)[|p|..] == tail;
  }

  /** The catalog's four tags. */
  lemma CatalogDistanceTags()
    ensures DistanceTag(DISTANCE_RULES[0]) == "1 Punkt pro km"
    ensures DistanceTag(DISTANCE_RULES[1]) == "2 Punkte pro km"
    ensures DistanceTag(DISTANCE_RULES[2]) == "1 Punkt pro km"
    ensures DistanceTag(DISTANCE_RULES[3]) == "3 Punkte pro km"
  {
    DistanceCatalogRates();
    Text.SmallNatTexts();
    WholeRateTag(DISTANCE_RULES[0], 1);
    WholeRateTag(DISTANCE_RULES[1], 2);
    WholeRateTag(DISTANCE_RULES[2], 1);
    WholeRateTag(DISTANCE_RULES[3], 3);
  }

  /** A whole rate shows its digits, with "Punkt" for exactly one. */
  lemma WholeRateTag(rule: DistanceRule, n: nat)
    requires rule.pointsPerKm == n as real
    ensures DistanceTag(rule) == Text.NatText(n) + (if n == 1 then " Punkt" else " Punkte") + " pro km"
  {
    Numbers.NumberTextOfInt(n);
  }

  // ---------------------------------------------------------------- points label

  function PerKmPart(rate: real): string {
    Numbers.NumberText(rate) + " Punkte pro km"
  }

  function PerOccurrencePart(rate: real, unitLabel: string): string {
    Numbers.NumberText(rate) + " Punkte pro " + unitLabel
  }

  /**
   * What a bonus rule's label says: a flat number as "<n> Punkte"; a structured
   * rate as its per-km part, its per-occurrence part, or both separated by
   * " • ", leaving out a part that is absent or 0.
   */
  function PointsLabelOf(rule: BonusRule): string {
    match rule.points
    case Flat(n) => Numbers.NumberText(n) + " Punkte"
    case Rate(perKm, perOccurrence) =>
      var km, occ := PointsEngine.Truthy(perKm), PointsEngine.Truthy(perOccurrence);
      if km && occ then PerKmPart(perKm.value) + " • " + PerOccurrencePart(perOccurrence.value, rule.unitLabel)
      else if km then PerKmPart(perKm.value)
      else if occ then PerOccurrencePart(perOccurrence.value, rule.unitLabel)
      else ""
  }

  /** `pointsLabel`: collects the parts one by one and joins them. */
  method PointsLabel(rule: BonusRule) returns (shown: string)
    ensures shown == PointsLabelOf(rule)
  {
    if rule.points.Flat? {
      shown := Numbers.NumberText(rule.points.amount) + " Punkte";
    } else {
      var parts: seq<string> := [];
      if PointsEngine.Truthy(rule.points.perKm) {
        parts := parts + [PerKmPart(rule.points.perKm.value)];
      }
      if PointsEngine.Truthy(rule.points.perOccurrence) {
        parts := parts + [PerOccurrencePart(rule.points.perOccurrence.value, rule.unitLabel)];
      }
      var km, occ := PointsEngine.Truthy(rule.points.perKm), PointsEngine.Truthy(rule.points.perOccurrence);
      if km && occ {
        Text.JoinTwo(parts[0], parts[1], " • ");
      } else if km || occ {
        Text.JoinOne(parts[0], " • ");
      }
      shown := Text.Join(parts, " • ");
    }
  }

  /** A rule with only a whole per-occurrence rate shows "<n> Punkte pro <unit>". */
  lemma OccurrenceLabel(rule: BonusRule, n: nat)
    requires rule.points == Rate(None, Some(n as real)) && n > 0
    ensures PointsLabelOf(rule) == Text.NatText(n) + " Punkte pro " + rule.unitLabel
  {
    Numbers.NumberTextOfInt(n);
  }

  /** A flat whole number of points shows as "<n> Punkte". */
  lemma FlatLabel(rule: BonusRule, n: nat)
    requires rule.points == Flat(n as real)
    ensures PointsLabelOf(rule) == Text.NatText(n) + " Punkte"
  {
    Numbers.NumberTextOfInt(n);
  }

  /** The engine rate 0.2 renders as "0.2". */
  lemma TenthLabel(rule: BonusRule)
    requires rule.points == Rate(Some(0.2), None) && rule.unitLabel == "km"
    ensures PointsLabelOf(rule) == "0.2 Punkte pro km"
  {
    Numbers.NumberTextOfTwoTenths();
  }

  /** The structured rules of the catalog show one part each. */
  lemma EngineKmLabel()
    ensures PointsLabelOf(BONUS_RULES[0]) == "0.2 Punkte pro km"
  {
    StructuredBonusShapes();
    BonusUnitLabels();
    TenthLabel(BONUS_RULES[0]);
  }

  lemma MastHandlingLabel()
    ensures PointsLabelOf(BONUS_RULES[1]) == "2 Punkte pro Vorgänge"
  {
    StructuredBonusShapes();
    BonusUnitLabels();
    Text.SmallNatTexts();
    OccurrenceLabel(BONUS_RULES[1], 2);
    MastHandlingText();
  }

  lemma MastHandlingText()
    ensures "2" + " Punkte pro " + "Vorgänge" == "2 Punkte pro Vorgänge"
  {
  }

  lemma LockLabel()
    ensures PointsLabelOf(BONUS_RULES[2]) == "4 Punkte pro Schleusen"
  {
    StructuredBonusShapes();
    BonusUnitLabels();
    Text.SmallNatTexts();
    OccurrenceLabel(BONUS_RULES[2], 4);
    LockText();
  }

  lemma LockText()
    ensures "4" + " Punkte pro " + "Schleusen" == "4 Punkte pro Schleusen"
  {
  }

  lemma LongVoyageExtraLabel()
    ensures PointsLabelOf(BONUS_RULES[4]) == "10 Punkte pro weitere 100 km"
  {
    StructuredBonusShapes();
    BonusUnitLabels();
    Text.SmallNatTexts();
    OccurrenceLabel(BONUS_RULES[4], 10);
    LongVoyageExtraText();
  }

  lemma LongVoyageExtraText()
    ensures "10" + " Punkte pro " + "weitere 100 km" == "10 Punkte pro weitere 100 km"
  {
  }

  /** The flat rules of the catalog show their points. */
  lemma CatalogFlatLabels()
    ensures PointsLabelOf(BONUS_RULES[3]) == "20 Punkte"
    ensures PointsLabelOf(BONUS_RULES[5]) == "50 Punkte"
    ensures PointsLabelOf(BONUS_RULES[6]) == "20 Punkte"
    ensures PointsLabelOf(BONUS_RULES[7]) == "25 Punkte"
    ensures PointsLabelOf(BONUS_RULES[8]) == "25 Punkte"
  {
    FlatBonusShapes();
    FlatLabel(BONUS_RULES[3], 20);
    FlatLabel(BONUS_RULES[5], 50);
    FlatLabel(BONUS_RULES[6], 20);
    FlatLabel(BONUS_RULES[7], 25);
    FlatLabel(BONUS_RULES[8], 25);
    Text.SmallNatTexts();
  }

  /** A label joins two parts exactly when both rates are set and not 0. */
  lemma LabelSeparator(rule: BonusRule)
    requires rule.points.Rate?
    ensures PointsEngine.Truthy(rule.points.perKm) && PointsEngine.Truthy(rule.points.perOccurrence) ==>
      PointsLabelOf(rule) == PerKmPart(rule.points.perKm.value) + " • " + PerOccurrencePart(rule.points.perOccurrence.value, rule.unitLabel)
    ensures !PointsEngine.Truthy(rule.points.perKm) && !PointsEngine.Truthy(rule.points.perOccurrence) ==> PointsLabelOf(rule) == ""
  {
  }

  // ---------------------------------------------------------------- category buckets

  datatype Bucket = Bucket(category: Category, rules: seq<BonusRule>)

  function RuleCategory(rule: BonusRule): Category {
    rule.category
  }

  /** The categories of the rules, each once, in order of first appearance. */
  function CategoriesInOrder(rules: seq<BonusRule>): seq<Category> {
    Seqs.Distinct(Seqs.Map(rules, RuleCategory))
  }

  /** The rules of one category, in catalog order. */
  function RulesIn(rules: seq<BonusRule>, c: Category): seq<BonusRule> {
    Seqs.Filter(rules, (r: BonusRule) => r.category == c)
  }

  /** The buckets a prefix of the rules has produced. */
  predicate GroupedSoFar(rules: seq<BonusRule>, buckets: seq<Bucket>) {
    && |buckets| == |CategoriesInOrder(rules)|
    && forall k :: 0 <= k < |buckets| ==>
         buckets[k].category == CategoriesInOrder(rules)[k] && buckets[k].rules == RulesIn(rules, buckets[k].category)
  }

  lemma CategoriesStep(rules: seq<BonusRule>, i: nat)
    requires i < |rules|
    ensures CategoriesInOrder(rules[..i + 1]) ==
      if rules[i].category in CategoriesInOrder(rules[..i]) then CategoriesInOrder(rules[..i])
      else CategoriesInOrder(rules[..i]) + [rules[i].category]
  {
    var cats := Seqs.Map(rules[..i], RuleCategory);
    assert Seqs.Map(rules[..i + 1], RuleCategory) == cats + [rules[i].category];
    Seqs.DistinctSnoc(cats, rules[i].category);
  }

  lemma RulesInStep(rules: seq<BonusRule>, i: nat, c: Category)
    requires i < |rules|
    ensures RulesIn(rules[..i + 1], c) == RulesIn(rules[..i], c) + (if rules[i].category == c then [rules[i]] else [])
  {
    assert rules[..i + 1][..i] == rules[..i];
  }

  /** A category no earlier rule has holds no earlier rule. */
  lemma RulesInAbsent(rules: seq<BonusRule>, c: Category)
    requires c !in CategoriesInOrder(rules)
    ensures RulesIn(rules, c) == []
  {
    forall j | 0 <= j < |rules| ensures rules[j].category != c {
      assert Seqs.Map(rules, RuleCategory)[j] == rules[j].category;
    }
    Seqs.FilterNone(rules, (r: BonusRule) => r.category == c);
  }

  /** `acc[rule.category] ?? []`, as a position in the buckets (-1 when absent). */
  function BucketIndex(buckets: seq<Bucket>, c: Category): (k: int)
    ensures -1 <= k < |buckets|
    ensures k >= 0 ==> buckets[k].category == c
    ensures k == -1 ==> forall j :: 0 <= j < |buckets| ==> buckets[j].category != c
  {
    Seqs.FindIndex(buckets, (b: Bucket) => b.category == c)
  }

  /** Pushing a rule into the existing bucket of its category. */
  lemma GroupIntoExisting(rules: seq<BonusRule>, i: nat, buckets: seq<Bucket>, k: nat)
    requires i < |rules| && GroupedSoFar(rules[..i], buckets)
    requires k < |buckets| && buckets[k].category == rules[i].category
    ensures GroupedSoFar(rules[..i + 1], buckets[k := Bucket(rules[i].category, buckets[k].rules + [rules[i]])])
  {
    var cats := CategoriesInOrder(rules[..i]);
    CategoriesStep(rules, i);
    assert rules[i].category in cats;
    var next := buckets[k := Bucket(rules[i].category, buckets[k].rules + [rules[i]])];
    forall j | 0 <= j < |next|
      ensures next[j].category == CategoriesInOrder(rules[..i + 1])[j]
      ensures next[j].rules == RulesIn(rules[..i + 1], next[j].category)
    {
      RulesInStep(rules, i, next[j].category);
      if j != k {
        assert cats[j] != cats[k];
      }
    }
  }

  /** Opening a bucket for a category no earlier rule had. */
  lemma GroupIntoNew(rules: seq<BonusRule>, i: nat, buckets: seq<Bucket>)
    requires i < |rules| && GroupedSoFar(rules[..i], buckets)
    requires forall j :: 0 <= j < |buckets| ==> buckets[j].category != rules[i].category
    ensures GroupedSoFar(rules[..i + 1], buckets + [Bucket(rules[i].category, [rules[i]])])
  {
    var cats := CategoriesInOrder(rules[..i]);
    CategoriesStep(rules, i);
    assert rules[i].category !in cats;
    RulesInAbsent(rules[..i], rules[i].category);
    var next := buckets + [Bucket(rules[i].category, [rules[i]])];
    forall j | 0 <= j < |next|
      ensures next[j].category == CategoriesInOrder(rules[..i + 1])[j]
      ensures next[j].rules == RulesIn(rules[..i + 1], next[j].category)
    {
      RulesInStep(rules, i, next[j].category);
    }
  }

  /**
   * The `reduce` callback: pushes rule `i` into the bucket of its category, or
   * opens a bucket for it when the category is new.
   */
  method PushRule(rules: seq<BonusRule>, i: nat, buckets: seq<Bucket>) returns (next: seq<Bucket>)
    requires i < |rules| && GroupedSoFar(rules[..i], buckets)
    ensures GroupedSoFar(rules[..i + 1], next)
  {
    var rule := rules[i];
    var k := BucketIndex(buckets, rule.category);
    if k >= 0 {
      GroupIntoExisting(rules, i, buckets, k);
      next := buckets[k := Bucket(rule.category, buckets[k].rules + [rule])];
    } else {
      GroupIntoNew(rules, i, buckets);
      next := buckets + [Bucket(rule.category, [rule])];
    }
  }

  /**
   * The `reduce` of the catalog page. The buckets come in order of first
   * appearance of their category and hold exactly the rules of that category,
   * in catalog order.
   */
  method GroupByCategory(rules: seq<BonusRule>) returns (buckets: seq<Bucket>)
    ensures |buckets| == |CategoriesInOrder(rules)|
    ensures forall k :: 0 <= k < |buckets| ==> buckets[k].category == CategoriesInOrder(rules)[k]
    ensures forall k :: 0 <= k < |buckets| ==> buckets[k].rules == RulesIn(rules, buckets[k].category)
  {
    buckets := [];
    var i := 0;
    while i < |rules|
      invariant 0 <= i <= |rules|
      invariant GroupedSoFar(rules[..i], buckets)
    {
      buckets := PushRule(rules, i, buckets);
      i := i + 1;
    }
    assert rules[..i] == rules;
  }

  /**
   * Every rule lands in the bucket of its category and in no other, and each
   * bucket keeps catalog order.
   */
  lemma BucketsPartition(rules: seq<BonusRule>)
    ensures forall j :: 0 <= j < |rules| ==> rules[j].category in CategoriesInOrder(rules)
    ensures forall c, r :: r in RulesIn(rules, c) <==> r in rules && r.category == c
    ensures forall c :: Seqs.IsSubsequence(RulesIn(rules, c), rules)
  {
    forall j | 0 <= j < |rules| ensures rules[j].category in CategoriesInOrder(rules) {
      assert Seqs.Map(rules, RuleCategory)[j] == rules[j].category;
    }
    forall c ensures (forall r :: r in RulesIn(rules, c) <==> r in rules && r.category == c)
      && Seqs.IsSubsequence(RulesIn(rules, c), rules)
    {
      Seqs.FilterMembership(rules, (r: BonusRule) => r.category == c);
      Seqs.FilterIsSubsequence(rules, (r: BonusRule) => r.category == c);
    }
  }

  lemma DistinctOfFirstRun(a: seq<Category>)
    requires |a| > 0 && forall k :: 0 <= k < |a| ==> a[k] == Operation
    ensures Seqs.Distinct(a) == [Operation]
  {
    var e: seq<Category> := [];
    assert Seqs.Distinct(e) == [];
    Seqs.DistinctAppendRun(e, a, Operation);
    assert e + a == a;
  }

  lemma DistinctOfSecondRun(a: seq<Category>, b: seq<Category>)
    requires Seqs.Distinct(a) == [Operation]
    requires |b| > 0 && forall k :: 0 <= k < |b| ==> b[k] == Voyage
    ensures Seqs.Distinct(a + b) == [Operation, Voyage]
  {
    Seqs.DistinctAppendRun(a, b, Voyage);
  }

  lemma DistinctOfThirdRun(ab: seq<Category>, c: seq<Category>)
    requires Seqs.Distinct(ab) == [Operation, Voyage]
    requires |c| > 0 && forall k :: 0 <= k < |c| ==> c[k] == Volunteering
    ensures Seqs.Distinct(ab + c) == [Operation, Voyage, Volunteering]
  {
    Seqs.DistinctAppendRun(ab, c, Volunteering);
  }

  /** Three runs of the three categories list each category once, in run order. */
  lemma DistinctOfRuns(a: seq<Category>, b: seq<Category>, c: seq<Category>)
    requires |a| > 0 && forall k :: 0 <= k < |a| ==> a[k] == Operation
    requires |b| > 0 && forall k :: 0 <= k < |b| ==> b[k] == Voyage
    requires |c| > 0 && forall k :: 0 <= k < |c| ==> c[k] == Volunteering
    ensures Seqs.Distinct(a + b + c) == [Operation, Voyage, Volunteering]
  {
    DistinctOfFirstRun(a);
    DistinctOfSecondRun(a, b);
    DistinctOfThirdRun(a + b, c);
  }

  /** The categories of three consecutive blocks of rules, one category per block. */
  lemma CategoriesOfBlocks(rules: seq<BonusRule>, i: nat, j: nat)
    requires 0 < i < j < |rules|
    requires forall k :: 0 <= k < i ==> rules[k].category == Operation
    requires forall k :: i <= k < j ==> rules[k].category == Voyage
    requires forall k :: j <= k < |rules| ==> rules[k].category == Volunteering
    ensures CategoriesInOrder(rules) == [Operation, Voyage, Volunteering]
  {
    var cats := Seqs.Map(rules, RuleCategory);
    assert cats == cats[..i] + cats[i..j] + cats[j..];
    DistinctOfRuns(cats[..i], cats[i..j], cats[j..]);
  }

  lemma RulesInConcat(a: seq<BonusRule>, b: seq<BonusRule>, c: Category)
    ensures RulesIn(a + b, c) == RulesIn(a, c) + RulesIn(b, c)
  {
    Seqs.FilterConcat(a, b, (r: BonusRule) => r.category == c);
  }

  lemma RulesInOfThree(a: seq<BonusRule>, b: seq<BonusRule>, c: seq<BonusRule>, x: Category)
    ensures RulesIn(a + b + c, x) == RulesIn(a, x) + RulesIn(b, x) + RulesIn(c, x)
  {
    RulesInConcat(a + b, c, x);
    RulesInConcat(a, b, x);
  }

  /** Rules of one category between rules of others: that category's rules are the middle block. */
  lemma RulesOfMiddle(a: seq<BonusRule>, b: seq<BonusRule>, c: seq<BonusRule>, x: Category)
    requires forall k :: 0 <= k < |a| ==> a[k].category != x
    requires forall k :: 0 <= k < |b| ==> b[k].category == x
    requires forall k :: 0 <= k < |c| ==> c[k].category != x
    ensures RulesIn(a + b + c, x) == b
  {
    RulesInOfThree(a, b, c, x);
    Seqs.FilterNone(a, (r: BonusRule) => r.category == x);
    Seqs.FilterAll(b, (r: BonusRule) => r.category == x);
    Seqs.FilterNone(c, (r: BonusRule) => r.category == x);
  }

  /** The rules of three consecutive blocks, one category per block. */
  lemma RulesOfBlocks(rules: seq<BonusRule>, i: nat, j: nat)
    requires 0 < i < j < |rules|
    requires forall k :: 0 <= k < i ==> rules[k].category == Operation
    requires forall k :: i <= k < j ==> rules[k].category == Voyage
    requires forall k :: j <= k < |rules| ==> rules[k].category == Volunteering
    ensures RulesIn(rules, Operation) == rules[..i]
    ensures RulesIn(rules, Voyage) == rules[i..j]
    ensures RulesIn(rules, Volunteering) == rules[j..]
  {
    var e: seq<BonusRule> := [];
    assert rules == e + rules[..i] + rules[i..];
    RulesOfMiddle(e, rules[..i], rules[i..], Operation);
    assert rules == rules[..i] + rules[i..j] + rules[j..];
    RulesOfMiddle(rules[..i], rules[i..j], rules[j..], Voyage);
    assert rules == rules[..j] + rules[j..] + e;
    RulesOfMiddle(rules[..j], rules[j..], e, Volunteering);
  }

  /**
   * The catalog is shown as operation (rules 1-3), voyage (rules 4-7) and
   * volunteering (rules 8-9), in that order.
   */
  lemma CatalogBuckets()
    ensures CategoriesInOrder(BONUS_RULES) == [Operation, Voyage, Volunteering]
    ensures RulesIn(BONUS_RULES, Operation) == BONUS_RULES[..3]
    ensures RulesIn(BONUS_RULES, Voyage) == BONUS_RULES[3..7]
    ensures RulesIn(BONUS_RULES, Volunteering) == BONUS_RULES[7..]
  {
    BonusCategories();
    CategoriesOfBlocks(BONUS_RULES, 3, 7);
    RulesOfBlocks(BONUS_RULES, 3, 7);
  }
}
