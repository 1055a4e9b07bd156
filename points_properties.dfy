/**
 * What the points engine promises: the order of the breakdown, when a rule
 * produces a row and what the row holds, the shape checks of the bonus rules,
 * the total as a sum of rounded rows, its monotonicity in every input, and the
 * concrete scenarios of the scoring rules.
 */
module PointsProperties {
  import opened Wrappers
  import opened PointsConfig
  import opened Numbers
  import opened PointsEngine
  import Text

  // ---------------------------------------------------------------- order

  /** Where a key stands among the rules' keys (-1 when no rule has it). */
  function IndexBy<R, K(==)>(rules: seq<R>, key: R -> K, x: K): (k: int)
    ensures -1 <= k < |rules|
    ensures k >= 0 ==> key(rules[k]) == x
    ensures k == -1 ==> forall j :: 0 <= j < |rules| ==> key(rules[j]) != x
  {
    if rules == [] then -1
    else if key(rules[|rules| - 1]) == x then |rules| - 1
    else IndexBy(rules[..|rules| - 1], key, x)
  }

  function DistanceKey(rule: DistanceRule): DistanceId {
    rule.id
  }

  function BonusKey(rule: BonusRule): BonusId {
    rule.id
  }

  /** Position of a rule in the two catalogs laid end to end. */
  function Position(dr: seq<DistanceRule>, br: seq<BonusRule>, id: RuleId): int {
    match id
    case OfDistance(x) => IndexBy(dr, DistanceKey, x)
    case OfBonus(x) => |dr| + IndexBy(br, BonusKey, x)
  }

  lemma {:induction false} DistanceRowsOrdered(rules: seq<DistanceRule>, d: DistanceValues)
    requires DistinctDistanceIds(rules)
    ensures forall k :: 0 <= k < |DistanceRows(rules, d)| ==>
      DistanceRows(rules, d)[k].id.OfDistance? && 0 <= IndexBy(rules, DistanceKey, DistanceRows(rules, d)[k].id.distance)
    ensures forall i, j :: 0 <= i < j < |DistanceRows(rules, d)| ==>
      IndexBy(rules, DistanceKey, DistanceRows(rules, d)[i].id.distance) < IndexBy(rules, DistanceKey, DistanceRows(rules, d)[j].id.distance)
  {
    if rules != [] {
      var n := |rules|;
      var p := rules[..n - 1];
      DistanceRowsOrdered(p, d);
      var front := DistanceRows(p, d);
      var rows := DistanceRows(rules, d);
      assert rows == front + DistanceRow(rules[n - 1], d);
      forall k | 0 <= k < |front|
        ensures IndexBy(rules, DistanceKey, front[k].id.distance) == IndexBy(p, DistanceKey, front[k].id.distance)
      {
        var x := front[k].id.distance;
        var q := IndexBy(p, DistanceKey, x);
        assert p[q] == rules[q];
        assert rules[q].id != rules[n - 1].id;
      }
      forall k | 0 <= k < |rows|
        ensures rows[k].id.OfDistance? && 0 <= IndexBy(rules, DistanceKey, rows[k].id.distance)
      {
        if k < |front| { assert rows[k] == front[k]; }
      }
      forall i, j | 0 <= i < j < |rows|
        ensures IndexBy(rules, DistanceKey, rows[i].id.distance) < IndexBy(rules, DistanceKey, rows[j].id.distance)
      {
        if j < |front| {
          assert rows[i] == front[i] && rows[j] == front[j];
        } else {
          assert rows[i] == front[i];
        }
      }
    }
  }

  lemma {:induction false} BonusRowsOrdered(rules: seq<BonusRule>, b: BonusValues)
    requires DistinctBonusIds(rules)
    ensures forall k :: 0 <= k < |BonusRows(rules, b)| ==>
      BonusRows(rules, b)[k].id.OfBonus? && 0 <= IndexBy(rules, BonusKey, BonusRows(rules, b)[k].id.bonus)
    ensures forall i, j :: 0 <= i < j < |BonusRows(rules, b)| ==>
      IndexBy(rules, BonusKey, BonusRows(rules, b)[i].id.bonus) < IndexBy(rules, BonusKey, BonusRows(rules, b)[j].id.bonus)
  {
    if rules != [] {
      var n := |rules|;
      var p := rules[..n - 1];
      BonusRowsOrdered(p, b);
      var front := BonusRows(p, b);
      var rows := BonusRows(rules, b);
      assert rows == front + BonusRow(rules[n - 1], b);
      forall k | 0 <= k < |front|
        ensures IndexBy(rules, BonusKey, front[k].id.bonus) == IndexBy(p, BonusKey, front[k].id.bonus)
      {
        var x := front[k].id.bonus;
        var q := IndexBy(p, BonusKey, x);
        assert p[q] == rules[q];
        assert rules[q].id != rules[n - 1].id;
      }
      forall k | 0 <= k < |rows|
        ensures rows[k].id.OfBonus? && 0 <= IndexBy(rules, BonusKey, rows[k].id.bonus)
      {
        if k < |front| { assert rows[k] == front[k]; }
      }
      forall i, j | 0 <= i < j < |rows|
        ensures IndexBy(rules, BonusKey, rows[i].id.bonus) < IndexBy(rules, BonusKey, rows[j].id.bonus)
      {
        if j < |front| {
          assert rows[i] == front[i] && rows[j] == front[j];
        } else {
          assert rows[i] == front[i];
        }
      }
    }
  }

  /**
   * The breakdown follows the catalogs: distance rows first, bonus rows after,
   * each part in catalog order, so no rule id appears twice.
   */
  lemma BreakdownInCatalogOrder(dr: seq<DistanceRule>, br: seq<BonusRule>, d: DistanceValues, b: BonusValues)
    requires DistinctDistanceIds(dr) && DistinctBonusIds(br)
    ensures var rows := Breakdown(dr, br, d, b);
      && (forall i, j :: 0 <= i < j < |rows| ==> Position(dr, br, rows[i].id) < Position(dr, br, rows[j].id))
      && (forall i, j :: 0 <= i < j < |rows| && rows[j].id.OfDistance? ==> rows[i].id.OfDistance?)
      && (forall i, j :: 0 <= i < j < |rows| ==> rows[i].id != rows[j].id)
  {
    DistancePositions(dr, br, d);
    BonusPositions(dr, br, b);
    OrderedConcat(DistanceRows(dr, d), BonusRows(br, b), (id: RuleId) => Position(dr, br, id), |dr|);
  }

  /**
   * Rows ordered by a position, all before a bound and all distance rows,
   * followed by rows ordered by it, all from the bound on and all bonus rows,
   * stay ordered: the distance rows come first.
   */
  lemma OrderedConcat(front: seq<LineItem>, back: seq<LineItem>, pos: RuleId -> int, bound: int)
    requires forall k :: 0 <= k < |front| ==> front[k].id.OfDistance? && pos(front[k].id) < bound
    requires forall k :: 0 <= k < |back| ==> back[k].id.OfBonus? && bound <= pos(back[k].id)
    requires forall i, j :: 0 <= i < j < |front| ==> pos(front[i].id) < pos(front[j].id)
    requires forall i, j :: 0 <= i < j < |back| ==> pos(back[i].id) < pos(back[j].id)
    ensures forall i, j :: 0 <= i < j < |front + back| ==> pos((front + back)[i].id) < pos((front + back)[j].id)
    ensures forall i, j :: 0 <= i < j < |front + back| && (front + back)[j].id.OfDistance? ==> (front + back)[i].id.OfDistance?
  {
    var rows := front + back;
    forall i, j | 0 <= i < j < |rows|
      ensures pos(rows[i].id) < pos(rows[j].id)
      ensures rows[j].id.OfDistance? ==> rows[i].id.OfDistance?
    {
      if j < |front| {
        assert rows[i] == front[i] && rows[j] == front[j];
      } else if i >= |front| {
        assert rows[i] == back[i - |front|] && rows[j] == back[j - |front|];
      } else {
        assert rows[i] == front[i] && rows[j] == back[j - |front|];
      }
    }
  }

  /** The distance rows stand before every bonus position, in catalog order. */
  lemma DistancePositions(dr: seq<DistanceRule>, br: seq<BonusRule>, d: DistanceValues)
    requires DistinctDistanceIds(dr)
    ensures forall k :: 0 <= k < |DistanceRows(dr, d)| ==>
      DistanceRows(dr, d)[k].id.OfDistance? && 0 <= Position(dr, br, DistanceRows(dr, d)[k].id) < |dr|
    ensures forall i, j :: 0 <= i < j < |DistanceRows(dr, d)| ==>
      Position(dr, br, DistanceRows(dr, d)[i].id) < Position(dr, br, DistanceRows(dr, d)[j].id)
  {
    DistanceRowsOrdered(dr, d);
  }

  /** The bonus rows stand after every distance position, in catalog order. */
  lemma BonusPositions(dr: seq<DistanceRule>, br: seq<BonusRule>, b: BonusValues)
    requires DistinctBonusIds(br)
    ensures forall k :: 0 <= k < |BonusRows(br, b)| ==>
      BonusRows(br, b)[k].id.OfBonus? && |dr| <= Position(dr, br, BonusRows(br, b)[k].id)
    ensures forall i, j :: 0 <= i < j < |BonusRows(br, b)| ==>
      Position(dr, br, BonusRows(br, b)[i].id) < Position(dr, br, BonusRows(br, b)[j].id)
  {
    BonusRowsOrdered(br, b);
  }

  // ---------------------------------------------------------------- rows

  /** The rows of a breakdown that carry a given rule id, in order. */
  function RowsWithId(rows: seq<LineItem>, id: RuleId): (r: seq<LineItem>)
    ensures |r| <= |rows|
    ensures forall i :: 0 <= i < |r| ==> r[i].id == id
  {
    if rows == [] then []
    else RowsWithId(rows[..|rows| - 1], id) + (if rows[|rows| - 1].id == id then [rows[|rows| - 1]] else [])
  }

  lemma {:induction false} RowsWithIdConcat(a: seq<LineItem>, b: seq<LineItem>, id: RuleId)
    ensures RowsWithId(a + b, id) == RowsWithId(a, id) + RowsWithId(b, id)
    decreases |b|
  {
    if b != [] {
      assert (a + b)[..|a + b| - 1] == a + b[..|b| - 1];
      assert (a + b)[|a + b| - 1] == b[|b| - 1];
      RowsWithIdConcat(a, b[..|b| - 1], id);
    } else {
      assert a + b == a;
    }
  }

  lemma {:induction false} RowsWithIdNone(rows: seq<LineItem>, id: RuleId)
    requires forall i :: 0 <= i < |rows| ==> rows[i].id != id
    ensures RowsWithId(rows, id) == []
  {
    if rows != [] {
      RowsWithIdNone(rows[..|rows| - 1], id);
    }
  }

  /** A rule's row, when it has one, carries the rule's id. */
  lemma DistanceRowIds(rule: DistanceRule, d: DistanceValues)
    ensures forall i :: 0 <= i < |DistanceRow(rule, d)| ==> DistanceRow(rule, d)[i].id == OfDistance(rule.id)
  {
  }

  /** Rows that do not carry an id leave the rows with that id unchanged. */
  lemma RowsWithIdAppendOthers(front: seq<LineItem>, last: seq<LineItem>, id: RuleId)
    requires forall i :: 0 <= i < |last| ==> last[i].id != id
    ensures RowsWithId(front + last, id) == RowsWithId(front, id)
  {
    RowsWithIdConcat(front, last, id);
    RowsWithIdNone(last, id);
  }

  /** Rows that all carry an id, after rows that carry none of it, are the rows with that id. */
  lemma RowsWithIdAppendOwn(front: seq<LineItem>, last: seq<LineItem>, id: RuleId)
    requires RowsWithId(front, id) == []
    requires forall i :: 0 <= i < |last| ==> last[i].id == id
    ensures RowsWithId(front + last, id) == last
  {
    RowsWithIdConcat(front, last, id);
    RowsWithIdAll(last, id);
  }

  /**
   * A catalog pass that appends each rule's rows, every row carrying its rule's
   * key, with no key twice: up to prefix `m`, the rows with rule k's key are
   * none before rule k is reached and exactly rule k's rows after.
   */
  lemma {:induction false} KeyedPrefix<R>(rules: seq<R>, rows: seq<R> -> seq<LineItem>, row: R -> seq<LineItem>,
                                          key: R -> RuleId, k: nat, m: nat)
    requires k < |rules| && m <= |rules|
    requires forall j :: 0 < j <= |rules| ==> rows(rules[..j]) == rows(rules[..j - 1]) + row(rules[j - 1])
    requires rows(rules[..0]) == []
    requires forall j, i :: 0 <= j < |rules| && 0 <= i < |row(rules[j])| ==> row(rules[j])[i].id == key(rules[j])
    requires forall i, j :: 0 <= i < j < |rules| ==> key(rules[i]) != key(rules[j])
    ensures RowsWithId(rows(rules[..m]), key(rules[k])) == if m <= k then [] else row(rules[k])
    decreases m
  {
    if m > 0 {
      KeyedPrefix(rules, rows, row, key, k, m - 1);
      var front, last := rows(rules[..m - 1]), row(rules[m - 1]);
      if m - 1 == k {
        RowsWithIdAppendOwn(front, last, key(rules[k]));
      } else {
        assert key(rules[m - 1]) != key(rules[k]);
        RowsWithIdAppendOthers(front, last, key(rules[k]));
      }
    }
  }

  /** The distance pass, seen through function values, appends one rule's rows at a time. */
  lemma DistanceSteps(rules: seq<DistanceRule>, d: DistanceValues,
                      rows: seq<DistanceRule> -> seq<LineItem>, row: DistanceRule -> seq<LineItem>)
    requires forall s :: rows(s) == DistanceRows(s, d)
    requires forall r :: row(r) == DistanceRow(r, d)
    ensures forall j :: 0 < j <= |rules| ==> rows(rules[..j]) == rows(rules[..j - 1]) + row(rules[j - 1])
  {
    forall j | 0 < j <= |rules| ensures rows(rules[..j]) == rows(rules[..j - 1]) + row(rules[j - 1]) {
      DistanceRowsStep(rules, j - 1, d);
    }
  }

  /** Every distance row, seen through function values, carries its rule's key. */
  lemma DistanceKeys(rules: seq<DistanceRule>, d: DistanceValues,
                     row: DistanceRule -> seq<LineItem>, key: DistanceRule -> RuleId)
    requires forall r :: row(r) == DistanceRow(r, d)
    requires forall r :: key(r) == OfDistance(r.id)
    ensures forall j, i :: 0 <= j < |rules| && 0 <= i < |row(rules[j])| ==> row(rules[j])[i].id == key(rules[j])
  {
    forall j, i | 0 <= j < |rules| && 0 <= i < |row(rules[j])| ensures row(rules[j])[i].id == key(rules[j]) {
      DistanceRowIds(rules[j], d);
    }
  }

  /** Among the distance rows, those carrying a rule's id are exactly that rule's own row. */
  lemma DistanceRowsOfRule(rules: seq<DistanceRule>, d: DistanceValues, k: nat)
    requires DistinctDistanceIds(rules) && k < |rules|
    ensures RowsWithId(DistanceRows(rules, d), OfDistance(rules[k].id)) == DistanceRow(rules[k], d)
  {
    var rows := (s: seq<DistanceRule>) => DistanceRows(s, d);
    var row := (r: DistanceRule) => DistanceRow(r, d);
    var key := (r: DistanceRule) => OfDistance(r.id);
    DistanceSteps(rules, d, rows, row);
    DistanceKeys(rules, d, row, key);
    KeyedPrefix(rules, rows, row, key, k, |rules|);
    assert rules[..|rules|] == rules;
  }

  /**
   * Exactly the distance rules with positive kilometres (a missing category
   * counts as 0) have a row, and exactly one: it holds the rule's title, the
   * kilometres times the rate rounded to hundredths, and the raw kilometres
   * and rate in its detail.
   */
  lemma DistanceRowPresence(rules: seq<DistanceRule>, d: DistanceValues, k: nat)
    requires DistinctDistanceIds(rules) && k < |rules|
    ensures RowsWithId(DistanceRows(rules, d), OfDistance(rules[k].id)) ==
      if Km(d, rules[k].id) > 0.0 then
        [LineItem(OfDistance(rules[k].id), rules[k].title,
                  Round2(Times(Km(d, rules[k].id), rules[k].pointsPerKm)),
                  NumberText(Km(d, rules[k].id)) + " km × " + NumberText(rules[k].pointsPerKm) + " Punkte")]
      else []
  {
    DistanceRowsOfRule(rules, d, k);
  }

  /** The row of one bonus rule, described without unfolding the rule's scoring. */
  lemma BonusRowOne(rule: BonusRule, b: BonusValues)
    ensures BonusRow(rule, b) ==
      if BonusValue(rule, b) > 0.0 then
        [LineItem(OfBonus(rule.id), rule.title, Round2(BonusValue(rule, b)),
                  BonusDetail(rule.id, b, ConfiguredRate(rule.points, ExpectedShape(rule.id)).value))]
      else []
  {
  }

  /** A rule's row, when it has one, carries the rule's id. */
  lemma BonusRowIds(rule: BonusRule, b: BonusValues)
    ensures forall i :: 0 <= i < |BonusRow(rule, b)| ==> BonusRow(rule, b)[i].id == OfBonus(rule.id)
  {
    BonusRowOne(rule, b);
  }

  lemma {:induction false} RowsWithIdAll(rows: seq<LineItem>, id: RuleId)
    requires forall i :: 0 <= i < |rows| ==> rows[i].id == id
    ensures RowsWithId(rows, id) == rows
  {
    if rows != [] {
      RowsWithIdAll(rows[..|rows| - 1], id);
    }
  }

  /** The bonus pass, seen through function values, appends one rule's rows at a time. */
  lemma BonusSteps(rules: seq<BonusRule>, b: BonusValues,
                   rows: seq<BonusRule> -> seq<LineItem>, row: BonusRule -> seq<LineItem>)
    requires forall s :: rows(s) == BonusRows(s, b)
    requires forall r :: row(r) == BonusRow(r, b)
    ensures forall j :: 0 < j <= |rules| ==> rows(rules[..j]) == rows(rules[..j - 1]) + row(rules[j - 1])
  {
    forall j | 0 < j <= |rules| ensures rows(rules[..j]) == rows(rules[..j - 1]) + row(rules[j - 1]) {
      BonusRowsStep(rules, j - 1, b);
    }
  }

  /** Every bonus row, seen through function values, carries its rule's key. */
  lemma BonusKeys(rules: seq<BonusRule>, b: BonusValues,
                  row: BonusRule -> seq<LineItem>, key: BonusRule -> RuleId)
    requires forall r :: row(r) == BonusRow(r, b)
    requires forall r :: key(r) == OfBonus(r.id)
    ensures forall j, i :: 0 <= j < |rules| && 0 <= i < |row(rules[j])| ==> row(rules[j])[i].id == key(rules[j])
  {
    forall j, i | 0 <= j < |rules| && 0 <= i < |row(rules[j])| ensures row(rules[j])[i].id == key(rules[j]) {
      BonusRowIds(rules[j], b);
    }
  }

  /** Among the bonus rows, those carrying a rule's id are exactly that rule's own row. */
  lemma BonusRowsOfRule(rules: seq<BonusRule>, b: BonusValues, k: nat)
    requires DistinctBonusIds(rules) && k < |rules|
    ensures RowsWithId(BonusRows(rules, b), OfBonus(rules[k].id)) == BonusRow(rules[k], b)
  {
    var rows := (s: seq<BonusRule>) => BonusRows(s, b);
    var row := (r: BonusRule) => BonusRow(r, b);
    var key := (r: BonusRule) => OfBonus(r.id);
    BonusSteps(rules, b, rows, row);
    BonusKeys(rules, b, row, key);
    KeyedPrefix(rules, rows, row, key, k, |rules|);
    assert rules[..|rules|] == rules;
  }

  /**
   * Exactly the bonus rules whose computed value is positive have a row, and
   * exactly one: it holds the rule's title, the value rounded to hundredths,
   * and the detail text of the rule's id.
   */
  lemma BonusRowPresence(rules: seq<BonusRule>, b: BonusValues, k: nat)
    requires DistinctBonusIds(rules) && k < |rules|
    ensures RowsWithId(BonusRows(rules, b), OfBonus(rules[k].id)) ==
      if BonusValue(rules[k], b) > 0.0 then
        [LineItem(OfBonus(rules[k].id), rules[k].title, Round2(BonusValue(rules[k], b)),
                  BonusDetail(rules[k].id, b, ConfiguredRate(rules[k].points, ExpectedShape(rules[k].id)).value))]
      else []
  {
    BonusRowsOfRule(rules, b, k);
    BonusRowOne(rules[k], b);
  }

  /**
   * engineKm is rounded when its value is computed and again when its row is
   * pushed; because rounding is idempotent the row holds `round2(km × perKm)`.
   */
  lemma EngineKmRow(rule: BonusRule, b: BonusValues)
    requires rule.id == EngineKm && rule.points.Rate? && Truthy(rule.points.perKm)
    ensures var v := Round2(Times(b.engineKm, rule.points.perKm.value));
      BonusRow(rule, b) ==
        if b.engineKm > 0.0 && v > 0.0 then
          [LineItem(OfBonus(EngineKm), rule.title, v,
                    NumberText(b.engineKm) + " km × " + NumberText(rule.points.perKm.value) + " Punkte")]
        else []
  {
    Round2Idempotent(Times(b.engineKm, rule.points.perKm.value));
  }

  /**
   * A bonus rule whose points lack the shape its id is scored with yields no
   * row: engineKm needs a truthy perKm, mastHandling, lock and longVoyageExtra
   * a truthy perOccurrence (absent or 0 both fail), the others a flat number.
   */
  lemma ShapeMismatchNoRow(rule: BonusRule, b: BonusValues)
    requires
      || (rule.id == EngineKm && !(rule.points.Rate? && Truthy(rule.points.perKm)))
      || ((rule.id == MastHandling || rule.id == Lock || rule.id == LongVoyageExtra)
          && !(rule.points.Rate? && Truthy(rule.points.perOccurrence)))
      || ((rule.id == LongVoyageBase || rule.id == TrailerTransport || rule.id == CommunityEvent
           || rule.id == YouthTraining || rule.id == RegattaDuty) && !rule.points.Flat?)
    ensures BonusRow(rule, b) == []
  {
  }

  /** longVoyageBase contributes its flat points, detailed "Langtörn über 200 km", iff the flag is set. */
  lemma LongVoyageBaseRow(rule: BonusRule, b: BonusValues)
    requires rule.id == LongVoyageBase && rule.points.Flat?
    ensures BonusRow(rule, b) ==
      if b.longVoyageBase && rule.points.amount > 0.0 then
        [LineItem(OfBonus(LongVoyageBase), rule.title, Round2(rule.points.amount), "Langtörn über 200 km")]
      else []
  {
  }

  /** With the catalog's 20 points the row is exactly 20 points when the flag is set, and absent otherwise. */
  lemma CatalogLongVoyageBaseRow(b: BonusValues)
    ensures BonusRow(BONUS_RULES[3], b) ==
      if b.longVoyageBase then [LineItem(OfBonus(LongVoyageBase), "Langer Törn (200 km)", 20.0, "Langtörn über 200 km")]
      else []
  {
    LongVoyageBaseRow(BONUS_RULES[3], b);
    IntIsCents(20);
    Round2OfCents(20.0);
  }

  /** Every rule of the catalog has the points shape the engine's dispatch expects for its id. */
  lemma CatalogMatchesDispatch()
    ensures forall k :: 0 <= k < |BONUS_RULES| ==> ConfiguredRate(BONUS_RULES[k].points, ExpectedShape(BONUS_RULES[k].id)).Some?
  {
    BonusCatalogIds();
  }

  // ---------------------------------------------------------------- total

  lemma {:induction false} TotalOfConcat(a: seq<LineItem>, b: seq<LineItem>)
    ensures TotalPoints(a + b) == TotalPoints(a) + TotalPoints(b)
    decreases |b|
  {
    if b != [] {
      assert (a + b)[..|a + b| - 1] == a + b[..|b| - 1];
      assert (a + b)[|a + b| - 1] == b[|b| - 1];
      TotalOfConcat(a, b[..|b| - 1]);
    } else {
      assert a + b == a;
    }
  }

  lemma {:induction false} TotalOfCents(items: seq<LineItem>)
    requires forall i :: 0 <= i < |items| ==> IsCents(items[i].points)
    ensures IsCents(TotalPoints(items))
  {
    if items == [] {
      IntIsCents(0);
    } else {
      TotalOfCents(items[..|items| - 1]);
      CentsSum(TotalPoints(items[..|items| - 1]), items[|items| - 1].points);
    }
  }

  lemma {:induction false} DistanceRowsCents(rules: seq<DistanceRule>, d: DistanceValues)
    ensures forall i :: 0 <= i < |DistanceRows(rules, d)| ==> IsCents(DistanceRows(rules, d)[i].points)
  {
    if rules != [] {
      DistanceRowsCents(rules[..|rules| - 1], d);
    }
  }

  lemma {:induction false} BonusRowsCents(rules: seq<BonusRule>, b: BonusValues)
    ensures forall i :: 0 <= i < |BonusRows(rules, b)| ==> IsCents(BonusRows(rules, b)[i].points)
  {
    if rules != [] {
      BonusRowsCents(rules[..|rules| - 1], b);
    }
  }

  /**
   * The total is the plain sum of the displayed (rounded) rows, so it is itself
   * a whole number of hundredths: the shown total never disagrees with the rows.
   */
  lemma TotalIsSumOfRows(dr: seq<DistanceRule>, br: seq<BonusRule>, d: DistanceValues, b: BonusValues)
    ensures TotalPoints(Breakdown(dr, br, d, b)) == TotalPoints(DistanceRows(dr, d)) + TotalPoints(BonusRows(br, b))
    ensures IsCents(TotalPoints(Breakdown(dr, br, d, b)))
  {
    var front, back := DistanceRows(dr, d), BonusRows(br, b);
    TotalOfConcat(front, back);
    DistanceTotalCents(dr, d);
    BonusTotalCents(br, b);
    CentsOfSum(TotalPoints(front + back), TotalPoints(front), TotalPoints(back));
  }

  lemma CentsOfSum(t: real, x: real, y: real)
    requires t == x + y && IsCents(x) && IsCents(y)
    ensures IsCents(t)
  {
    CentsSum(x, y);
  }

  lemma DistanceTotalCents(dr: seq<DistanceRule>, d: DistanceValues)
    ensures IsCents(TotalPoints(DistanceRows(dr, d)))
  {
    DistanceRowsCents(dr, d);
    TotalOfCents(DistanceRows(dr, d));
  }

  lemma BonusTotalCents(br: seq<BonusRule>, b: BonusValues)
    ensures IsCents(TotalPoints(BonusRows(br, b)))
  {
    BonusRowsCents(br, b);
    TotalOfCents(BonusRows(br, b));
  }

  // ---------------------------------------------------------------- defaults

  lemma {:induction false} NoDistanceRows(rules: seq<DistanceRule>, d: DistanceValues)
    requires forall id :: Km(d, id) <= 0.0
    ensures DistanceRows(rules, d) == []
  {
    if rules != [] {
      NoDistanceRows(rules[..|rules| - 1], d);
    }
  }

  lemma {:induction false} NoBonusRows(rules: seq<BonusRule>, b: BonusValues)
    requires forall id :: Amount(id, b) <= 0.0
    ensures BonusRows(rules, b) == []
  {
    if rules != [] {
      NoBonusRows(rules[..|rules| - 1], b);
    }
  }

  /** With the form's starting values (all km 0, all counters 0, flag off) the breakdown is empty and the total 0. */
  lemma InitialInputsScoreNothing(dr: seq<DistanceRule>, br: seq<BonusRule>)
    ensures Breakdown(dr, br, CreateInitialDistances(dr), INITIAL_BONUS_VALUES) == []
    ensures TotalPoints(Breakdown(dr, br, CreateInitialDistances(dr), INITIAL_BONUS_VALUES)) == 0.0
  {
    NoDistanceRows(dr, CreateInitialDistances(dr));
    NoBonusRows(br, INITIAL_BONUS_VALUES);
  }

  // ---------------------------------------------------------------- monotonicity

  /** Every input of the second trip is at least that of the first. */
  predicate InputsGrow(d1: DistanceValues, b1: BonusValues, d2: DistanceValues, b2: BonusValues) {
    && (forall id :: Km(d1, id) <= Km(d2, id))
    && b1.engineKm <= b2.engineKm
    && b1.mastHandling <= b2.mastHandling
    && b1.lockCount <= b2.lockCount
    && (b1.longVoyageBase ==> b2.longVoyageBase)
    && b1.longVoyageExtraHundreds <= b2.longVoyageExtraHundreds
    && b1.trailerTransports <= b2.trailerTransports
    && b1.communityDays <= b2.communityDays
    && b1.youthTrainingSessions <= b2.youthTrainingSessions
    && b1.regattaDutyDays <= b2.regattaDutyDays
  }

  lemma DistanceRowGrows(rule: DistanceRule, d1: DistanceValues, d2: DistanceValues)
    requires rule.pointsPerKm >= 0.0 && Km(d1, rule.id) <= Km(d2, rule.id)
    ensures TotalPoints(DistanceRow(rule, d1)) <= TotalPoints(DistanceRow(rule, d2))
  {
    var k1, k2, r := Km(d1, rule.id), Km(d2, rule.id), rule.pointsPerKm;
    if k1 > 0.0 {
      TimesMonotone(k1, k2, r);
      Round2Monotone(Times(k1, r), Times(k2, r));
    } else if k2 > 0.0 {
      TimesMonotone(0.0, k2, r);
      Round2NonNegative(Times(k2, r));
    }
  }

  /** What a row of value `v` adds to the total. */
  function RowPoints(v: real): real {
    if v > 0.0 then Round2(v) else 0.0
  }

  lemma RowPointsGrow(v1: real, v2: real)
    requires v1 <= v2
    ensures RowPoints(v1) <= RowPoints(v2)
  {
    if v1 > 0.0 {
      Round2Monotone(v1, v2);
    } else if v2 > 0.0 {
      Round2NonNegative(v2);
    }
  }

  /** A bonus value grows with its amount when the rate is positive. */
  lemma BonusValueGrows(rule: BonusRule, b1: BonusValues, b2: BonusValues, rate: real)
    requires ConfiguredRate(rule.points, ExpectedShape(rule.id)) == Some(rate) && rate > 0.0
    requires Amount(rule.id, b1) <= Amount(rule.id, b2)
    ensures BonusValue(rule, b1) <= BonusValue(rule, b2)
  {
    var a1, a2 := Amount(rule.id, b1), Amount(rule.id, b2);
    if a1 > 0.0 {
      TimesMonotone(a1, a2, rate);
      Round2Monotone(Times(a1, rate), Times(a2, rate));
    } else if a2 > 0.0 {
      TimesMonotone(0.0, a2, rate);
      Round2NonNegative(Times(a2, rate));
    }
  }

  /** With a negative rate no amount earns anything. */
  lemma BonusValueNonPositive(rule: BonusRule, b: BonusValues, rate: real)
    requires ConfiguredRate(rule.points, ExpectedShape(rule.id)) == Some(rate) && rate <= 0.0
    ensures BonusValue(rule, b) <= 0.0
  {
    var a := Amount(rule.id, b);
    if a > 0.0 {
      TimesNonPositive(a, rate);
      Round2Monotone(Times(a, rate), 0.0);
      Round2OfCents(0.0);
      IntIsCents(0);
    }
  }

  lemma BonusRowGrows(rule: BonusRule, b1: BonusValues, b2: BonusValues)
    requires Amount(rule.id, b1) <= Amount(rule.id, b2)
    ensures TotalPoints(BonusRow(rule, b1)) <= TotalPoints(BonusRow(rule, b2))
  {
    BonusRowOne(rule, b1);
    BonusRowOne(rule, b2);
    match ConfiguredRate(rule.points, ExpectedShape(rule.id))
    case None =>
    case Some(rate) =>
      if rate <= 0.0 {
        BonusValueNonPositive(rule, b1, rate);
        BonusValueNonPositive(rule, b2, rate);
      } else {
        BonusValueGrows(rule, b1, b2, rate);
        RowPointsGrow(BonusValue(rule, b1), BonusValue(rule, b2));
      }
  }

  lemma {:induction false} DistanceRowsGrow(rules: seq<DistanceRule>, d1: DistanceValues, d2: DistanceValues)
    requires forall rule :: rule in rules ==> rule.pointsPerKm >= 0.0
    requires forall id :: Km(d1, id) <= Km(d2, id)
    ensures TotalPoints(DistanceRows(rules, d1)) <= TotalPoints(DistanceRows(rules, d2))
  {
    if rules != [] {
      var p, last := rules[..|rules| - 1], rules[|rules| - 1];
      DistanceRowsGrow(p, d1, d2);
      DistanceRowGrows(last, d1, d2);
      TotalOfConcat(DistanceRows(p, d1), DistanceRow(last, d1));
      TotalOfConcat(DistanceRows(p, d2), DistanceRow(last, d2));
    }
  }

  lemma {:induction false} BonusRowsGrow(rules: seq<BonusRule>, b1: BonusValues, b2: BonusValues)
    requires forall id :: Amount(id, b1) <= Amount(id, b2)
    ensures TotalPoints(BonusRows(rules, b1)) <= TotalPoints(BonusRows(rules, b2))
  {
    if rules != [] {
      var p, last := rules[..|rules| - 1], rules[|rules| - 1];
      BonusRowsGrow(p, b1, b2);
      BonusRowGrows(last, b1, b2);
      TotalOfConcat(BonusRows(p, b1), BonusRow(last, b1));
      TotalOfConcat(BonusRows(p, b2), BonusRow(last, b2));
    }
  }

  /**
   * Raising any input (kilometres, a counter, or setting the flag) never lowers
   * the total, for any bonus catalog and any distance catalog whose rates are
   * not negative.
   */
  lemma TotalMonotone(dr: seq<DistanceRule>, br: seq<BonusRule>,
                      d1: DistanceValues, b1: BonusValues, d2: DistanceValues, b2: BonusValues)
    requires forall rule :: rule in dr ==> rule.pointsPerKm >= 0.0
    requires InputsGrow(d1, b1, d2, b2)
    ensures TotalPoints(Breakdown(dr, br, d1, b1)) <= TotalPoints(Breakdown(dr, br, d2, b2))
  {
    DistanceRowsGrow(dr, d1, d2);
    forall id ensures Amount(id, b1) <= Amount(id, b2) {
    }
    BonusRowsGrow(br, b1, b2);
    TotalOfConcat(DistanceRows(dr, d1), BonusRows(br, b1));
    TotalOfConcat(DistanceRows(dr, d2), BonusRows(br, b2));
  }

  // ---------------------------------------------------------------- scenarios

  /** A pass that appends one rule's rows at a time, over four rules, is the four rows in order. */
  lemma FourSteps<R>(rules: seq<R>, rows: seq<R> -> seq<LineItem>, row: R -> seq<LineItem>)
    requires |rules| == 4 && rows(rules[..0]) == []
    requires forall j :: 0 < j <= |rules| ==> rows(rules[..j]) == rows(rules[..j - 1]) + row(rules[j - 1])
    ensures rows(rules) == row(rules[0]) + row(rules[1]) + row(rules[2]) + row(rules[3])
  {
    assert rules[..4] == rules;
    SnocFour(rows(rules[..0]), rows(rules[..1]), rows(rules[..2]), rows(rules[..3]), rows(rules[..4]),
             row(rules[0]), row(rules[1]), row(rules[2]), row(rules[3]));
  }

  /** The distance pass over a catalog of four rules, one rule after the other. */
  lemma FourDistanceRows(R: seq<DistanceRule>, d: DistanceValues)
    requires |R| == 4
    ensures DistanceRows(R, d) == DistanceRow(R[0], d) + DistanceRow(R[1], d) + DistanceRow(R[2], d) + DistanceRow(R[3], d)
  {
    var rows := (s: seq<DistanceRule>) => DistanceRows(s, d);
    var row := (r: DistanceRule) => DistanceRow(r, d);
    DistanceSteps(R, d, rows, row);
    assert R[..0] == [];
    FourSteps(R, rows, row);
  }

  lemma SnocFour(a0: seq<LineItem>, a1: seq<LineItem>, a2: seq<LineItem>, a3: seq<LineItem>, a4: seq<LineItem>,
                 r0: seq<LineItem>, r1: seq<LineItem>, r2: seq<LineItem>, r3: seq<LineItem>)
    requires a0 == [] && a1 == a0 + r0 && a2 == a1 + r1 && a3 == a2 + r2 && a4 == a3 + r3
    ensures a4 == r0 + r1 + r2 + r3
  {
  }

  lemma SnocThree(a0: seq<LineItem>, a1: seq<LineItem>, a2: seq<LineItem>, a3: seq<LineItem>,
                  r0: seq<LineItem>, r1: seq<LineItem>, r2: seq<LineItem>)
    requires a1 == a0 + r0 && a2 == a1 + r1 && a3 == a2 + r2
    ensures a3 == a0 + (r0 + r1 + r2)
  {
  }

  /** Three more rules of a bonus pass. */
  lemma BonusRowsThree(R: seq<BonusRule>, i: nat, b: BonusValues)
    requires i + 3 <= |R|
    ensures BonusRows(R[..i + 3], b) == BonusRows(R[..i], b) + (BonusRow(R[i], b) + BonusRow(R[i + 1], b) + BonusRow(R[i + 2], b))
  {
    BonusRowsStep(R, i, b);
    BonusRowsStep(R, i + 1, b);
    BonusRowsStep(R, i + 2, b);
    SnocThree(BonusRows(R[..i], b), BonusRows(R[..i + 1], b), BonusRows(R[..i + 2], b), BonusRows(R[..i + 3], b),
              BonusRow(R[i], b), BonusRow(R[i + 1], b), BonusRow(R[i + 2], b));
  }

  /** The bonus pass over a catalog of nine rules, three rules at a time. */
  lemma NineBonusRows(R: seq<BonusRule>, b: BonusValues, x: seq<LineItem>, y: seq<LineItem>, z: seq<LineItem>)
    requires |R| == 9
    requires x == BonusRow(R[0], b) + BonusRow(R[1], b) + BonusRow(R[2], b)
    requires y == BonusRow(R[3], b) + BonusRow(R[4], b) + BonusRow(R[5], b)
    requires z == BonusRow(R[6], b) + BonusRow(R[7], b) + BonusRow(R[8], b)
    ensures BonusRows(R, b) == x + y + z
  {
    BonusRowsThree(R, 0, b);
    BonusRowsThree(R, 3, b);
    BonusRowsThree(R, 6, b);
    assert BonusRows(R[..0], b) + x == x by { assert R[..0] == []; }
    assert R[..9] == R;
  }

  /** A whole number of kilometres at a whole rate: the product, with both numbers in the detail. */
  lemma WholeKmRow(rule: DistanceRule, d: DistanceValues, km: nat, rate: nat)
    requires km > 0 && Km(d, rule.id) == km as real && rule.pointsPerKm == rate as real
    ensures DistanceRow(rule, d) ==
      [LineItem(OfDistance(rule.id), rule.title, (km * rate) as real,
                Text.NatText(km) + " km × " + Text.NatText(rate) + " Punkte")]
  {
    assert Times(km as real, rate as real) == (km * rate) as real;
    IntIsCents(km * rate);
    Round2OfCents((km * rate) as real);
    NumberTextOfInt(km);
    NumberTextOfInt(rate);
  }

  /** An inland distance of 12 km at 1 point per km: 12 points, detailed "12 km × 1 Punkte". */
  lemma InlandTwelveKm()
    ensures DistanceRow(DISTANCE_RULES[0], map[Inland := 12.0]) ==
      [LineItem(OfDistance(Inland), "Binnenfahrt", 12.0, "12 km × 1 Punkte")]
  {
    var R := DISTANCE_RULES[0];
    DistanceCatalogIds();
    DistanceCatalogRates();
    assert R.title == "Binnenfahrt";
    WholeKmRow(R, map[Inland := 12.0], 12, 1);
    Text.SmallNatTexts();
    assert Text.NatText(12) + " km × " + Text.NatText(1) + " Punkte" == "12 km × 1 Punkte";
    assert R.id == Inland;
  }

  lemma EngineTenKmValue(rule: BonusRule, b: BonusValues)
    requires rule.id == EngineKm && rule.points == Rate(Some(0.2), None) && b.engineKm == 10.0
    ensures ConfiguredRate(rule.points, ExpectedShape(rule.id)) == Some(0.2)
    ensures BonusValue(rule, b) == 2.0
  {
    assert Times(10.0, 0.2) == 2.0;
    IntIsCents(2);
    Round2OfCents(2.0);
  }

  lemma EngineTenKmDetail(b: BonusValues)
    requires b.engineKm == 10.0
    ensures BonusDetail(EngineKm, b, 0.2) == "10 km × 0.2 Punkte"
  {
    NumberTextOfInt(10);
    Text.SmallNatTexts();
    NumberTextOfTwoTenths();
  }

  /** A per-km rule of 0.2 points over 10 engine kilometres: 2 points. */
  lemma EngineTenKmRow(rule: BonusRule, b: BonusValues)
    requires rule.id == EngineKm && rule.points == Rate(Some(0.2), None) && b.engineKm == 10.0
    ensures BonusRow(rule, b) == [LineItem(OfBonus(EngineKm), rule.title, 2.0, "10 km × 0.2 Punkte")]
  {
    EngineTenKmValue(rule, b);
    EngineTenKmDetail(b);
    IntIsCents(2);
    Round2OfCents(2.0);
  }

  /** 10 engine kilometres at 0.2 points per km: 2 points. */
  lemma EngineTenKm(b: BonusValues)
    requires b.engineKm == 10.0
    ensures BonusRow(BONUS_RULES[0], b) ==
      [LineItem(OfBonus(EngineKm), "Motorfahrt", 2.0, "10 km × 0.2 Punkte")]
  {
    BonusCatalogIds();
    StructuredBonusShapes();
    assert BONUS_RULES[0].title == "Motorfahrt";
    EngineTenKmRow(BONUS_RULES[0], b);
  }

  /** A per-occurrence rule of 4 points over 3 locks: 12 points. */
  lemma ThreeLocksRow(rule: BonusRule, b: BonusValues)
    requires rule.id == Lock && rule.points == Rate(None, Some(4.0)) && b.lockCount == 3
    ensures BonusRow(rule, b) == [LineItem(OfBonus(Lock), rule.title, 12.0, "3 Schleusen × 4 Punkte")]
  {
    assert ConfiguredRate(rule.points, ExpectedShape(rule.id)) == Some(4.0);
    assert Times(3.0, 4.0) == 12.0;
    assert BonusValue(rule, b) == 12.0;
    IntIsCents(12);
    Round2OfCents(12.0);
    NumberTextOfInt(4);
    Text.SmallNatTexts();
    assert Text.IntText(3) + " Schleusen × " + Text.IntText(4) + " Punkte" == "3 Schleusen × 4 Punkte";
    assert BonusDetail(Lock, b, 4.0) == "3 Schleusen × 4 Punkte";
  }

  /** Three locks at 4 points each: 12 points, detailed "3 Schleusen × 4 Punkte". */
  lemma ThreeLocks(b: BonusValues)
    requires b.lockCount == 3
    ensures BonusRow(BONUS_RULES[2], b) ==
      [LineItem(OfBonus(Lock), "Schleusen", 12.0, "3 Schleusen × 4 Punkte")]
  {
    BonusCatalogIds();
    StructuredBonusShapes();
    assert BONUS_RULES[2].title == "Schleusen";
    ThreeLocksRow(BONUS_RULES[2], b);
  }

  /** With only engine kilometres and the long-voyage flag set, the other bonus rules are silent. */
  lemma NoOtherBonusRows(b: BonusValues)
    requires b.mastHandling == 0 && b.lockCount == 0 && b.longVoyageExtraHundreds == 0
    requires b.trailerTransports == 0 && b.communityDays == 0 && b.youthTrainingSessions == 0 && b.regattaDutyDays == 0
    ensures BonusRow(BONUS_RULES[1], b) == [] && BonusRow(BONUS_RULES[2], b) == []
    ensures BonusRow(BONUS_RULES[4], b) == [] && BonusRow(BONUS_RULES[5], b) == []
    ensures BonusRow(BONUS_RULES[6], b) == [] && BonusRow(BONUS_RULES[7], b) == []
    ensures BonusRow(BONUS_RULES[8], b) == []
  {
    BonusCatalogIds();
  }

  lemma MixedTripDistanceRows()
    ensures var rows := DistanceRows(DISTANCE_RULES, map[Inland := 5.0]);
      |rows| == 1 && rows[0].id == OfDistance(Inland) && rows[0].points == 5.0
  {
    var d := map[Inland := 5.0];
    DistanceCatalogIds();
    DistanceCatalogRates();
    assert Times(5.0, 1.0) == 5.0;
    IntIsCents(5);
    Round2OfCents(5.0);
    FourDistanceRows(DISTANCE_RULES, d);
  }

  lemma MixedTripBonusRows(b: BonusValues)
    requires b == BonusValues(10.0, 0, 0, true, 0, 0, 0, 0, 0)
    ensures var rows := BonusRows(BONUS_RULES, b);
      && |rows| == 2
      && rows[0].id == OfBonus(EngineKm) && rows[0].points == 2.0
      && rows[1].id == OfBonus(LongVoyageBase) && rows[1].points == 20.0
  {
    EngineTenKm(b);
    CatalogLongVoyageBaseRow(b);
    NoOtherBonusRows(b);
    var R := BONUS_RULES;
    var x := BonusRow(R[0], b) + BonusRow(R[1], b) + BonusRow(R[2], b);
    var y := BonusRow(R[3], b) + BonusRow(R[4], b) + BonusRow(R[5], b);
    var z := BonusRow(R[6], b) + BonusRow(R[7], b) + BonusRow(R[8], b);
    NineBonusRows(R, b, x, y, z);
    assert |x| == 1 && |y| == 1 && z == [];
  }

  /** One row worth 5 points, then two worth 2 and 20, total 27. */
  lemma ThreeRowTotal(front: seq<LineItem>, back: seq<LineItem>)
    requires |front| == 1 && front[0].points == 5.0
    requires |back| == 2 && back[0].points == 2.0 && back[1].points == 20.0
    ensures TotalPoints(front + back) == 27.0
  {
    var rows := front + back;
    assert rows[..2][..1] == rows[..1] && rows[..1][..0] == [];
    assert TotalPoints(rows[..1]) == 5.0;
    assert TotalPoints(rows[..2]) == 7.0;
  }

  /**
   * 5 inland km, 10 engine km and a long voyage: exactly three rows worth
   * 5, 2 and 20 points, in that order, and a total of 27.
   */
  lemma MixedTrip()
    ensures var rows := Breakdown(DISTANCE_RULES, BONUS_RULES, map[Inland := 5.0],
                                  BonusValues(10.0, 0, 0, true, 0, 0, 0, 0, 0));
      && |rows| == 3
      && rows[0].id == OfDistance(Inland) && rows[0].points == 5.0
      && rows[1].id == OfBonus(EngineKm) && rows[1].points == 2.0
      && rows[2].id == OfBonus(LongVoyageBase) && rows[2].points == 20.0
      && TotalPoints(rows) == 27.0
  {
    var d := map[Inland := 5.0];
    var b := BonusValues(10.0, 0, 0, true, 0, 0, 0, 0, 0);
    MixedTripDistanceRows();
    MixedTripBonusRows(b);
    ThreeRowTotal(DistanceRows(DISTANCE_RULES, d), BonusRows(BONUS_RULES, b));
  }
}
