/**
 * The trip points engine: turns a trip's kilometres per water category and
 * its bonus counters into an ordered breakdown of line items and a total.
 *
 * ComputeBreakdown is the engine as the trip form runs it (two passes over the
 * catalogs that push rows, a switch on the bonus id). Breakdown is its
 * specification: distance rows, then bonus rows, each rule described by the
 * table ExpectedShape / Amount / ConfiguredRate rather than by the switch.
 */
module PointsEngine {
  import opened Wrappers
  import opened PointsConfig
  import opened Numbers
  import Text

  /** The rule a line item comes from. */
  datatype RuleId = OfDistance(distance: DistanceId) | OfBonus(bonus: BonusId)

  datatype LineItem = LineItem(id: RuleId, labelText: string, points: real, detail: string)

  /** Kilometres entered per distance category; a missing category counts as 0. */
  type DistanceValues = map<DistanceId, real>

  /** The bonus counters of the trip form. */
  datatype BonusValues = BonusValues(
    engineKm: real,
    mastHandling: int,
    lockCount: int,
    longVoyageBase: bool,
    longVoyageExtraHundreds: int,
    trailerTransports: int,
    communityDays: int,
    youthTrainingSessions: int,
    regattaDutyDays: int)

  const INITIAL_BONUS_VALUES: BonusValues := BonusValues(0.0, 0, 0, false, 0, 0, 0, 0, 0)

  /** The form's starting distances: every catalog category present with 0 km. */
  function CreateInitialDistances(rules: seq<DistanceRule>): (d: DistanceValues)
    ensures forall id :: id in d <==> exists k :: 0 <= k < |rules| && rules[k].id == id
    ensures forall id :: id in d ==> d[id] == 0.0
  {
    if rules == [] then map[]
    else CreateInitialDistances(rules[..|rules| - 1])[rules[|rules| - 1].id := 0.0]
  }

  /** `distances[id] ?? 0` */
  function Km(d: DistanceValues, id: DistanceId): real {
    if id in d then d[id] else 0.0
  }

  function DistanceDetail(km: real, pointsPerKm: real): string {
    NumberText(km) + " km × " + NumberText(pointsPerKm) + " Punkte"
  }

  /** The row of one distance rule: present only for a positive distance. */
  function DistanceRow(rule: DistanceRule, d: DistanceValues): seq<LineItem> {
    var km := Km(d, rule.id);
    if km > 0.0 then
      [LineItem(OfDistance(rule.id), rule.title, Round2(Times(km, rule.pointsPerKm)), DistanceDetail(km, rule.pointsPerKm))]
    else []
  }

  function DistanceRows(rules: seq<DistanceRule>, d: DistanceValues): seq<LineItem> {
    if rules == [] then []
    else DistanceRows(rules[..|rules| - 1], d) + DistanceRow(rules[|rules| - 1], d)
  }

  /** The rate shape each bonus id is scored with, and the input it is applied to. */
  datatype Shape = PerKmRate | PerOccurrenceRate | FlatPerCount | FlatOnFlag

  function ExpectedShape(id: BonusId): Shape {
    match id
    case EngineKm => PerKmRate
    case MastHandling | Lock | LongVoyageExtra => PerOccurrenceRate
    case LongVoyageBase => FlatOnFlag
    case TrailerTransport | CommunityEvent | YouthTraining | RegattaDuty => FlatPerCount
  }

  /** The input a bonus rule multiplies: kilometres, a counter, or 1 for a set flag. */
  function Amount(id: BonusId, b: BonusValues): real {
    match id
    case EngineKm => b.engineKm
    case MastHandling => b.mastHandling as real
    case Lock => b.lockCount as real
    case LongVoyageBase => if b.longVoyageBase then 1.0 else 0.0
    case LongVoyageExtra => b.longVoyageExtraHundreds as real
    case TrailerTransport => b.trailerTransports as real
    case CommunityEvent => b.communityDays as real
    case YouthTraining => b.youthTrainingSessions as real
    case RegattaDuty => b.regattaDutyDays as real
  }

  /** JavaScript truthiness of an optional rate: present and not zero. */
  predicate Truthy(o: Option<real>) {
    o.Some? && o.value != 0.0
  }

  /** The rate a rule's points give for the shape its id expects; None on a mismatch. */
  function ConfiguredRate(points: Points, shape: Shape): (r: Option<real>)
    ensures r.Some? && (shape == PerKmRate || shape == PerOccurrenceRate) ==> r.value != 0.0
  {
    match shape
    case PerKmRate => if points.Rate? && Truthy(points.perKm) then points.perKm else None
    case PerOccurrenceRate => if points.Rate? && Truthy(points.perOccurrence) then points.perOccurrence else None
    case FlatPerCount | FlatOnFlag => if points.Flat? then Some(points.amount) else None
  }

  /** The unrounded value of a bonus rule; a per-km value is rounded once already. */
  function BonusValue(rule: BonusRule, b: BonusValues): real {
    var shape := ExpectedShape(rule.id);
    var amount := Amount(rule.id, b);
    match ConfiguredRate(rule.points, shape)
    case None => 0.0
    case Some(rate) =>
      if amount <= 0.0 then 0.0
      else if shape == PerKmRate then Round2(Times(amount, rate))
      else Times(amount, rate)
  }

  function BonusDetail(id: BonusId, b: BonusValues, rate: real): string {
    match id
    case EngineKm => NumberText(b.engineKm) + " km × " + NumberText(rate) + " Punkte"
    case MastHandling => Text.IntText(b.mastHandling) + " Vorgänge × " + NumberText(rate) + " Punkte"
    case Lock => Text.IntText(b.lockCount) + " Schleusen × " + NumberText(rate) + " Punkte"
    case LongVoyageBase => "Langtörn über 200 km"
    case LongVoyageExtra => Text.IntText(b.longVoyageExtraHundreds) + " × zusätzliche 100 km"
    case TrailerTransport => Text.IntText(b.trailerTransports) + " Transport(e) × " + NumberText(rate) + " Punkte"
    case CommunityEvent => Text.IntText(b.communityDays) + " Tag(e) Gemeinschaftstörn"
    case YouthTraining => Text.IntText(b.youthTrainingSessions) + " Trainingseinheiten"
    case RegattaDuty => Text.IntText(b.regattaDutyDays) + " Regattatag(e)"
  }

  /** The row of one bonus rule: present only for a positive value, its points rounded. */
  function BonusRow(rule: BonusRule, b: BonusValues): seq<LineItem> {
    match ConfiguredRate(rule.points, ExpectedShape(rule.id))
    case None => []
    case Some(rate) =>
      var value := BonusValue(rule, b);
      if value > 0.0 then [LineItem(OfBonus(rule.id), rule.title, Round2(value), BonusDetail(rule.id, b, rate))]
      else []
  }

  function BonusRows(rules: seq<BonusRule>, b: BonusValues): seq<LineItem> {
    if rules == [] then []
    else BonusRows(rules[..|rules| - 1], b) + BonusRow(rules[|rules| - 1], b)
  }

  /** The breakdown: all distance rows in catalog order, then all bonus rows in catalog order. */
  function Breakdown(distanceRules: seq<DistanceRule>, bonusRules: seq<BonusRule>,
                     d: DistanceValues, b: BonusValues): seq<LineItem> {
    DistanceRows(distanceRules, d) + BonusRows(bonusRules, b)
  }

  /** The `switch` on the rule id: the value and detail text one bonus rule yields. */
  method BonusContribution(rule: BonusRule, bonus: BonusValues) returns (value: real, detail: string)
    ensures value == BonusValue(rule, bonus)
    ensures value > 0.0 ==> ConfiguredRate(rule.points, ExpectedShape(rule.id)).Some?
    ensures value > 0.0 ==> detail == BonusDetail(rule.id, bonus, ConfiguredRate(rule.points, ExpectedShape(rule.id)).value)
  {
    value, detail := 0.0, "";
    match rule.id {
      case EngineKm =>
        var km := bonus.engineKm;
        if km > 0.0 && rule.points.Rate? && Truthy(rule.points.perKm) {
          value := Round2(Times(km, rule.points.perKm.value));
          detail := NumberText(km) + " km × " + NumberText(rule.points.perKm.value) + " Punkte";
        }
      case MastHandling =>
        var count := bonus.mastHandling;
        if count > 0 && rule.points.Rate? && Truthy(rule.points.perOccurrence) {
          value := Times(count as real, rule.points.perOccurrence.value);
          detail := Text.IntText(count) + " Vorgänge × " + NumberText(rule.points.perOccurrence.value) + " Punkte";
        }
      case Lock =>
        var count := bonus.lockCount;
        if count > 0 && rule.points.Rate? && Truthy(rule.points.perOccurrence) {
          value := Times(count as real, rule.points.perOccurrence.value);
          detail := Text.IntText(count) + " Schleusen × " + NumberText(rule.points.perOccurrence.value) + " Punkte";
        }
      case LongVoyageBase =>
        if bonus.longVoyageBase && rule.points.Flat? {
          value := rule.points.amount;
          detail := "Langtörn über 200 km";
        }
      case LongVoyageExtra =>
        var extra := bonus.longVoyageExtraHundreds;
        if extra > 0 && rule.points.Rate? && Truthy(rule.points.perOccurrence) {
          value := Times(extra as real, rule.points.perOccurrence.value);
          detail := Text.IntText(extra) + " × zusätzliche 100 km";
        }
      case TrailerTransport =>
        var transports := bonus.trailerTransports;
        if transports > 0 && rule.points.Flat? {
          value := Times(transports as real, rule.points.amount);
          detail := Text.IntText(transports) + " Transport(e) × " + NumberText(rule.points.amount) + " Punkte";
        }
      case CommunityEvent =>
        var days := bonus.communityDays;
        if days > 0 && rule.points.Flat? {
          value := Times(days as real, rule.points.amount);
          detail := Text.IntText(days) + " Tag(e) Gemeinschaftstörn";
        }
      case YouthTraining =>
        var sessions := bonus.youthTrainingSessions;
        if sessions > 0 && rule.points.Flat? {
          value := Times(sessions as real, rule.points.amount);
          detail := Text.IntText(sessions) + " Trainingseinheiten";
        }
      case RegattaDuty =>
        var days := bonus.regattaDutyDays;
        if days > 0 && rule.points.Flat? {
          value := Times(days as real, rule.points.amount);
          detail := Text.IntText(days) + " Regattatag(e)";
        }
    }
  }

  /** `pointsBreakdown`: fills the breakdown rule by rule, as the trip form does. */
  method ComputeBreakdown(distanceRules: seq<DistanceRule>, bonusRules: seq<BonusRule>,
                          distances: DistanceValues, bonus: BonusValues)
    returns (breakdown: seq<LineItem>)
    ensures breakdown == Breakdown(distanceRules, bonusRules, distances, bonus)
  {
    breakdown := PushDistanceRows([], distanceRules, distances);
    breakdown := PushBonusRows(breakdown, bonusRules, bonus);
  }

  /** The pass over the distance catalog: one pushed row per rule with positive kilometres. */
  method PushDistanceRows(start: seq<LineItem>, distanceRules: seq<DistanceRule>, distances: DistanceValues)
    returns (breakdown: seq<LineItem>)
    ensures breakdown == start + DistanceRows(distanceRules, distances)
  {
    breakdown := start;
    var i := 0;
    while i < |distanceRules|
      invariant 0 <= i <= |distanceRules|
      invariant breakdown == start + DistanceRows(distanceRules[..i], distances)
    {
      var rule := distanceRules[i];
      var km := if rule.id in distances then distances[rule.id] else 0.0;
      if km > 0.0 {
        var points := Round2(Times(km, rule.pointsPerKm));
        breakdown := breakdown + [LineItem(OfDistance(rule.id), rule.title, points, DistanceDetail(km, rule.pointsPerKm))];
      }
      DistanceRowsStep(distanceRules, i, distances);
      i := i + 1;
    }
    assert distanceRules[..i] == distanceRules;
  }

  /** The pass over the bonus catalog: one pushed row per rule whose value is positive. */
  method PushBonusRows(start: seq<LineItem>, bonusRules: seq<BonusRule>, bonus: BonusValues)
    returns (breakdown: seq<LineItem>)
    ensures breakdown == start + BonusRows(bonusRules, bonus)
  {
    breakdown := start;
    var j := 0;
    while j < |bonusRules|
      invariant 0 <= j <= |bonusRules|
      invariant breakdown == start + BonusRows(bonusRules[..j], bonus)
    {
      var rule := bonusRules[j];
      var value, detail := BonusContribution(rule, bonus);
      if value > 0.0 {
        breakdown := breakdown + [LineItem(OfBonus(rule.id), rule.title, Round2(value), detail)];
      }
      BonusRowsStep(bonusRules, j, bonus);
      j := j + 1;
    }
    assert bonusRules[..j] == bonusRules;
  }

  lemma DistanceRowsStep(rules: seq<DistanceRule>, i: nat, d: DistanceValues)
    requires i < |rules|
    ensures DistanceRows(rules[..i + 1], d) == DistanceRows(rules[..i], d) + DistanceRow(rules[i], d)
  {
    assert rules[..i + 1][..i] == rules[..i];
  }

  lemma BonusRowsStep(rules: seq<BonusRule>, i: nat, b: BonusValues)
    requires i < |rules|
    ensures BonusRows(rules[..i + 1], b) == BonusRows(rules[..i], b) + BonusRow(rules[i], b)
  {
    assert rules[..i + 1][..i] == rules[..i];
  }

  /** `totalPoints`: the sum of the rows' (already rounded) points, folded from the left. */
  function TotalPoints(items: seq<LineItem>): real {
    if items == [] then 0.0 else TotalPoints(items[..|items| - 1]) + items[|items| - 1].points
  }
}
