/**
 * The static scoring rule catalog: four distance rules scored per kilometre
 * and nine bonus rules whose points are either a flat number or a structured
 * rate (per kilometre and/or per occurrence).
 */
module PointsConfig {
  import opened Wrappers

  datatype DistanceId = Inland | InlandOptimist | Sea | Upstream

  datatype BonusId =
    | EngineKm | MastHandling | Lock | LongVoyageBase | LongVoyageExtra
    | TrailerTransport | CommunityEvent | YouthTraining | RegattaDuty

  datatype Category = Operation | Voyage | Volunteering

  /** The `points` union: a bare number, or an object with two optional rates. */
  datatype Points = Flat(amount: real) | Rate(perKm: Option<real>, perOccurrence: Option<real>)

  datatype DistanceRule = DistanceRule(id: DistanceId, title: string, description: string, pointsPerKm: real)

  datatype BonusRule = BonusRule(
    id: BonusId, title: string, description: string, points: Points, unitLabel: string, category: Category)

  const DISTANCE_RULES: seq<DistanceRule> := [
    DistanceRule(Inland, "Binnenfahrt",
      "Jeder gesegelte Kilometer auf Binnengewässern, inklusive gestakt, getreidelt oder gepaddelt.", 1.0),
    DistanceRule(InlandOptimist, "Binnenfahrt im Optimist",
      "Jeder gesegelte Kilometer mit einem Optimisten auf Binnengewässern.", 2.0),
    DistanceRule(Sea, "Seefahrt", "Jeder gesegelte Kilometer auf See.", 1.0),
    DistanceRule(Upstream, "Gegen den Strom",
      "Kilometer gegen Strömung von mindestens 5 km/h auf stark strömenden Gewässern.", 3.0)
  ]

  const BONUS_RULES: seq<BonusRule> := [
    BonusRule(EngineKm, "Motorfahrt",
      "Gefahrene Kilometer unter Motor, sowohl im Binnenbereich als auch auf See.",
      Rate(Some(0.2), None), "km", Operation),
    BonusRule(MastHandling, "Mastlegen & Hindernisse",
      "Für Mastlegen und wieder Stellen bei Brücken oder Hindernissen.",
      Rate(None, Some(2.0)), "Vorgänge", Operation),
    BonusRule(Lock, "Schleusen", "Jede durchfahrene Schleuse.",
      Rate(None, Some(4.0)), "Schleusen", Operation),
    BonusRule(LongVoyageBase, "Langer Törn (200 km)",
      "Zusätzliche Punkte für zusammenhängende Langtörns über mehr als 200 km.",
      Flat(20.0), "Langtörn > 200 km", Voyage),
    BonusRule(LongVoyageExtra, "Weitere 100 km beim Langtörn",
      "Zusatzpunkte für jede weiteren 100 km nach dem ersten 200 km Langtörn.",
      Rate(None, Some(10.0)), "weitere 100 km", Voyage),
    BonusRule(TrailerTransport, "Trailertransport",
      "Eigenständig durchgeführte Trailertransporte (mind. 150 km vom Heimathafen entfernt).",
      Flat(50.0), "Transport", Voyage),
    BonusRule(CommunityEvent, "Gemeinschaftsfahrt",
      "Teilnahme an vom Verein organisierten Gemeinschaftsfahrten (mind. 5 Boote). Punkte pro Tag.",
      Flat(20.0), "Tage", Voyage),
    BonusRule(YouthTraining, "Kinder- & Jugendtraining",
      "Durchführung eines Trainings (2 Stunden oder mehr) als ehrenamtliche*r Trainer*in.",
      Flat(25.0), "Trainingseinheiten", Volunteering),
    BonusRule(RegattaDuty, "Regatta-Funktion",
      "Offizielle Funktion bei ausgeschriebenen Regatten (ab 5 Stunden) pro Tag.",
      Flat(25.0), "Regattatage", Volunteering)
  ]

  predicate DistinctDistanceIds(rules: seq<DistanceRule>) {
    forall i, j :: 0 <= i < j < |rules| ==> rules[i].id != rules[j].id
  }

  predicate DistinctBonusIds(rules: seq<BonusRule>) {
    forall i, j :: 0 <= i < j < |rules| ==> rules[i].id != rules[j].id
  }

  /** The distance catalog lists each id of the union once, in the union's order. */
  lemma DistanceCatalogIds()
    ensures |DISTANCE_RULES| == 4 && DistinctDistanceIds(DISTANCE_RULES)
    ensures DISTANCE_RULES[0].id == Inland && DISTANCE_RULES[1].id == InlandOptimist
    ensures DISTANCE_RULES[2].id == Sea && DISTANCE_RULES[3].id == Upstream
  {
  }

  /** Every distance rule pays a positive rate: 1, 2, 1 and 3 points per km. */
  lemma DistanceCatalogRates()
    ensures forall rule :: rule in DISTANCE_RULES ==> rule.pointsPerKm > 0.0
    ensures DISTANCE_RULES[0].pointsPerKm == 1.0 && DISTANCE_RULES[1].pointsPerKm == 2.0
    ensures DISTANCE_RULES[2].pointsPerKm == 1.0 && DISTANCE_RULES[3].pointsPerKm == 3.0
  {
  }

  /** Nine bonus rules, each id of the union once, in the union's order. */
  lemma BonusCatalogIds()
    ensures |BONUS_RULES| == 9 && DistinctBonusIds(BONUS_RULES)
    ensures BONUS_RULES[0].id == EngineKm && BONUS_RULES[1].id == MastHandling
    ensures BONUS_RULES[2].id == Lock && BONUS_RULES[3].id == LongVoyageBase
    ensures BONUS_RULES[4].id == LongVoyageExtra && BONUS_RULES[5].id == TrailerTransport
    ensures BONUS_RULES[6].id == CommunityEvent && BONUS_RULES[7].id == YouthTraining
    ensures BONUS_RULES[8].id == RegattaDuty
  {
    BonusIdsInOrder();
    UnionOrderDistinct(BONUS_RULES);
  }

  lemma BonusIdsInOrder()
    ensures |BONUS_RULES| == 9
    ensures BONUS_RULES[0].id == EngineKm && BONUS_RULES[1].id == MastHandling
    ensures BONUS_RULES[2].id == Lock && BONUS_RULES[3].id == LongVoyageBase
    ensures BONUS_RULES[4].id == LongVoyageExtra && BONUS_RULES[5].id == TrailerTransport
    ensures BONUS_RULES[6].id == CommunityEvent && BONUS_RULES[7].id == YouthTraining
    ensures BONUS_RULES[8].id == RegattaDuty
  {
  }

  /** Rules listing the nine ids in the union's order have no id twice. */
  lemma UnionOrderDistinct(rules: seq<BonusRule>)
    requires |rules| == 9
    requires rules[0].id == EngineKm && rules[1].id == MastHandling
    requires rules[2].id == Lock && rules[3].id == LongVoyageBase
    requires rules[4].id == LongVoyageExtra && rules[5].id == TrailerTransport
    requires rules[6].id == CommunityEvent && rules[7].id == YouthTraining
    requires rules[8].id == RegattaDuty
    ensures DistinctBonusIds(rules)
  {
  }

  /** engineKm carries a per-km rate; mastHandling, lock and longVoyageExtra a per-occurrence rate. */
  lemma StructuredBonusShapes()
    ensures BONUS_RULES[0].points == Rate(Some(0.2), None)
    ensures BONUS_RULES[1].points == Rate(None, Some(2.0))
    ensures BONUS_RULES[2].points == Rate(None, Some(4.0))
    ensures BONUS_RULES[4].points == Rate(None, Some(10.0))
  {
  }

  /** The other five bonus rules carry a flat number of points. */
  lemma FlatBonusShapes()
    ensures BONUS_RULES[3].points == Flat(20.0) && BONUS_RULES[5].points == Flat(50.0)
    ensures BONUS_RULES[6].points == Flat(20.0) && BONUS_RULES[7].points == Flat(25.0)
    ensures BONUS_RULES[8].points == Flat(25.0)
  {
  }

  /** Three operation rules, then four voyage rules, then two volunteering rules. */
  lemma BonusCategories()
    ensures |BONUS_RULES| == 9
    ensures forall k :: 0 <= k < 3 ==> BONUS_RULES[k].category == Operation
    ensures forall k :: 3 <= k < 7 ==> BONUS_RULES[k].category == Voyage
    ensures forall k :: 7 <= k < 9 ==> BONUS_RULES[k].category == Volunteering
  {
  }

  /** The units the per-occurrence rules count in. */
  lemma BonusUnitLabels()
    ensures BONUS_RULES[0].unitLabel == "km" && BONUS_RULES[1].unitLabel == "Vorgänge"
    ensures BONUS_RULES[2].unitLabel == "Schleusen" && BONUS_RULES[4].unitLabel == "weitere 100 km"
  {
  }

  /** The titles the breakdown rows of the worked examples show. */
  lemma CatalogTitles()
    ensures DISTANCE_RULES[0].title == "Binnenfahrt"
    ensures BONUS_RULES[0].title == "Motorfahrt" && BONUS_RULES[2].title == "Schleusen"
    ensures BONUS_RULES[3].title == "Langer Törn (200 km)"
  {
  }
}

