/**
 * The trip form's crew editing, account search, training-group selection and
 * the step clamps of its four-step wizard.
 */
module NewTrip {
  import opened Wrappers
  import Text
  import Seqs
  import opened Accounts

  /** A crew member of the form; `birthYear` is a number or null, `accountId` absent or null is None. */
  datatype CrewMember = CrewMember(
    name: string, role: string, isGuest: bool, birthYear: Option<real>, accountId: Option<string>)

  datatype TrainingCrewGroup = TrainingCrewGroup(
    id: string, name: string, description: string, focus: string, members: seq<CrewMember>)

  const TRAINING_GROUPS: seq<TrainingCrewGroup> := [
    TrainingCrewGroup("youth-a", "Jugend Team A", "Regatta-Crew U18 · Schwerpunkt Spinnaker", "Spinnaker-Handling", [
      CrewMember("Kim Albrecht", "Crew", false, Some(2008.0), Some("account-003")),
      CrewMember("Luis Kramer", "Crew", false, Some(2007.0), Some("account-004")),
      CrewMember("Mara Lenz", "Trainer:in", false, Some(1999.0), Some("account-002"))
    ]),
    TrainingCrewGroup("junior-basic", "Junior Basics", "Wochenkurs für Einsteiger:innen", "Grundlagen & Sicherheit", [
      CrewMember("Janne Rehm", "Crew", true, Some(2010.0), None),
      CrewMember("Nico Ewert", "Crew", true, Some(2011.0), None),
      CrewMember("Sabine Köster", "Trainer:in", false, Some(1988.0), Some("account-005"))
    ])
  ]

  // ---------------------------------------------------------------- crew list

  /** `Math.trunc`: the integer part, rounded toward zero. */
  function Trunc(x: real): (n: int)
    ensures x >= 0.0 ==> n as real <= x < n as real + 1.0
    ensures x < 0.0 ==> n as real - 1.0 < x <= n as real
  {
    if x >= 0.0 then x.Floor else -((-x).Floor)
  }

  /** The record `addCrewMember` stores: a birth year only for guests, truncated. */
  function StoredMember(member: CrewMember): CrewMember {
    member.(birthYear := if member.isGuest && member.birthYear.Some? then Some(Trunc(member.birthYear.value) as real) else None)
  }

  /** `addCrewMember`: ignores a blank name, otherwise appends the member. */
  function AddCrewMember(crew: seq<CrewMember>, member: CrewMember): (r: seq<CrewMember>)
    ensures Text.IsBlank(member.name) ==> r == crew
    ensures !Text.IsBlank(member.name) ==>
      && |r| == |crew| + 1 && r[..|crew|] == crew
      && r[|crew|].name == member.name && r[|crew|].role == member.role
      && r[|crew|].isGuest == member.isGuest && r[|crew|].accountId == member.accountId
      && (member.isGuest && member.birthYear.Some? ==> r[|crew|].birthYear == Some(Trunc(member.birthYear.value) as real))
      && (!member.isGuest || member.birthYear.None? ==> r[|crew|].birthYear == None)
  {
    Text.TrimEmptyIffBlank(member.name);
    if Text.Trim(member.name) == "" then crew
    else crew + [StoredMember(member)]
  }

  /** A stored guest with a whole-number birth year keeps it unchanged. */
  lemma StoredWholeBirthYear(member: CrewMember, year: int)
    requires member.isGuest && member.birthYear == Some(year as real)
    ensures StoredMember(member).birthYear == Some(year as real)
  {
    assert (-(year as real)).Floor == -year;
    assert Trunc(year as real) == year;
  }

  /** `handleRemoveCrewMember`: drops the member at one position; other members keep their order. */
  function RemoveCrewMember(crew: seq<CrewMember>, index: int): (r: seq<CrewMember>)
    ensures r == if 0 <= index < |crew| then crew[..index] + crew[index + 1..] else crew
  {
    Seqs.WithoutIndexSplice(crew, index);
    Seqs.WithoutIndex(crew, index)
  }

  /** Adding a member and removing the last position restores the crew. */
  lemma RemoveAddedMember(crew: seq<CrewMember>, member: CrewMember)
    requires !Text.IsBlank(member.name)
    ensures RemoveCrewMember(AddCrewMember(crew, member), |crew|) == crew
  {
    var r := AddCrewMember(crew, member);
    assert r[..|crew|] == crew;
    assert r[|crew| + 1..] == [];
  }

  // ---------------------------------------------------------------- account search

  /** Whether an account's lower-cased name or e-mail contains the lower-cased query. */
  predicate AccountMatches(account: AccountProfile, needle: string, lower: string -> string) {
    Text.Contains(lower(account.name), needle) || Text.Contains(lower(account.email), needle)
  }

  /** `filterAccounts`: the whole directory for an empty query, otherwise the matching accounts. */
  function FilterAccounts(directory: seq<AccountProfile>, query: string, lower: string -> string): seq<AccountProfile> {
    var needle := lower(query);
    if needle == "" then directory
    else Seqs.Filter(directory, (a: AccountProfile) => AccountMatches(a, needle, lower))
  }

  /**
   * An empty (lower-cased) query returns the directory as it is. Otherwise the
   * result holds, in directory order and as often as in the directory, exactly
   * the accounts whose lower-cased name or e-mail contains the lower-cased query.
   */
  lemma FilterAccountsResult(directory: seq<AccountProfile>, query: string, lower: string -> string)
    ensures lower(query) == "" ==> FilterAccounts(directory, query, lower) == directory
    ensures Seqs.IsSubsequence(FilterAccounts(directory, query, lower), directory)
    ensures forall a :: a in FilterAccounts(directory, query, lower) <==>
      a in directory && (lower(query) == "" || AccountMatches(a, lower(query), lower))
    ensures forall a :: (lower(query) == "" || AccountMatches(a, lower(query), lower)) ==>
      multiset(FilterAccounts(directory, query, lower))[a] == multiset(directory)[a]
  {
    var needle := lower(query);
    if needle == "" {
      SubsequenceOfItself(directory);
    } else {
      var p := (a: AccountProfile) => AccountMatches(a, needle, lower);
      Seqs.FilterIsSubsequence(directory, p);
      Seqs.FilterMembership(directory, p);
      Seqs.FilterMultiset(directory, p);
    }
  }

  lemma {:induction false} SubsequenceOfItself<T>(s: seq<T>)
    ensures Seqs.IsSubsequence(s, s)
  {
    if s != [] {
      SubsequenceOfItself(s[..|s| - 1]);
    }
  }

  // ---------------------------------------------------------------- training groups

  /** `handleTrainingGroupChange`: no group clears the crew, an unknown id keeps it, a known one copies its members. */
  function TrainingGroupCrew(crew: seq<CrewMember>, groupId: Option<string>, groups: seq<TrainingCrewGroup>): seq<CrewMember> {
    if groupId.None? || groupId.value == "" then []
    else
      var k := Seqs.FindIndex(groups, (g: TrainingCrewGroup) => g.id == groupId.value);
      if k < 0 then crew else groups[k].members
  }

  /**
   * Clearing the group (null or "") empties the crew; an id no group has
   * leaves the crew alone; otherwise the crew becomes the members of the
   * first group with that id.
   */
  lemma TrainingGroupCrewResult(crew: seq<CrewMember>, groupId: Option<string>, groups: seq<TrainingCrewGroup>)
    ensures groupId.None? || groupId == Some("") ==> TrainingGroupCrew(crew, groupId, groups) == []
    ensures groupId.Some? && groupId.value != "" && (forall k :: 0 <= k < |groups| ==> groups[k].id != groupId.value) ==>
      TrainingGroupCrew(crew, groupId, groups) == crew
    ensures forall k :: 0 <= k < |groups| && groupId.Some? && groupId.value != "" && groups[k].id == groupId.value
                         && (forall j :: 0 <= j < k ==> groups[j].id != groupId.value) ==>
      TrainingGroupCrew(crew, groupId, groups) == groups[k].members
  {
    if groupId.Some? && groupId.value != "" {
      var k := Seqs.FindIndex(groups, (g: TrainingCrewGroup) => g.id == groupId.value);
      forall j | 0 <= j < |groups| && groups[j].id == groupId.value && (forall i :: 0 <= i < j ==> groups[i].id != groupId.value)
        ensures TrainingGroupCrew(crew, groupId, groups) == groups[j].members
      {
        assert k == j;
      }
    }
  }

  /** The shipped groups: choosing "youth-a" crews the three members of Jugend Team A. */
  lemma YouthGroupCrew(crew: seq<CrewMember>)
    ensures TrainingGroupCrew(crew, Some("youth-a"), TRAINING_GROUPS) == TRAINING_GROUPS[0].members
    ensures |TRAINING_GROUPS[0].members| == 3
  {
    TrainingGroupCrewResult(crew, Some("youth-a"), TRAINING_GROUPS);
  }

  // ---------------------------------------------------------------- wizard steps

  /** Basisdaten, Crew, Punkte, Review. */
  const STEP_COUNT: int := 4

  /** `goToNextStep`: one step forward, never past the last. */
  function NextStep(step: int): (r: int)
    ensures r == step + 1 || r == STEP_COUNT - 1
    ensures r <= step + 1 && r <= STEP_COUNT - 1
  {
    if step + 1 < STEP_COUNT - 1 then step + 1 else STEP_COUNT - 1
  }

  /** `goToPreviousStep`: one step back, never before the first. */
  function PreviousStep(step: int): (r: int)
    ensures r == step - 1 || r == 0
    ensures r >= step - 1 && r >= 0
  {
    if step - 1 > 0 then step - 1 else 0
  }

  predicate ValidStep(step: int) {
    0 <= step < STEP_COUNT
  }

  /**
   * Both moves keep the wizard on one of its four steps, move by exactly one
   * step except at the ends, and undo each other away from the ends.
   */
  lemma StepClamps(step: int)
    requires ValidStep(step)
    ensures ValidStep(NextStep(step)) && ValidStep(PreviousStep(step))
    ensures NextStep(step) == if step == STEP_COUNT - 1 then step else step + 1
    ensures PreviousStep(step) == if step == 0 then 0 else step - 1
    ensures step < STEP_COUNT - 1 ==> PreviousStep(NextStep(step)) == step
    ensures step > 0 ==> NextStep(PreviousStep(step)) == step
  {
  }
}
