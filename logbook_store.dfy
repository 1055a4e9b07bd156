/**
 * The logbook store: the account directory, the delegates who may read or
 * write the logbook, the recorded tracks and the trips. Every `set(state =>
 * …)` updater is a method of the LogbookStore class, specified by a function
 * on the old lists whose properties are proved as lemmas.
 */
module LogbookStore {
  import opened Wrappers
  import opened Accounts
  import opened Tracks
  import Seqs
  import NewTrip

  /** A person the owner has granted access to the logbook. */
  datatype Delegate = Delegate(
    id: string, accountId: string, name: string, email: string, canRead: bool, canWrite: bool)

  datatype TripStatus = Completed | Planned | InReview

  /** The German label the source stores as the status value. */
  function StatusText(status: TripStatus): string {
    match status
    case Completed => "Abgeschlossen"
    case Planned => "In Planung"
    case InReview => "Auswertung"
  }

  datatype Trip = Trip(
    id: string, title: string, boat: string, distance: real, duration: string, dateISO: string,
    start: string, target: string, crew: int, status: TripStatus, ownerId: string)

  const INITIAL_DELEGATES: seq<Delegate> := [
    Delegate("delegate-1", "account-001", "Nils Brenner", "nils@masys.app", true, true),
    Delegate("delegate-2", "account-002", "Mara Lenz", "mara.lenz@bsv.de", true, false)
  ]

  const TRIPS: seq<Trip> := [
    Trip("TR-1093", "Abendregatta Elbe", "Sun Odyssey 349", 14.3, "2 h 10 min", "2024-06-12",
         "Wedel", "Norderelbe", 4, Completed, "me"),
    Trip("TR-1092", "Training – Spinnaker", "Dehler 34", 11.1, "1 h 45 min", "2024-06-09",
         "Hamburg", "Finkenwerder", 3, InReview, "delegate-1"),
    Trip("TR-1091", "Küstentörn Rügen", "Bavaria C38", 38.6, "6 h 05 min", "2024-06-07",
         "Sassnitz", "Lohme", 5, Completed, "delegate-2"),
    Trip("TR-1088", "Nordsee Passage", "Hanse 388", 54.2, "9 h 18 min", "2024-05-31",
         "Cuxhaven", "Helgoland", 6, Planned, "me")
  ]

  /** Write access always comes with read access. */
  predicate WriteImpliesRead(d: Delegate) {
    d.canWrite ==> d.canRead
  }

  predicate AllWriteImpliesRead(delegates: seq<Delegate>) {
    forall i :: 0 <= i < |delegates| ==> WriteImpliesRead(delegates[i])
  }

  /** No two delegates stand for the same account. */
  predicate UniqueAccounts(delegates: seq<Delegate>) {
    forall i, j :: 0 <= i < j < |delegates| ==> delegates[i].accountId != delegates[j].accountId
  }

  lemma InitialDelegatesValid()
    ensures AllWriteImpliesRead(INITIAL_DELEGATES) && UniqueAccounts(INITIAL_DELEGATES)
  {
  }

  // ---------------------------------------------------------------- addDelegate

  /** `accounts.find(a => a.id === accountId)`, as the position of the first match or -1. */
  function AccountIndex(accounts: seq<AccountProfile>, accountId: string): (k: int)
    ensures -1 <= k < |accounts|
    ensures k >= 0 ==> accounts[k].id == accountId && forall j :: 0 <= j < k ==> accounts[j].id != accountId
    ensures k == -1 ==> forall j :: 0 <= j < |accounts| ==> accounts[j].id != accountId
  {
    Seqs.FindIndex(accounts, (a: AccountProfile) => a.id == accountId)
  }

  /** `delegates.findIndex(d => d.accountId === accountId)`. */
  function DelegateIndex(delegates: seq<Delegate>, accountId: string): (k: int)
    ensures -1 <= k < |delegates|
    ensures k >= 0 ==> delegates[k].accountId == accountId && forall j :: 0 <= j < k ==> delegates[j].accountId != accountId
    ensures k == -1 ==> forall j :: 0 <= j < |delegates| ==> delegates[j].accountId != accountId
  {
    Seqs.FindIndex(delegates, (d: Delegate) => d.accountId == accountId)
  }

  /** The first delegate for an account is the one `DelegateIndex` finds. */
  lemma DelegateIndexIsFirst(delegates: seq<Delegate>, accountId: string, k: int)
    requires 0 <= k < |delegates| && delegates[k].accountId == accountId
    requires forall j :: 0 <= j < k ==> delegates[j].accountId != accountId
    ensures DelegateIndex(delegates, accountId) == k
  {
  }

  /** The record `addDelegate` stores for an account; write access forces read access. */
  function DelegateRecord(id: string, account: AccountProfile, canRead: bool, canWrite: bool): (d: Delegate)
    ensures WriteImpliesRead(d)
  {
    Delegate(id, account.id, account.name, account.email, if canWrite then true else canRead, canWrite)
  }

  /**
   * The delegates after `addDelegate`: unchanged for an unknown account; the
   * record of an account that already has a delegate replaces it in place
   * under the old id; any other account's record is appended under `freshId`.
   */
  function DelegatesAfterAdd(accounts: seq<AccountProfile>, delegates: seq<Delegate>, accountId: string,
                             canRead: bool, canWrite: bool, freshId: string): seq<Delegate>
  {
    var a := AccountIndex(accounts, accountId);
    if a < 0 then delegates
    else
      var e := DelegateIndex(delegates, accountId);
      if e >= 0 then delegates[e := DelegateRecord(delegates[e].id, accounts[a], canRead, canWrite)]
      else delegates + [DelegateRecord(freshId, accounts[a], canRead, canWrite)]
  }

  /** An account id the directory does not know changes nothing. */
  lemma AddDelegateUnknownAccount(accounts: seq<AccountProfile>, delegates: seq<Delegate>, accountId: string,
                                  canRead: bool, canWrite: bool, freshId: string)
    requires forall j :: 0 <= j < |accounts| ==> accounts[j].id != accountId
    ensures DelegatesAfterAdd(accounts, delegates, accountId, canRead, canWrite, freshId) == delegates
  {
  }

  /**
   * For a known account that already has a delegate, the first such delegate
   * is replaced in place: same position, same id, the account's name and
   * e-mail, the requested rights with write forcing read; the list keeps its
   * length and every other entry.
   */
  lemma AddDelegateReplaces(accounts: seq<AccountProfile>, delegates: seq<Delegate>, accountId: string,
                            canRead: bool, canWrite: bool, freshId: string, a: int, e: int)
    requires 0 <= a < |accounts| && accounts[a].id == accountId
    requires forall j :: 0 <= j < a ==> accounts[j].id != accountId
    requires 0 <= e < |delegates| && delegates[e].accountId == accountId
    requires forall j :: 0 <= j < e ==> delegates[j].accountId != accountId
    ensures var r := DelegatesAfterAdd(accounts, delegates, accountId, canRead, canWrite, freshId);
      && |r| == |delegates|
      && r[e] == Delegate(delegates[e].id, accountId, accounts[a].name, accounts[a].email, canWrite || canRead, canWrite)
      && forall i :: 0 <= i < |r| && i != e ==> r[i] == delegates[i]
  {
    assert AccountIndex(accounts, accountId) == a;
    assert DelegateIndex(delegates, accountId) == e;
  }

  /** For a known account without a delegate, exactly one new record is appended, under `freshId`. */
  lemma AddDelegateAppends(accounts: seq<AccountProfile>, delegates: seq<Delegate>, accountId: string,
                           canRead: bool, canWrite: bool, freshId: string, a: int)
    requires 0 <= a < |accounts| && accounts[a].id == accountId
    requires forall j :: 0 <= j < a ==> accounts[j].id != accountId
    requires forall j :: 0 <= j < |delegates| ==> delegates[j].accountId != accountId
    ensures DelegatesAfterAdd(accounts, delegates, accountId, canRead, canWrite, freshId)
      == delegates + [Delegate(freshId, accountId, accounts[a].name, accounts[a].email, canWrite || canRead, canWrite)]
  {
    assert AccountIndex(accounts, accountId) == a;
  }

  /** Adding keeps write-implies-read for every delegate and one delegate per account. */
  lemma AddDelegateKeepsInvariants(accounts: seq<AccountProfile>, delegates: seq<Delegate>, accountId: string,
                                   canRead: bool, canWrite: bool, freshId: string)
    ensures AllWriteImpliesRead(delegates) ==>
      AllWriteImpliesRead(DelegatesAfterAdd(accounts, delegates, accountId, canRead, canWrite, freshId))
    ensures UniqueAccounts(delegates) ==>
      UniqueAccounts(DelegatesAfterAdd(accounts, delegates, accountId, canRead, canWrite, freshId))
  {
    var r := DelegatesAfterAdd(accounts, delegates, accountId, canRead, canWrite, freshId);
    var a := AccountIndex(accounts, accountId);
    if a >= 0 {
      var e := DelegateIndex(delegates, accountId);
      if e < 0 {
        assert r[..|delegates|] == delegates;
      }
    }
  }

  /** Adding the same account twice is adding it once: the second call finds and rewrites the first record. */
  lemma AddDelegateIdempotent(accounts: seq<AccountProfile>, delegates: seq<Delegate>, accountId: string,
                              canRead: bool, canWrite: bool, freshId: string, otherId: string)
    ensures var once := DelegatesAfterAdd(accounts, delegates, accountId, canRead, canWrite, freshId);
      DelegatesAfterAdd(accounts, once, accountId, canRead, canWrite, otherId) == once
  {
    var once := DelegatesAfterAdd(accounts, delegates, accountId, canRead, canWrite, freshId);
    var a := AccountIndex(accounts, accountId);
    if a >= 0 {
      var e := DelegateIndex(delegates, accountId);
      var k := if e >= 0 then e else |delegates|;
      assert once[k].accountId == accountId;
      assert forall j :: 0 <= j < k ==> once[j] == delegates[j];
      DelegateIndexIsFirst(once, accountId, k);
      if e < 0 {
        assert once[..|delegates|] == delegates;
      }
    }
  }

  // ---------------------------------------------------------------- updateDelegatePermissions

  /** One delegate under `updateDelegatePermissions`: only the one with this id changes. */
  function UpdatedDelegate(d: Delegate, id: string, canRead: Option<bool>, canWrite: Option<bool>): Delegate {
    if d.id != id then d
    else
      var nextCanWrite := canWrite.GetOr(d.canWrite);
      d.(canRead := if nextCanWrite then true else canRead.GetOr(d.canRead), canWrite := nextCanWrite)
  }

  /** `updateDelegatePermissions(id, { canRead?, canWrite? })`; an absent field is None. */
  function DelegatesAfterUpdate(delegates: seq<Delegate>, id: string, canRead: Option<bool>, canWrite: Option<bool>): seq<Delegate> {
    Seqs.Map(delegates, (d: Delegate) => UpdatedDelegate(d, id, canRead, canWrite))
  }

  /**
   * Delegates with another id are untouched; the one with this id keeps its
   * id, account, name and e-mail, takes the given rights (an absent one keeps
   * its old value) and ends with write implying read.
   */
  lemma UpdatePermissionsResult(delegates: seq<Delegate>, id: string, canRead: Option<bool>, canWrite: Option<bool>)
    ensures var r := DelegatesAfterUpdate(delegates, id, canRead, canWrite);
      && |r| == |delegates|
      && (forall i :: 0 <= i < |r| && delegates[i].id != id ==> r[i] == delegates[i])
      && (forall i :: 0 <= i < |r| && delegates[i].id == id ==>
            && r[i].id == id && r[i].accountId == delegates[i].accountId
            && r[i].name == delegates[i].name && r[i].email == delegates[i].email
            && r[i].canWrite == canWrite.GetOr(delegates[i].canWrite)
            && r[i].canRead == (r[i].canWrite || canRead.GetOr(delegates[i].canRead))
            && WriteImpliesRead(r[i]))
  {
  }

  /** Updating keeps write-implies-read; with neither right given, a consistent list is left as it was. */
  lemma UpdatePermissionsKeepsInvariant(delegates: seq<Delegate>, id: string, canRead: Option<bool>, canWrite: Option<bool>)
    ensures AllWriteImpliesRead(delegates) ==> AllWriteImpliesRead(DelegatesAfterUpdate(delegates, id, canRead, canWrite))
    ensures AllWriteImpliesRead(delegates) ==> DelegatesAfterUpdate(delegates, id, None, None) == delegates
    ensures UniqueAccounts(delegates) ==> UniqueAccounts(DelegatesAfterUpdate(delegates, id, canRead, canWrite))
  {
    UpdatePermissionsResult(delegates, id, canRead, canWrite);
    UpdatePermissionsResult(delegates, id, None, None);
  }

  // ---------------------------------------------------------------- removeDelegate

  predicate KeepsDelegate(d: Delegate, id: string) {
    d.id != id
  }

  /** `delegates.filter(d => d.id !== id)`. */
  function DelegatesAfterRemove(delegates: seq<Delegate>, id: string): seq<Delegate> {
    Seqs.Filter(delegates, (d: Delegate) => KeepsDelegate(d, id))
  }

  /** Filtering by id leaves at most one delegate per account. */
  lemma RemoveKeepsUniqueAccounts(delegates: seq<Delegate>, id: string)
    requires UniqueAccounts(delegates)
    ensures UniqueAccounts(DelegatesAfterRemove(delegates, id))
  {
    Seqs.FilterKeepsDistinctKeys(delegates, (d: Delegate) => KeepsDelegate(d, id), (d: Delegate) => d.accountId);
  }

  /**
   * Removing drops every delegate with that id and nothing else, and the
   * others keep their order; it keeps both invariants.
   */
  lemma RemoveDelegateResult(delegates: seq<Delegate>, id: string)
    ensures forall i :: 0 <= i < |DelegatesAfterRemove(delegates, id)| ==> DelegatesAfterRemove(delegates, id)[i].id != id
    ensures forall d: Delegate :: d.id != id ==> multiset(DelegatesAfterRemove(delegates, id))[d] == multiset(delegates)[d]
    ensures Seqs.IsSubsequence(DelegatesAfterRemove(delegates, id), delegates)
    ensures AllWriteImpliesRead(delegates) ==> AllWriteImpliesRead(DelegatesAfterRemove(delegates, id))
    ensures UniqueAccounts(delegates) ==> UniqueAccounts(DelegatesAfterRemove(delegates, id))
  {
    var p := (d: Delegate) => KeepsDelegate(d, id);
    if UniqueAccounts(delegates) {
      RemoveKeepsUniqueAccounts(delegates, id);
    }
    Seqs.FilterMultiset(delegates, p);
    Seqs.FilterIsSubsequence(delegates, p);
    Seqs.FilterMembership(delegates, p);
    var r := DelegatesAfterRemove(delegates, id);
    if AllWriteImpliesRead(delegates) {
      forall i | 0 <= i < |r| ensures WriteImpliesRead(r[i]) {
        assert r[i] in delegates;
      }
    }
  }

  // ---------------------------------------------------------------- the store

  class LogbookStore {
    var accounts: seq<AccountProfile>
    var delegates: seq<Delegate>
    var tracks: seq<GpsTrack>
    var trips: seq<Trip>
    var trainingGroups: seq<NewTrip.TrainingCrewGroup>

    /** Every delegate with write access also has read access, and no account has two delegates. */
    predicate Valid()
      reads this
    {
      AllWriteImpliesRead(delegates) && UniqueAccounts(delegates)
    }

    constructor ()
      ensures accounts == ACCOUNT_DIRECTORY && delegates == INITIAL_DELEGATES && tracks == INITIAL_TRACKS
      ensures trips == TRIPS && trainingGroups == NewTrip.TRAINING_GROUPS
      ensures Valid()
    {
      accounts, delegates, tracks := ACCOUNT_DIRECTORY, INITIAL_DELEGATES, INITIAL_TRACKS;
      trips, trainingGroups := TRIPS, NewTrip.TRAINING_GROUPS;
    }

    /** `addTrack`: the new track first; nothing but the tracks changes. */
    method AddTrack(track: GpsTrack)
      modifies this
      ensures tracks == WithTrack(old(tracks), track)
      ensures accounts == old(accounts) && delegates == old(delegates)
      ensures trips == old(trips) && trainingGroups == old(trainingGroups)
    {
      tracks := [track] + tracks;
    }

    /** `removeTrack`: the tracks without this id; nothing but the tracks changes. */
    method RemoveTrack(id: string)
      modifies this
      ensures tracks == WithoutTrack(old(tracks), id)
      ensures accounts == old(accounts) && delegates == old(delegates)
      ensures trips == old(trips) && trainingGroups == old(trainingGroups)
    {
      tracks := WithoutTrack(tracks, id);
    }

    /**
     * `addDelegate`: looks the account up, copies the delegate list and
     * overwrites the existing entry for the account or appends a new one.
     * `freshId` stands for the `delegate-<Date.now()>` id of a new entry.
     */
    method AddDelegate(accountId: string, canRead: bool, canWrite: bool, freshId: string)
      modifies this
      ensures delegates == DelegatesAfterAdd(old(accounts), old(delegates), accountId, canRead, canWrite, freshId)
      ensures accounts == old(accounts) && tracks == old(tracks)
      ensures trips == old(trips) && trainingGroups == old(trainingGroups)
      ensures old(Valid()) ==> Valid()
    {
      AddDelegateKeepsInvariants(accounts, delegates, accountId, canRead, canWrite, freshId);
      var a := AccountIndex(accounts, accountId);
      if a < 0 {
        return;
      }
      var account := accounts[a];
      var existing := DelegateIndex(delegates, accountId);
      var record := Delegate(
        if existing >= 0 then delegates[existing].id else freshId,
        accountId, account.name, account.email,
        if canWrite then true else canRead, canWrite);
      if existing >= 0 {
        var next := delegates;
        next := next[existing := record];
        delegates := next;
      } else {
        delegates := delegates + [record];
      }
    }

    /** `updateDelegatePermissions`: an absent right is None. */
    method UpdateDelegatePermissions(id: string, canRead: Option<bool>, canWrite: Option<bool>)
      modifies this
      ensures delegates == DelegatesAfterUpdate(old(delegates), id, canRead, canWrite)
      ensures accounts == old(accounts) && tracks == old(tracks)
      ensures trips == old(trips) && trainingGroups == old(trainingGroups)
      ensures old(Valid()) ==> Valid()
    {
      UpdatePermissionsKeepsInvariant(delegates, id, canRead, canWrite);
      delegates := DelegatesAfterUpdate(delegates, id, canRead, canWrite);
    }

    /** `removeDelegate`. */
    method RemoveDelegate(id: string)
      modifies this
      ensures delegates == DelegatesAfterRemove(old(delegates), id)
      ensures accounts == old(accounts) && tracks == old(tracks)
      ensures trips == old(trips) && trainingGroups == old(trainingGroups)
      ensures old(Valid()) ==> Valid()
    {
      RemoveDelegateResult(delegates, id);
      delegates := DelegatesAfterRemove(delegates, id);
    }
  }

  /**
   * Granting Kim Albrecht's account read access on the initial store appends a
   * third delegate; granting write access afterwards upgrades that same entry.
   */
  method GrantKim(freshId: string, laterId: string) returns (store: LogbookStore)
    ensures |store.delegates| == 3 && store.delegates[..2] == INITIAL_DELEGATES
    ensures store.delegates[2] == Delegate(freshId, "account-003", "Kim Albrecht", "kim.albrecht@masys.app", true, true)
    ensures store.Valid()
  {
    store := new LogbookStore();
    AddDelegateAppends(ACCOUNT_DIRECTORY, INITIAL_DELEGATES, "account-003", true, false, freshId, 2);
    store.AddDelegate("account-003", true, false, freshId);
    var afterRead := store.delegates;
    AddDelegateReplaces(ACCOUNT_DIRECTORY, afterRead, "account-003", false, true, laterId, 2, 2);
    store.AddDelegate("account-003", false, true, laterId);
  }
}
