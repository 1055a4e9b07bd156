/**
 * The profile page's own delegate list (a second copy of the permission
 * rules, keyed by e-mail), the add-delegate dialog's form with its two
 * checkboxes, and the `HH:MM:SS` label of a running recording.
 */
module ProfilePage {
  import opened Wrappers
  import Text
  import Seqs

  datatype ProfileAccount = ProfileAccount(id: string, name: string, email: string)

  /** The page's own directory; it differs from the store's in the last two accounts. */
  const PROFILE_ACCOUNTS: seq<ProfileAccount> := [
    ProfileAccount("account-001", "Nils Brenner", "nils@masys.app"),
    ProfileAccount("account-002", "Mara Lenz", "mara.lenz@bsv.de"),
    ProfileAccount("account-003", "Kim Albrecht", "kim.albrecht@masys.app"),
    ProfileAccount("account-004", "Laura Vogt", "laura.vogt@bsv.de"),
    ProfileAccount("account-005", "Tom Reimann", "tom.reimann@masys.app")
  ]

  datatype ProfileDelegate = ProfileDelegate(id: string, name: string, email: string, canRead: bool, canWrite: bool)

  const PROFILE_DELEGATES: seq<ProfileDelegate> := [
    ProfileDelegate("delegate-1", "Nils Brenner", "nils@masys.app", true, true),
    ProfileDelegate("delegate-2", "Mara Lenz", "mara.lenz@bsv.de", true, false)
  ]

  datatype DelegateForm = DelegateForm(name: string, email: string, canRead: bool, canWrite: bool)

  const INITIAL_FORM := DelegateForm("", "", true, false)

  predicate DelegateConsistent(d: ProfileDelegate) {
    d.canWrite ==> d.canRead
  }

  predicate AllConsistent(delegates: seq<ProfileDelegate>) {
    forall i :: 0 <= i < |delegates| ==> DelegateConsistent(delegates[i])
  }

  predicate FormConsistent(form: DelegateForm) {
    form.canWrite ==> form.canRead
  }

  predicate UniqueEmails(delegates: seq<ProfileDelegate>) {
    forall i, j :: 0 <= i < j < |delegates| ==> delegates[i].email != delegates[j].email
  }

  lemma InitialStateConsistent()
    ensures AllConsistent(PROFILE_DELEGATES) && UniqueEmails(PROFILE_DELEGATES) && FormConsistent(INITIAL_FORM)
  {
  }

  // ---------------------------------------------------------------- handleAddDelegate

  /** `prev.findIndex(d => d.email === email)`. */
  function EmailIndex(delegates: seq<ProfileDelegate>, email: string): (k: int)
    ensures -1 <= k < |delegates|
    ensures k >= 0 ==> delegates[k].email == email && forall j :: 0 <= j < k ==> delegates[j].email != email
    ensures k == -1 ==> forall j :: 0 <= j < |delegates| ==> delegates[j].email != email
  {
    Seqs.FindIndex(delegates, (d: ProfileDelegate) => d.email == email)
  }

  lemma EmailIndexIsFirst(delegates: seq<ProfileDelegate>, email: string, k: int)
    requires 0 <= k < |delegates| && delegates[k].email == email
    requires forall j :: 0 <= j < k ==> delegates[j].email != email
    ensures EmailIndex(delegates, email) == k
  {
  }

  /** The entry the dialog submits: the selected account with the form's rights; its id is the account id. */
  function Payload(account: ProfileAccount, form: DelegateForm): (d: ProfileDelegate)
    ensures d.id == account.id && d.name == account.name && d.email == account.email
    ensures d.canRead == form.canRead && d.canWrite == form.canWrite
    ensures FormConsistent(form) ==> DelegateConsistent(d)
  {
    ProfileDelegate(account.id, account.name, account.email, form.canRead, form.canWrite)
  }

  /**
   * The `setDelegates` updater of `handleAddDelegate`. Spreading the payload
   * over the old entry overwrites all five fields, the id included, so the
   * entry with the same e-mail becomes the payload.
   */
  function DelegatesAfterAdd(delegates: seq<ProfileDelegate>, payload: ProfileDelegate): seq<ProfileDelegate> {
    var k := EmailIndex(delegates, payload.email);
    if k >= 0 then delegates[k := payload] else delegates + [payload]
  }

  /** An e-mail already listed: its first entry becomes the payload in place; nothing else moves. */
  lemma AddDelegateMerges(delegates: seq<ProfileDelegate>, payload: ProfileDelegate, k: int)
    requires 0 <= k < |delegates| && delegates[k].email == payload.email
    requires forall j :: 0 <= j < k ==> delegates[j].email != payload.email
    ensures var r := DelegatesAfterAdd(delegates, payload);
      |r| == |delegates| && r[k] == payload && forall i :: 0 <= i < |r| && i != k ==> r[i] == delegates[i]
  {
    EmailIndexIsFirst(delegates, payload.email, k);
  }

  /** A new e-mail: the payload is appended after the old entries. */
  lemma AddDelegateAppends(delegates: seq<ProfileDelegate>, payload: ProfileDelegate)
    requires forall j :: 0 <= j < |delegates| ==> delegates[j].email != payload.email
    ensures DelegatesAfterAdd(delegates, payload) == delegates + [payload]
  {
  }

  /** A consistent payload keeps the list consistent; e-mails stay unique; adding twice is adding once. */
  lemma AddDelegateInvariants(delegates: seq<ProfileDelegate>, payload: ProfileDelegate)
    ensures AllConsistent(delegates) && DelegateConsistent(payload) ==> AllConsistent(DelegatesAfterAdd(delegates, payload))
    ensures UniqueEmails(delegates) ==> UniqueEmails(DelegatesAfterAdd(delegates, payload))
    ensures DelegatesAfterAdd(DelegatesAfterAdd(delegates, payload), payload) == DelegatesAfterAdd(delegates, payload)
  {
    var r := DelegatesAfterAdd(delegates, payload);
    var e := EmailIndex(delegates, payload.email);
    var k := if e >= 0 then e else |delegates|;
    if e < 0 {
      assert r[..|delegates|] == delegates;
    }
    assert r[k] == payload;
    assert forall j :: 0 <= j < k ==> r[j] == delegates[j];
    EmailIndexIsFirst(r, payload.email, k);
  }

  // ---------------------------------------------------------------- handleDelegatePermissionChange

  datatype PermissionKey = Read | Write

  /** One delegate under `handleDelegatePermissionChange`. */
  function ChangedDelegate(d: ProfileDelegate, id: string, key: PermissionKey, value: bool): ProfileDelegate {
    if d.id != id then d
    else if key == Write && value then d.(canRead := true, canWrite := true)
    else if key == Read && !value then d.(canRead := false, canWrite := false)
    else if key == Read then d.(canRead := value)
    else d.(canWrite := value)
  }

  function DelegatesAfterPermissionChange(delegates: seq<ProfileDelegate>, id: string, key: PermissionKey, value: bool): seq<ProfileDelegate> {
    Seqs.Map(delegates, (d: ProfileDelegate) => ChangedDelegate(d, id, key, value))
  }

  /**
   * Granting write grants read too; revoking read revokes write too; any
   * other change sets only the named right. Only entries with this id change,
   * and only in their rights.
   */
  lemma PermissionChangeResult(delegates: seq<ProfileDelegate>, id: string, key: PermissionKey, value: bool)
    ensures var r := DelegatesAfterPermissionChange(delegates, id, key, value);
      && |r| == |delegates|
      && (forall i :: 0 <= i < |r| && delegates[i].id != id ==> r[i] == delegates[i])
      && (forall i :: 0 <= i < |r| && delegates[i].id == id ==>
            && r[i].id == id && r[i].name == delegates[i].name && r[i].email == delegates[i].email
            && (key == Write && value ==> r[i].canRead && r[i].canWrite)
            && (key == Read && !value ==> !r[i].canRead && !r[i].canWrite)
            && (key == Read && value ==> r[i].canRead && r[i].canWrite == delegates[i].canWrite)
            && (key == Write && !value ==> !r[i].canWrite && r[i].canRead == delegates[i].canRead))
  {
  }

  /** Every permission change keeps write-implies-read. */
  lemma PermissionChangeKeepsConsistent(delegates: seq<ProfileDelegate>, id: string, key: PermissionKey, value: bool)
    requires AllConsistent(delegates)
    ensures AllConsistent(DelegatesAfterPermissionChange(delegates, id, key, value))
  {
    PermissionChangeResult(delegates, id, key, value);
  }

  // ---------------------------------------------------------------- handleRemoveDelegate

  predicate KeepsDelegate(d: ProfileDelegate, id: string) {
    d.id != id
  }

  function DelegatesAfterRemove(delegates: seq<ProfileDelegate>, id: string): seq<ProfileDelegate> {
    Seqs.Filter(delegates, (d: ProfileDelegate) => KeepsDelegate(d, id))
  }

  /** Exactly the entries with this id go; the others stay, in order and as often as before. */
  lemma RemoveDelegateResult(delegates: seq<ProfileDelegate>, id: string)
    ensures forall i :: 0 <= i < |DelegatesAfterRemove(delegates, id)| ==> DelegatesAfterRemove(delegates, id)[i].id != id
    ensures forall d: ProfileDelegate :: d.id != id ==> multiset(DelegatesAfterRemove(delegates, id))[d] == multiset(delegates)[d]
    ensures Seqs.IsSubsequence(DelegatesAfterRemove(delegates, id), delegates)
    ensures AllConsistent(delegates) ==> AllConsistent(DelegatesAfterRemove(delegates, id))
  {
    var p := (d: ProfileDelegate) => KeepsDelegate(d, id);
    Seqs.FilterMultiset(delegates, p);
    Seqs.FilterIsSubsequence(delegates, p);
    Seqs.FilterMembership(delegates, p);
    var r := DelegatesAfterRemove(delegates, id);
    if AllConsistent(delegates) {
      forall i | 0 <= i < |r| ensures DelegateConsistent(r[i]) {
        assert r[i] in delegates;
      }
    }
  }

  // ---------------------------------------------------------------- form checkboxes

  /** The "Lesen" checkbox; `checked` is None when the event carries no value. */
  function ReadChecked(form: DelegateForm, checked: Option<bool>): DelegateForm {
    form.(canRead := checked.GetOr(false), canWrite := if checked == Some(true) then form.canWrite else false)
  }

  /** The "Schreiben" checkbox. */
  function WriteChecked(form: DelegateForm, checked: Option<bool>): DelegateForm {
    form.(canWrite := checked.GetOr(false), canRead := if checked == Some(true) then true else form.canRead)
  }

  /**
   * Unchecking read also unchecks write and checking write also checks read;
   * checking read and unchecking write leave the other box alone. Either way
   * the form keeps write-implies-read, and name and e-mail are untouched.
   */
  lemma CheckboxesKeepFormConsistent(form: DelegateForm, checked: Option<bool>)
    ensures var f := ReadChecked(form, checked);
      && f.canRead == (checked == Some(true)) && f.name == form.name && f.email == form.email
      && (checked != Some(true) ==> !f.canWrite)
      && (checked == Some(true) ==> f.canWrite == form.canWrite)
      && (FormConsistent(form) ==> FormConsistent(f))
    ensures var f := WriteChecked(form, checked);
      && f.canWrite == (checked == Some(true)) && f.name == form.name && f.email == form.email
      && (checked == Some(true) ==> f.canRead)
      && (checked != Some(true) ==> f.canRead == form.canRead)
      && (FormConsistent(form) ==> FormConsistent(f))
  {
  }

  // ---------------------------------------------------------------- the page state

  class ProfileState {
    var delegates: seq<ProfileDelegate>
    var form: DelegateForm
    var search: string
    var selectedAccount: Option<ProfileAccount>
    var suggestions: seq<ProfileAccount>
    var modalVisible: bool

    /** Both the list and the form keep write-implies-read. */
    predicate Valid()
      reads this
    {
      AllConsistent(delegates) && FormConsistent(form)
    }

    constructor ()
      ensures delegates == PROFILE_DELEGATES && form == INITIAL_FORM && search == ""
      ensures selectedAccount == None && suggestions == PROFILE_ACCOUNTS && !modalVisible
      ensures Valid()
    {
      delegates, form, search := PROFILE_DELEGATES, INITIAL_FORM, "";
      selectedAccount, suggestions, modalVisible := None, PROFILE_ACCOUNTS, false;
    }

    /**
     * `handleAddDelegate`: without a selected account nothing happens;
     * otherwise the payload is merged or appended and the dialog is reset.
     */
    method HandleAddDelegate()
      modifies this
      ensures old(selectedAccount).None? ==>
        && delegates == old(delegates) && form == old(form) && search == old(search)
        && selectedAccount == old(selectedAccount) && suggestions == old(suggestions) && modalVisible == old(modalVisible)
      ensures old(selectedAccount).Some? ==>
        && delegates == DelegatesAfterAdd(old(delegates), Payload(old(selectedAccount).value, old(form)))
        && form == INITIAL_FORM && search == "" && selectedAccount == None
        && suggestions == PROFILE_ACCOUNTS && !modalVisible
      ensures old(Valid()) ==> Valid()
    {
      if selectedAccount.None? {
        return;
      }
      var payload := Payload(selectedAccount.value, form);
      AddDelegateInvariants(delegates, payload);
      var index := EmailIndex(delegates, payload.email);
      if index >= 0 {
        var next := delegates;
        next := next[index := payload];
        delegates := next;
      } else {
        delegates := delegates + [payload];
      }
      form, search, selectedAccount := INITIAL_FORM, "", None;
      suggestions, modalVisible := PROFILE_ACCOUNTS, false;
    }

    method HandleDelegatePermissionChange(id: string, key: PermissionKey, value: bool)
      modifies this
      ensures delegates == DelegatesAfterPermissionChange(old(delegates), id, key, value)
      ensures form == old(form) && search == old(search) && selectedAccount == old(selectedAccount)
      ensures suggestions == old(suggestions) && modalVisible == old(modalVisible)
      ensures old(Valid()) ==> Valid()
    {
      if AllConsistent(delegates) {
        PermissionChangeKeepsConsistent(delegates, id, key, value);
      }
      delegates := DelegatesAfterPermissionChange(delegates, id, key, value);
    }

    method HandleRemoveDelegate(id: string)
      modifies this
      ensures delegates == DelegatesAfterRemove(old(delegates), id)
      ensures form == old(form) && search == old(search) && selectedAccount == old(selectedAccount)
      ensures suggestions == old(suggestions) && modalVisible == old(modalVisible)
      ensures old(Valid()) ==> Valid()
    {
      RemoveDelegateResult(delegates, id);
      delegates := DelegatesAfterRemove(delegates, id);
    }

    /** The read checkbox's `onChange`. */
    method ToggleRead(checked: Option<bool>)
      modifies this
      ensures form == ReadChecked(old(form), checked)
      ensures delegates == old(delegates) && search == old(search) && selectedAccount == old(selectedAccount)
      ensures suggestions == old(suggestions) && modalVisible == old(modalVisible)
      ensures old(Valid()) ==> Valid()
    {
      CheckboxesKeepFormConsistent(form, checked);
      form := ReadChecked(form, checked);
    }

    /** The write checkbox's `onChange`. */
    method ToggleWrite(checked: Option<bool>)
      modifies this
      ensures form == WriteChecked(old(form), checked)
      ensures delegates == old(delegates) && search == old(search) && selectedAccount == old(selectedAccount)
      ensures suggestions == old(suggestions) && modalVisible == old(modalVisible)
      ensures old(Valid()) ==> Valid()
    {
      CheckboxesKeepFormConsistent(form, checked);
      form := WriteChecked(form, checked);
    }
  }

  // ---------------------------------------------------------------- elapsedLabel

  /** Three numbers, each padded to two digits, joined by colons. */
  function ClockText(h: nat, m: nat, sec: nat): string {
    Text.PadStart2(Text.NatText(h)) + MinutesAndSeconds(m, sec)
  }

  /** The ":MM:SS" part of the label. */
  function MinutesAndSeconds(m: nat, sec: nat): string {
    ":" + Text.PadStart2(Text.NatText(m)) + ":" + Text.PadStart2(Text.NatText(sec))
  }

  /** `elapsedLabel`: whole hours, the minutes of the hour and the seconds of the minute. */
  function ElapsedLabel(seconds: nat): string {
    ClockText(seconds / 3600, seconds % 3600 / 60, seconds % 60)
  }

  /** Reads ":" followed by a decimal number. */
  function ReadColonNat(s: string): (r: Option<(nat, string)>)
    ensures r.Some? ==> |r.value.1| < |s|
  {
    if s == [] || s[0] != ':' then None else Text.ReadNat(s[1..])
  }

  /** Reads "H…H:MM:SS" back into seconds; minutes and seconds must be below 60. */
  function ParseElapsed(s: string): Option<nat> {
    match Text.ReadNat(s)
    case None => None
    case Some((h, r1)) =>
      match ReadColonNat(r1)
      case None => None
      case Some((m, r2)) =>
        match ReadColonNat(r2)
        case None => None
        case Some((sec, r3)) =>
          if r3 == [] && m < 60 && sec < 60 then Some(h * 3600 + m * 60 + sec) else None
  }

  /** A colon and a zero-padded number read back as that number. */
  lemma ReadColonPadded(n: nat, rest: string)
    requires !Text.StartsWithDigit(rest)
    ensures ReadColonNat(":" + Text.PadStart2(Text.NatText(n)) + rest) == Some((n, rest))
  {
    var p := Text.PadStart2(Text.NatText(n));
    var s := ":" + p + rest;
    assert s[0] == ':' && s[1..] == p + rest;
    Text.ReadPaddedNat(n, rest);
  }

  /** The seconds split into the three parts the label shows, and back. */
  lemma ElapsedParts(seconds: nat)
    ensures seconds % 3600 / 60 < 60 && seconds % 60 < 60
    ensures seconds == seconds / 3600 * 3600 + seconds % 3600 / 60 * 60 + seconds % 60
  {
    var r := seconds % 3600;
    assert seconds == seconds / 3600 * 3600 + r;
    assert r == r / 60 * 60 + r % 60;
    assert r % 60 == seconds % 60;
  }

  /** Minutes and seconds always take exactly two characters, hours at least two. */
  lemma ClockTextShape(h: nat, m: nat, sec: nat)
    requires m < 60 && sec < 60
    ensures var shown := ClockText(h, m, sec);
      && |shown| >= 8 && shown[|shown| - 3] == ':' && shown[|shown| - 6] == ':'
      && Text.AllDigits(shown[|shown| - 2..]) && Text.AllDigits(shown[|shown| - 5..|shown| - 3])
  {
    Text.NatTextBelowHundred(m);
    Text.NatTextBelowHundred(sec);
    var hh, mm, ss := Text.PadStart2(Text.NatText(h)), Text.PadStart2(Text.NatText(m)), Text.PadStart2(Text.NatText(sec));
    var shown := ClockText(h, m, sec);
    assert shown == hh + ":" + mm + ":" + ss;
    assert shown[|shown| - 2..] == ss;
    assert shown[|shown| - 5..|shown| - 3] == mm;
  }

  lemma ElapsedLabelShape(seconds: nat)
    ensures var shown := ElapsedLabel(seconds);
      && |shown| >= 8 && shown[|shown| - 3] == ':' && shown[|shown| - 6] == ':'
      && Text.AllDigits(shown[|shown| - 2..]) && Text.AllDigits(shown[|shown| - 5..|shown| - 3])
  {
    ElapsedParts(seconds);
    ClockTextShape(seconds / 3600, seconds % 3600 / 60, seconds % 60);
  }

  /** The three reads that ParseElapsed chains, one after the other. */
  lemma ParseElapsedOfParts(s: string, h: nat, m: nat, sec: nat, r1: string, r2: string)
    requires Text.ReadNat(s) == Some((h, r1))
    requires ReadColonNat(r1) == Some((m, r2))
    requires ReadColonNat(r2) == Some((sec, ""))
    requires m < 60 && sec < 60
    ensures ParseElapsed(s) == Some(h * 3600 + m * 60 + sec)
  {
  }

  lemma ReadHoursPart(h: nat, m: nat, sec: nat)
    ensures Text.ReadNat(ClockText(h, m, sec)) == Some((h, MinutesAndSeconds(m, sec)))
  {
    var r1 := MinutesAndSeconds(m, sec);
    assert ClockText(h, m, sec) == Text.PadStart2(Text.NatText(h)) + r1;
    Text.ReadPaddedNat(h, r1);
  }

  lemma ReadMinutesPart(m: nat, sec: nat)
    ensures ReadColonNat(MinutesAndSeconds(m, sec)) == Some((m, ":" + Text.PadStart2(Text.NatText(sec))))
  {
    var r2 := ":" + Text.PadStart2(Text.NatText(sec));
    assert MinutesAndSeconds(m, sec) == ":" + Text.PadStart2(Text.NatText(m)) + r2;
    ReadColonPadded(m, r2);
  }

  lemma ReadSecondsPart(sec: nat)
    ensures ReadColonNat(":" + Text.PadStart2(Text.NatText(sec))) == Some((sec, ""))
  {
    assert ":" + Text.PadStart2(Text.NatText(sec)) == ":" + Text.PadStart2(Text.NatText(sec)) + "";
    ReadColonPadded(sec, "");
  }

  lemma ClockTextRoundTrip(h: nat, m: nat, sec: nat)
    requires m < 60 && sec < 60
    ensures ParseElapsed(ClockText(h, m, sec)) == Some(h * 3600 + m * 60 + sec)
  {
    ReadHoursPart(h, m, sec);
    ReadMinutesPart(m, sec);
    ReadSecondsPart(sec);
    ParseElapsedOfParts(ClockText(h, m, sec), h, m, sec, MinutesAndSeconds(m, sec), ":" + Text.PadStart2(Text.NatText(sec)));
  }

  /** The label reads back as the number of seconds it was made from. */
  lemma ElapsedLabelRoundTrip(seconds: nat)
    ensures ParseElapsed(ElapsedLabel(seconds)) == Some(seconds)
  {
    ElapsedParts(seconds);
    ClockTextRoundTrip(seconds / 3600, seconds % 3600 / 60, seconds % 60);
  }

  /** One hour, two minutes and five seconds show as "01:02:05". */
  lemma ElapsedLabelExample()
    ensures ElapsedLabel(3725) == "01:02:05"
  {
    assert 3725 / 3600 == 1 && 3725 % 3600 / 60 == 2 && 3725 % 60 == 5;
    assert Text.NatText(1) == "1" && Text.NatText(2) == "2" && Text.NatText(5) == "5";
  }
}
