/**
 * The trip list page: the profiles the user may browse, the boat filter's
 * options, the multi-criterion trip filter and the CSV text of the export
 * (fields quoted with inner quotes doubled, `;` between fields, LF between
 * rows), together with a reader that recovers the rows from that text.
 */
module TripsPage {
  import opened Wrappers
  import Text
  import Seqs
  import opened LogbookStore

  // ---------------------------------------------------------------- profiles

  const READ_WRITE: string := "Lesen & Schreiben"
  const READ_ONLY: string := "Nur Lesen"

  /** An entry of the profile dropdown. */
  datatype ProfileOption = ProfileOption(value: string, labelText: string, rights: string)

  const MY_PROFILE: ProfileOption := ProfileOption("me", "Mein Profil", READ_WRITE)

  function DelegateOption(d: Delegate): ProfileOption {
    ProfileOption(d.id, d.name, if d.canWrite then READ_WRITE else READ_ONLY)
  }

  /**
   * `accessibleProfiles`: the user's own profile first, then one entry per
   * delegate in list order, labelled read-write exactly when the delegate may write.
   */
  function AccessibleProfiles(delegates: seq<Delegate>): (r: seq<ProfileOption>)
    ensures |r| == |delegates| + 1 && r[0] == MY_PROFILE
    ensures forall i :: 0 <= i < |delegates| ==> r[i + 1].value == delegates[i].id && r[i + 1].labelText == delegates[i].name
    ensures forall i :: 0 <= i < |delegates| ==> (r[i + 1].rights == READ_WRITE <==> delegates[i].canWrite)
    ensures forall i :: 0 <= i < |delegates| ==> (r[i + 1].rights == READ_ONLY <==> !delegates[i].canWrite)
  {
    [MY_PROFILE] + Seqs.Map(delegates, DelegateOption)
  }

  /** The store's two initial delegates: Nils Brenner may write, Mara Lenz may only read. */
  lemma InitialProfiles()
    ensures AccessibleProfiles(INITIAL_DELEGATES) == [
      MY_PROFILE,
      ProfileOption("delegate-1", "Nils Brenner", READ_WRITE),
      ProfileOption("delegate-2", "Mara Lenz", READ_ONLY)]
  {
  }

  /** `accessibleProfiles[0]?.value ?? "me"`: the profile the page starts on. */
  function FirstProfileValue(profiles: seq<ProfileOption>): string {
    if profiles == [] then "me" else profiles[0].value
  }

  predicate Offers(profiles: seq<ProfileOption>, profileId: string) {
    exists i :: 0 <= i < |profiles| && profiles[i].value == profileId
  }

  /** The effect that resets a profile id the dropdown no longer offers. */
  function CheckedProfileId(profiles: seq<ProfileOption>, profileId: string): string {
    if Offers(profiles, profileId) then profileId else FirstProfileValue(profiles)
  }

  /**
   * The page starts on the user's own profile. After the reset, the chosen
   * profile is one the dropdown offers: the old choice when it is the user's
   * own or a current delegate's id, otherwise the user's own.
   */
  lemma ProfileIdFallback(delegates: seq<Delegate>, profileId: string)
    ensures FirstProfileValue(AccessibleProfiles(delegates)) == "me"
    ensures Offers(AccessibleProfiles(delegates), CheckedProfileId(AccessibleProfiles(delegates), profileId))
    ensures CheckedProfileId(AccessibleProfiles(delegates), profileId) ==
      if profileId == "me" || exists i :: 0 <= i < |delegates| && delegates[i].id == profileId then profileId else "me"
  {
    var profiles := AccessibleProfiles(delegates);
    assert profiles[0].value == "me";
    if exists i :: 0 <= i < |delegates| && delegates[i].id == profileId {
      var i :| 0 <= i < |delegates| && delegates[i].id == profileId;
      assert profiles[i + 1].value == profileId;
    }
    if Offers(profiles, profileId) && profileId != "me" {
      var i :| 0 <= i < |profiles| && profiles[i].value == profileId;
      assert delegates[i - 1].id == profileId;
    }
  }

  // ---------------------------------------------------------------- boats

  datatype BoatOption = BoatOption(labelText: string, value: string)

  function TripBoat(t: Trip): string {
    t.boat
  }

  function BoatEntry(boat: string): BoatOption {
    BoatOption(boat, boat)
  }

  /** `boatOptions`: the trips' boats without repetition, each as label and value. */
  function BoatOptions(trips: seq<Trip>): seq<BoatOption> {
    Seqs.Map(Seqs.Distinct(Seqs.Map(trips, TripBoat)), BoatEntry)
  }

  /**
   * Every trip's boat is offered, only those boats are offered, each once with
   * the boat as label and value, and in order of first appearance: the options
   * of any prefix of the list come first.
   */
  lemma BoatOptionsResult(trips: seq<Trip>)
    ensures var opts := BoatOptions(trips);
      && (forall k :: 0 <= k < |opts| ==> opts[k].labelText == opts[k].value)
      && (forall k :: 0 <= k < |opts| ==> exists i :: 0 <= i < |trips| && trips[i].boat == opts[k].value)
      && (forall i :: 0 <= i < |trips| ==> BoatEntry(trips[i].boat) in opts)
      && (forall k, l :: 0 <= k < l < |opts| ==> opts[k] != opts[l])
      && (forall n :: 0 <= n <= |trips| ==> BoatOptions(trips[..n]) <= opts)
  {
    var boats := Seqs.Map(trips, TripBoat);
    var distinct := Seqs.Distinct(boats);
    var opts := BoatOptions(trips);
    forall k | 0 <= k < |opts|
      ensures exists i :: 0 <= i < |trips| && trips[i].boat == opts[k].value
    {
      assert distinct[k] in boats;
      var i :| 0 <= i < |boats| && boats[i] == distinct[k];
      assert trips[i].boat == opts[k].value;
    }
    forall i | 0 <= i < |trips| ensures BoatEntry(trips[i].boat) in opts {
      assert boats[i] in distinct;
      var k :| 0 <= k < |distinct| && distinct[k] == boats[i];
      assert opts[k] == BoatEntry(trips[i].boat);
    }
    forall k, l | 0 <= k < l < |opts| ensures opts[k] != opts[l] {
      assert distinct[k] != distinct[l];
    }
    forall n | 0 <= n <= |trips| ensures BoatOptions(trips[..n]) <= opts {
      Seqs.MapPrefix(trips, TripBoat, n);
      Seqs.DistinctOfPrefix(boats, n);
      Seqs.MapOfPrefix(Seqs.Distinct(boats[..n]), distinct, BoatEntry);
    }
  }

  lemma InitialBoats()
    ensures Seqs.Map(TRIPS, TripBoat) == ["Sun Odyssey 349", "Dehler 34", "Bavaria C38", "Hanse 388"]
  {
  }

  lemma DistinctInitialBoats()
    ensures Seqs.Distinct(["Sun Odyssey 349", "Dehler 34", "Bavaria C38", "Hanse 388"])
      == ["Sun Odyssey 349", "Dehler 34", "Bavaria C38", "Hanse 388"]
  {
    var boats := ["Sun Odyssey 349", "Dehler 34", "Bavaria C38", "Hanse 388"];
    forall i, j | 0 <= i < j < |boats| ensures boats[i] != boats[j] {
      assert boats[i][0] != boats[j][0];
    }
    Seqs.DistinctOfUnique(boats);
  }

  /** The store's four trips sail four different boats, offered in list order. */
  lemma InitialBoatOptions()
    ensures BoatOptions(TRIPS) == [
      BoatEntry("Sun Odyssey 349"), BoatEntry("Dehler 34"), BoatEntry("Bavaria C38"), BoatEntry("Hanse 388")]
  {
    InitialBoats();
    DistinctInitialBoats();
  }

  // ---------------------------------------------------------------- filter

  /**
   * The page's filter state. `boat` is null (None) or a boat name; the day
   * bounds are the start of the first day and the last millisecond of the
   * last day of the chosen range, when a date is chosen.
   */
  datatype TripFilter = TripFilter(
    search: string, boat: Option<string>, profileId: string, startBound: Option<int>, endBound: Option<int>)

  /** The title or the id contains the search term, both lower-cased. */
  predicate MatchesSearch(t: Trip, search: string, lower: string -> string) {
    Text.Contains(lower(t.title), lower(search)) || Text.Contains(lower(t.id), lower(search))
  }

  /** `boat ? trip.boat === boat : true`: null and "" select every boat. */
  predicate MatchesBoat(t: Trip, boat: Option<string>) {
    boat.None? || boat.value == "" || t.boat == boat.value
  }

  predicate WithinBounds(time: int, startBound: Option<int>, endBound: Option<int>) {
    (startBound.None? || time >= startBound.value) && (endBound.None? || time <= endBound.value)
  }

  /** `timeOf` stands for `new Date(trip.dateISO).getTime()`. */
  predicate TripMatches(t: Trip, f: TripFilter, lower: string -> string, timeOf: string -> int) {
    MatchesSearch(t, f.search, lower) && MatchesBoat(t, f.boat) && t.ownerId == f.profileId
    && WithinBounds(timeOf(t.dateISO), f.startBound, f.endBound)
  }

  /** `filteredTrips`. */
  function FilteredTrips(trips: seq<Trip>, f: TripFilter, lower: string -> string, timeOf: string -> int): seq<Trip> {
    Seqs.Filter(trips, (t: Trip) => TripMatches(t, f, lower, timeOf))
  }

  /**
   * The filtered list keeps the original order, and holds a trip (as often as
   * the list does) exactly when its title or id contains the search term, the
   * boat filter is empty or names its boat, it belongs to the chosen profile,
   * and its time lies within each bound that is set.
   */
  lemma FilteredTripsResult(trips: seq<Trip>, f: TripFilter, lower: string -> string, timeOf: string -> int)
    ensures Seqs.IsSubsequence(FilteredTrips(trips, f, lower, timeOf), trips)
    ensures forall t :: t in FilteredTrips(trips, f, lower, timeOf) <==>
      && t in trips
      && (Text.Contains(lower(t.title), lower(f.search)) || Text.Contains(lower(t.id), lower(f.search)))
      && (f.boat.None? || f.boat.value == "" || t.boat == f.boat.value)
      && t.ownerId == f.profileId
      && (f.startBound.None? || timeOf(t.dateISO) >= f.startBound.value)
      && (f.endBound.None? || timeOf(t.dateISO) <= f.endBound.value)
    ensures forall t :: TripMatches(t, f, lower, timeOf) ==>
      multiset(FilteredTrips(trips, f, lower, timeOf))[t] == multiset(trips)[t]
  {
    var p := (t: Trip) => TripMatches(t, f, lower, timeOf);
    Seqs.FilterIsSubsequence(trips, p);
    Seqs.FilterMembership(trips, p);
    Seqs.FilterMultiset(trips, p);
  }

  predicate OwnedBy(t: Trip, profileId: string) {
    t.ownerId == profileId
  }

  /** With no search term, no boat and no dates, the list is exactly the profile's trips. */
  lemma UnfilteredTrips(trips: seq<Trip>, profileId: string, lower: string -> string, timeOf: string -> int)
    requires lower("") == ""
    ensures FilteredTrips(trips, TripFilter("", None, profileId, None, None), lower, timeOf)
      == Seqs.Filter(trips, (t: Trip) => OwnedBy(t, profileId))
  {
    var f := TripFilter("", None, profileId, None, None);
    forall i | 0 <= i < |trips| ensures TripMatches(trips[i], f, lower, timeOf) == OwnedBy(trips[i], profileId) {
      Text.ContainsEmpty(lower(trips[i].title));
    }
    Seqs.FilterCongruent(trips, (t: Trip) => TripMatches(t, f, lower, timeOf), (t: Trip) => OwnedBy(t, profileId));
  }

  /** Unfiltered, the user's own profile shows its two trips of the store, newest first. */
  lemma MyTrips(lower: string -> string, timeOf: string -> int)
    requires lower("") == ""
    ensures FilteredTrips(TRIPS, TripFilter("", None, "me", None, None), lower, timeOf) == [TRIPS[0], TRIPS[3]]
  {
    UnfilteredTrips(TRIPS, "me", lower, timeOf);
    var p := (t: Trip) => OwnedBy(t, "me");
    assert TRIPS[..4] == TRIPS;
    assert TRIPS[..3][..2][..1] == [TRIPS[0]];
    assert TRIPS[..3][..2] == TRIPS[..2];
    assert TRIPS[..4][..3] == TRIPS[..3];
    assert Seqs.Filter(TRIPS[..1], p) == [TRIPS[0]];
    assert Seqs.Filter(TRIPS[..2], p) == [TRIPS[0]];
    assert Seqs.Filter(TRIPS[..3], p) == [TRIPS[0]];
  }

  // ---------------------------------------------------------------- CSV

  /** `col.replace(/"/g, '""')`. */
  function DoubleQuotes(s: string): string {
    if s == [] then [] else (if s[0] == '"' then "\"\"" else [s[0]]) + DoubleQuotes(s[1..])
  }

  /** A field as the export writes it: in quotes, inner quotes doubled. */
  function Quote(field: string): string {
    "\"" + DoubleQuotes(field) + "\""
  }

  /** One line: the quoted fields joined by `;`. */
  function CsvRow(fields: seq<string>): string {
    Text.Join(Seqs.Map(fields, Quote), ";")
  }

  /** The whole file: the lines joined by LF. */
  function CsvText(rows: seq<seq<string>>): string {
    Text.Join(Seqs.Map(rows, CsvRow), "\n")
  }

  /** Reads the inside of a quoted field up to its closing quote; `""` stands for one quote. */
  function ReadQuotedBody(s: string): (r: Option<(string, string)>)
    ensures r.Some? ==> |r.value.1| < |s|
    decreases |s|
  {
    if s == [] then None
    else if s[0] == '"' then
      if |s| >= 2 && s[1] == '"' then
        match ReadQuotedBody(s[2..])
        case None => None
        case Some((f, rest)) => Some(("\"" + f, rest))
      else Some(("", s[1..]))
    else
      match ReadQuotedBody(s[1..])
      case None => None
      case Some((f, rest)) => Some(([s[0]] + f, rest))
  }

  /** Reads one quoted field and returns the text after it. */
  function ReadField(s: string): (r: Option<(string, string)>)
    ensures r.Some? ==> |r.value.1| < |s|
  {
    if s == [] || s[0] != '"' then None else ReadQuotedBody(s[1..])
  }

  /** Reads a file of quoted fields separated by `;` and lines separated by LF. */
  function ParseCsv(s: string): (r: Option<seq<seq<string>>>)
    ensures r.Some? ==> |r.value| >= 1 && |r.value[0]| >= 1
    decreases |s|
  {
    match ReadField(s)
    case None => None
    case Some((f, rest)) =>
      if rest == [] then Some([[f]])
      else if rest[0] == ';' then
        match ParseCsv(rest[1..])
        case None => None
        case Some(rows) => Some([[f] + rows[0]] + rows[1..])
      else if rest[0] == '\n' then
        match ParseCsv(rest[1..])
        case None => None
        case Some(rows) => Some([[f]] + rows)
      else None
  }

  predicate NoQuoteFirst(s: string) {
    s == [] || s[0] != '"'
  }

  lemma {:induction false} ReadQuotedBodyOf(x: string, rest: string)
    requires NoQuoteFirst(rest)
    ensures ReadQuotedBody(DoubleQuotes(x) + "\"" + rest) == Some((x, rest))
    decreases |x|
  {
    var s := DoubleQuotes(x) + "\"" + rest;
    if x == [] {
      assert s == "\"" + rest;
      assert s[1..] == rest;
    } else if x[0] == '"' {
      assert s == "\"\"" + (DoubleQuotes(x[1..]) + "\"" + rest);
      assert s[2..] == DoubleQuotes(x[1..]) + "\"" + rest;
      ReadQuotedBodyOf(x[1..], rest);
      assert "\"" + x[1..] == x;
    } else {
      assert s == [x[0]] + (DoubleQuotes(x[1..]) + "\"" + rest);
      assert s[1..] == DoubleQuotes(x[1..]) + "\"" + rest;
      ReadQuotedBodyOf(x[1..], rest);
      assert [x[0]] + x[1..] == x;
    }
  }

  /**
   * Stripping the outer quotes and collapsing each doubled quote gives the
   * field back, whatever it contains, and the reader stops right after it.
   */
  lemma QuoteRoundTrip(x: string, rest: string)
    requires NoQuoteFirst(rest)
    ensures ReadField(Quote(x) + rest) == Some((x, rest))
  {
    var s := Quote(x) + rest;
    assert s[1..] == DoubleQuotes(x) + "\"" + rest;
    ReadQuotedBodyOf(x, rest);
  }

  lemma CsvRowCons(fields: seq<string>)
    requires |fields| >= 1
    ensures CsvRow(fields) == if |fields| == 1 then Quote(fields[0]) else Quote(fields[0]) + ";" + CsvRow(fields[1..])
  {
    assert Seqs.Map(fields, Quote)[1..] == Seqs.Map(fields[1..], Quote);
  }

  lemma CsvTextCons(rows: seq<seq<string>>)
    requires |rows| >= 1
    ensures CsvText(rows) == if |rows| == 1 then CsvRow(rows[0]) else CsvRow(rows[0]) + "\n" + CsvText(rows[1..])
  {
    assert Seqs.Map(rows, CsvRow)[1..] == Seqs.Map(rows[1..], CsvRow);
  }

  /** What may follow a line: nothing, or LF and further lines that read as `more`. */
  predicate LinesAfter(tail: string, more: seq<seq<string>>) {
    (tail == [] && more == []) || (tail != [] && tail[0] == '\n' && ParseCsv(tail[1..]) == Some(more))
  }

  /** A field that ends its line. */
  lemma ParseLastField(s: string, f: string, tail: string, more: seq<seq<string>>)
    requires ReadField(s) == Some((f, tail)) && LinesAfter(tail, more)
    ensures ParseCsv(s) == Some([[f]] + more)
  {
    if tail == [] {
      assert [[f]] + more == [[f]];
    }
  }

  /** A field followed by `;` and the rest of its line. */
  lemma ParseInnerField(s: string, f: string, after: string, row: seq<string>, more: seq<seq<string>>)
    requires ReadField(s) == Some((f, after)) && after != [] && after[0] == ';'
    requires ParseCsv(after[1..]) == Some([row] + more)
    ensures ParseCsv(s) == Some([[f] + row] + more)
  {
    assert ([row] + more)[0] == row && ([row] + more)[1..] == more;
  }

  lemma {:induction false} ParseRow(fields: seq<string>, tail: string, more: seq<seq<string>>)
    requires |fields| >= 1 && LinesAfter(tail, more)
    ensures ParseCsv(CsvRow(fields) + tail) == Some([fields] + more)
    decreases |fields|
  {
    CsvRowCons(fields);
    if |fields| == 1 {
      assert [fields[0]] == fields;
      QuoteRoundTrip(fields[0], tail);
      ParseLastField(CsvRow(fields) + tail, fields[0], tail, more);
    } else {
      var after := ";" + (CsvRow(fields[1..]) + tail);
      assert CsvRow(fields) + tail == Quote(fields[0]) + after;
      QuoteRoundTrip(fields[0], after);
      assert after[1..] == CsvRow(fields[1..]) + tail;
      ParseRow(fields[1..], tail, more);
      ParseInnerField(CsvRow(fields) + tail, fields[0], after, fields[1..], more);
      assert [fields[0]] + fields[1..] == fields;
    }
  }

  /** A single line reads back as itself. */
  lemma ParseSingleLine(row: seq<string>)
    requires |row| >= 1
    ensures ParseCsv(CsvRow(row)) == Some([row])
  {
    assert CsvRow(row) + "" == CsvRow(row);
    assert LinesAfter("", []);
    ParseRow(row, "", []);
    assert [row] + [] == [row];
  }

  /** A line, LF, and text that reads as `more`: the line's fields, then `more`. */
  lemma ParseLineThenRest(row: seq<string>, restText: string, more: seq<seq<string>>)
    requires |row| >= 1 && ParseCsv(restText) == Some(more)
    ensures ParseCsv(CsvRow(row) + "\n" + restText) == Some([row] + more)
  {
    var tail := "\n" + restText;
    assert tail[1..] == restText;
    assert LinesAfter(tail, more);
    assert CsvRow(row) + "\n" + restText == CsvRow(row) + tail;
    ParseRow(row, tail, more);
  }

  /** Reading the export text gives back exactly the rows it was made of. */
  lemma {:induction false} CsvRoundTrip(rows: seq<seq<string>>)
    requires |rows| >= 1 && forall i :: 0 <= i < |rows| ==> |rows[i]| >= 1
    ensures ParseCsv(CsvText(rows)) == Some(rows)
    decreases |rows|
  {
    CsvTextCons(rows);
    if |rows| == 1 {
      ParseSingleLine(rows[0]);
      assert [rows[0]] == rows;
    } else {
      CsvRoundTrip(rows[1..]);
      ParseLineThenRest(rows[0], CsvText(rows[1..]), rows[1..]);
      assert [rows[0]] + rows[1..] == rows;
    }
  }

  const CSV_HEADER: seq<string> := ["ID", "Titel", "Boot", "Distanz (km)", "Dauer", "Start", "Ziel", "Datum", "Status"]

  /**
   * The nine columns of one trip. `fixed1` stands for `distance.toFixed(1)`
   * and `localeDate` for the German date of `dateISO`.
   */
  function TripRow(t: Trip, fixed1: real -> string, localeDate: string -> string): seq<string> {
    [t.id, t.title, t.boat, fixed1(t.distance), t.duration, t.start, t.target, localeDate(t.dateISO), StatusText(t.status)]
  }

  /** The CSV text of `handleExport`; None when there is nothing to export (no download). */
  function ExportCsv(filtered: seq<Trip>, fixed1: real -> string, localeDate: string -> string): Option<string> {
    if filtered == [] then None
    else Some(CsvText([CSV_HEADER] + Seqs.Map(filtered, (t: Trip) => TripRow(t, fixed1, localeDate))))
  }

  /**
   * An empty list exports nothing. Otherwise the text reads back as the
   * header followed by one nine-field row per trip, in the list's order.
   */
  lemma ExportCsvResult(filtered: seq<Trip>, fixed1: real -> string, localeDate: string -> string)
    ensures ExportCsv(filtered, fixed1, localeDate).None? <==> filtered == []
    ensures filtered != [] ==>
      match ParseCsv(ExportCsv(filtered, fixed1, localeDate).value)
      case None => false
      case Some(rows) =>
        && |rows| == |filtered| + 1 && rows[0] == CSV_HEADER
        && (forall i :: 0 <= i < |filtered| ==> rows[i + 1] == TripRow(filtered[i], fixed1, localeDate))
        && (forall i :: 0 <= i < |rows| ==> |rows[i]| == 9)
  {
    if filtered != [] {
      var rows := [CSV_HEADER] + Seqs.Map(filtered, (t: Trip) => TripRow(t, fixed1, localeDate));
      assert forall i :: 0 <= i < |rows| ==> |rows[i]| == 9;
      CsvRoundTrip(rows);
    }
  }
}
