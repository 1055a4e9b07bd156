# Sailing-club logbook: scoring engine, stores and page logic in Dafny

This project models the logic of a sailing club's logbook web application
(trip recording, crew management, delegated logbook access and a points
ruleset) in Dafny, and proves what that logic promises.

- **Points engine** (`PointsEngine`, `PointsProperties`). The trip form turns
  the kilometres sailed per water category and nine bonus counters into an
  ordered breakdown of line items and a total.
  - `ComputeBreakdown` is the form's two `forEach` passes with the `switch`
    on the bonus id, written as loops that push rows.
  - It is proved equal to the table-driven specification `Breakdown`.
  - `PointsProperties` proves the order of rows, when each row appears and
    what it holds, the shape checks, the sum of rounded rows, monotonicity
    and the worked scenarios.
- **Rule catalog** (`PointsConfig`): the four distance rules and the nine
  bonus rules, with their ids, rates, shapes and categories.
- **Stores**:
  - `LogbookStore` holds the accounts, delegates, tracks, training groups and
    trips. It is a class whose methods are the store's `set(state => …)`
    updaters, each specified by a function on the old lists.
  - `TrackingStore` is the module-level track list with its two snapshots.
  - `Tracks` holds the list updaters and `formatDurationMinutes` that both
    stores share.
- **Profile page** (`ProfilePage`):
  - the page's own delegate list, upserted by e-mail;
  - the permission toggles;
  - the add-delegate form's checkboxes;
  - the `HH:MM:SS` label of a running recording.
- **New-trip form** (`NewTrip`): crew editing, account search, the training
  group picker and the clamps of the four-step wizard.
- **Trip list** (`TripsPage`):
  - the profile dropdown and its fallback;
  - the boat options and the multi-criterion filter;
  - the CSV text of the export, with a reader proving that the text gives back
    its rows.
- **Navigation shell** (`AppShell`): active-entry path matching, hiding the
  navigation on the auth pages, and the mobile bar.
- **Catalog page** (`PointsPage`): the distance tag, the bonus rules grouped by
  category, and the points label of each bonus rule.

Amounts are exact reals. `Numbers.Round2` is `Math.round(x * 100) / 100`,
written as `Floor(x * 100 + 1/2) / 100`, and `Numbers.NumberText` is
JavaScript's `String(x)` for amounts with at most two decimals whose
magnitude is below 10^21.

The profile page's upsert and the logbook store's upsert treat the id
differently:
- On the profile page, the payload is spread over the old entry. This
  overwrites the entry's id with the account id.
- The logbook store keeps the old delegate id.

Both behaviours are modelled as written.

## Model

| member | source | states |
|---|---|---|
| PointsConfig.DistanceCatalogIds | data/points-config.ts:31-59 | four distance rules with distinct ids: inland, inlandOptimist, sea, upstream, in the order of the id union |
| PointsConfig.DistanceCatalogRates | data/points-config.ts:31-59 | every distance rate is positive: 1, 2, 1 and 3 points per km |
| PointsConfig.BonusCatalogIds | data/points-config.ts:61-141 | nine bonus rules, ids distinct, listed in the order of the id union (lines 9-18) |
| PointsConfig.StructuredBonusShapes | data/points-config.ts:67-101 | engineKm has a per-km rate of 0.2; mastHandling, lock and longVoyageExtra have per-occurrence rates of 2, 4 and 10 |
| PointsConfig.FlatBonusShapes | data/points-config.ts:92-137 | longVoyageBase, trailerTransport, communityEvent, youthTraining and regattaDuty have flat points of 20, 50, 20, 25 and 25 |
| PointsConfig.BonusCategories | data/points-config.ts:61-141 | three operation rules, then four voyage rules, then two volunteering rules |
| PointsConfig.BonusUnitLabels | data/points-config.ts:61-104 | the unit labels of the rate rules (km, Vorgänge, Schleusen, weitere 100 km) |
| PointsConfig.CatalogTitles | data/points-config.ts:31-95 | the titles shown in the worked breakdowns |
| PointsEngine.CreateInitialDistances | app/new-trip/page.tsx:180-187 | every catalog id, and only those, is present with 0 km |
| PointsEngine.ConfiguredRate | app/new-trip/page.tsx:341-431 | a rate taken from a rate shape is never 0: the source tests these rates for truthiness |
| PointsEngine.BonusContribution | app/new-trip/page.tsx:341-431 | the `switch` computes the value of the table-driven specification, and for a positive value its detail text |
| PointsEngine.PushDistanceRows | app/new-trip/page.tsx:323-334 | the distance loop appends exactly the specification's distance rows to what it started with |
| PointsEngine.PushBonusRows | app/new-trip/page.tsx:336-441 | the bonus loop appends exactly the specification's bonus rows |
| PointsEngine.ComputeBreakdown | app/new-trip/page.tsx:315-444 | `pointsBreakdown` equals `Breakdown`: the distance rows, then the bonus rows |
| PointsEngine.Breakdown | app/new-trip/page.tsx:315-444 | the specification of `pointsBreakdown`: distance rows, then bonus rows; `ComputeBreakdown` is proved equal to it, and its order, rows and total are stated by `BreakdownInCatalogOrder`, `DistanceRowPresence`, `BonusRowPresence` and `TotalIsSumOfRows` |
| Numbers.Round2 | app/new-trip/page.tsx:326 | the result is a whole number of hundredths within half a hundredth of the input |
| Numbers.Round2Idempotent | app/new-trip/page.tsx:349 | rounding twice is rounding once, so engineKm's double rounding is harmless |
| Numbers.JsRemainder | lib/tracking-store.ts:65 | JavaScript `%`: the dividend is the divisor times the truncated quotient plus the remainder, and the remainder has the dividend's sign |
| Numbers.NumberTextOfInt | app/new-trip/page.tsx:330 | a whole number renders as its digits, with no decimals (as JavaScript does below 10^21) |
| PointsProperties.DistanceRowsOrdered | app/new-trip/page.tsx:323-334 | every distance row comes from a catalog rule, and rows are in strictly increasing catalog position |
| PointsProperties.BonusRowsOrdered | app/new-trip/page.tsx:336-441 | every bonus row comes from a catalog rule, and rows are in strictly increasing catalog position |
| PointsProperties.BreakdownInCatalogOrder | app/new-trip/page.tsx:315-444 | distance rows come before bonus rows, each part in catalog order, so no rule appears twice |
| PointsProperties.DistanceRowPresence | app/new-trip/page.tsx:323-334 | a distance rule has exactly one row iff its km (missing = 0) is positive; the row holds round2(km × rate) and the raw km in its detail |
| PointsProperties.BonusRowPresence | app/new-trip/page.tsx:336-441 | a bonus rule has exactly one row iff its computed value is positive; the row holds round2(value) and the rule's detail text |
| PointsProperties.EngineKmRow | app/new-trip/page.tsx:342-352 | the engineKm row holds round2(km × perKm) even though the value is rounded twice |
| PointsProperties.ShapeMismatchNoRow | app/new-trip/page.tsx:341-431 | a rule whose points lack the shape its id needs yields no row, including a per-km or per-occurrence rate that is absent or 0 |
| PointsProperties.LongVoyageBaseRow | app/new-trip/page.tsx:378-384 | longVoyageBase yields its flat points with detail "Langtörn über 200 km" iff the flag is set |
| PointsProperties.CatalogLongVoyageBaseRow | app/new-trip/page.tsx:378-384 | with the catalog rule, the flag earns exactly 20 points |
| PointsProperties.CatalogMatchesDispatch | data/points-config.ts:61-141 | every catalog bonus rule has the shape that the dispatch expects for its id |
| PointsEngine.TotalPoints | app/new-trip/page.tsx:446-449 | `totalPoints`: the sum of the rows' points, stated by `TotalOfConcat`, `TotalIsSumOfRows` and `TotalMonotone` |
| PointsProperties.TotalOfConcat | app/new-trip/page.tsx:446-449 | the total of two row lists laid end to end is the sum of their totals |
| PointsProperties.TotalIsSumOfRows | app/new-trip/page.tsx:446-449 | the total is the plain sum of the rounded rows and is itself a whole number of hundredths |
| PointsProperties.InitialInputsScoreNothing | app/new-trip/page.tsx:180-199 | with the form's starting values the breakdown is empty and the total 0 |
| PointsProperties.TotalMonotone | app/new-trip/page.tsx:315-449 | raising any km, counter or flag never lowers the total, for any catalog with non-negative distance rates |
| PointsProperties.InlandTwelveKm | app/new-trip/page.tsx:323-334 | 12 inland km score 12 points with detail "12 km × 1 Punkte" |
| PointsProperties.EngineTenKm | app/new-trip/page.tsx:342-352 | 10 engine km at 0.2 per km score 2 points with detail "10 km × 0.2 Punkte" |
| PointsProperties.ThreeLocks | app/new-trip/page.tsx:366-377 | 3 locks at 4 points score 12 with detail "3 Schleusen × 4 Punkte" |
| PointsProperties.MixedTrip | app/new-trip/page.tsx:315-449 | 5 inland km, 10 engine km and the long-voyage flag give exactly three rows of 5, 2 and 20 points, totalling 27 |
| Accounts.DirectoryIdsDistinct | lib/stores/logbook-store.ts:57-93 | the directory's account ids are distinct |
| NewTrip.Trunc | app/new-trip/page.tsx:494 | `Math.trunc` rounds toward zero, on both sides of 0 |
| NewTrip.AddCrewMember | app/new-trip/page.tsx:481-499 | a blank name changes nothing; otherwise one member is appended with its name, role, guest flag and account, and a truncated birth year only for a guest who gave one |
| NewTrip.StoredWholeBirthYear | app/new-trip/page.tsx:494 | a guest's whole-number birth year is stored unchanged |
| NewTrip.RemoveCrewMember | app/new-trip/page.tsx:539-546 | drops the member at the index and keeps the order of the rest; an index out of range changes nothing |
| NewTrip.RemoveAddedMember | app/new-trip/page.tsx:481-546 | removing the last position after adding a member restores the crew |
| NewTrip.FilterAccounts | app/new-trip/page.tsx:501-511 | `filterAccounts`, stated by `FilterAccountsResult` |
| NewTrip.FilterAccountsResult | app/new-trip/page.tsx:501-511 | an empty query returns the directory; otherwise exactly the accounts whose lower-cased name or e-mail contains the query, in directory order, each as often as listed |
| NewTrip.TrainingGroupCrew | app/new-trip/page.tsx:459-473 | the crew after `handleTrainingGroupChange`, stated by `TrainingGroupCrewResult` and `YouthGroupCrew` |
| NewTrip.TrainingGroupCrewResult | app/new-trip/page.tsx:459-473 | no group empties the crew, an unknown id keeps it, a known id copies the first matching group's members |
| NewTrip.YouthGroupCrew | app/new-trip/page.tsx:131-178 | choosing "youth-a" crews the three members of Jugend Team A |
| NewTrip.NextStep | app/new-trip/page.tsx:454-455 | one step forward, never past the last |
| NewTrip.PreviousStep | app/new-trip/page.tsx:456-457 | one step back, never before the first |
| NewTrip.StepClamps | app/new-trip/page.tsx:454-457 | both moves stay among the four steps, move by one except at the ends, and undo each other away from the ends |
| Tracks.WithTrack | lib/stores/logbook-store.ts:270-273 | the new track comes first and the old tracks follow in order |
| Tracks.WithoutTrack | lib/tracking-store.ts:57-59 | `tracks.filter(t => t.id !== id)`, stated by `WithoutTrackResult`, `WithoutTrackIdempotent` and `RemoveUndoesAdd` |
| Tracks.WithoutTrackResult | lib/stores/logbook-store.ts:274-277 | removes every track with the id and nothing else, keeping the order and multiplicity of the others |
| Tracks.WithoutTrackIdempotent | lib/tracking-store.ts:57-60 | removing an id twice is removing it once |
| Tracks.RemoveUndoesAdd | lib/tracking-store.ts:53-60 | removing a freshly added track with a new id restores the list |
| Tracks.FormatDurationMinutes | lib/tracking-store.ts:63-67 | `formatDurationMinutes`, stated by `FormatShortDuration`, `FormatLongDuration`, `FormatDurationRoundTrip` and `FormatNegativeDuration` |
| Tracks.FormatShortDuration | lib/tracking-store.ts:63-67 | under an hour only "<m> min" is shown, and it reads back as m |
| Tracks.FormatLongDuration | lib/stores/logbook-store.ts:258-262 | from one hour on, "<m div 60> h <m mod 60> min" is shown, and it reads back as m |
| Tracks.FormatDurationRoundTrip | lib/tracking-store.ts:63-67 | every non-negative duration text reads back as its minutes |
| Tracks.FormatNegativeDuration | lib/tracking-store.ts:63-67 | a negative duration shows only JavaScript's non-positive remainder, with no hours |
| Tracks.InitialTrackDurations | lib/tracking-store.ts:9-31 | the seed tracks show as "1 h 25 min", "1 h 10 min" and "6 h 5 min" |
| TrackingStore.TrackingStore.constructor | lib/tracking-store.ts:35 | the list starts as the three seed tracks |
| TrackingStore.TrackingStore.GetSnapshot | lib/tracking-store.ts:47-49 | the current list |
| TrackingStore.TrackingStore.GetServerSnapshot | lib/tracking-store.ts:50-52 | always the seed tracks |
| TrackingStore.TrackingStore.AddTrack | lib/tracking-store.ts:53-56 | the list becomes the new track followed by the old list |
| TrackingStore.TrackingStore.RemoveTrack | lib/tracking-store.ts:57-60 | the list loses exactly the tracks with the id |
| TrackingStore.AddThenRemove | lib/tracking-store.ts:35-60 | adding then removing a new track leaves the current snapshot equal to the seed tracks; the server snapshot never moves |
| LogbookStore.InitialDelegatesValid | lib/stores/logbook-store.ts:119-136 | the seed delegates satisfy write-implies-read and have one entry per account |
| LogbookStore.AccountIndex | lib/stores/logbook-store.ts:280 | the position of the first account with the id, or -1 when there is none |
| LogbookStore.DelegateIndex | lib/stores/logbook-store.ts:284-286 | the position of the first delegate for the account, or -1 when there is none |
| LogbookStore.DelegateRecord | lib/stores/logbook-store.ts:287-297 | the stored record always satisfies write-implies-read |
| LogbookStore.DelegatesAfterAdd | lib/stores/logbook-store.ts:278-304 | the delegates after `addDelegate`, stated by `AddDelegateUnknownAccount`, `AddDelegateReplaces`, `AddDelegateAppends`, `AddDelegateKeepsInvariants` and `AddDelegateIdempotent` |
| LogbookStore.AddDelegateUnknownAccount | lib/stores/logbook-store.ts:281-283 | an account id not in the directory changes nothing |
| LogbookStore.AddDelegateReplaces | lib/stores/logbook-store.ts:284-302 | an existing delegate is replaced at the same index, keeping its id, with the account's name and e-mail and the rights; length and all other entries are unchanged |
| LogbookStore.AddDelegateAppends | lib/stores/logbook-store.ts:303 | a known account without a delegate gets one record appended under the fresh id |
| LogbookStore.AddDelegateKeepsInvariants | lib/stores/logbook-store.ts:278-304 | adding keeps write-implies-read for all delegates and one delegate per account |
| LogbookStore.AddDelegateIdempotent | lib/stores/logbook-store.ts:278-304 | adding the same account twice is adding it once |
| LogbookStore.DelegatesAfterUpdate | lib/stores/logbook-store.ts:305-325 | the delegates after `updateDelegatePermissions`, stated by `UpdatePermissionsResult` and `UpdatePermissionsKeepsInvariant` |
| LogbookStore.UpdatePermissionsResult | lib/stores/logbook-store.ts:305-325 | only delegates with the id change, and only in their rights; an absent right keeps its value; write implies read afterwards |
| LogbookStore.UpdatePermissionsKeepsInvariant | lib/stores/logbook-store.ts:305-325 | updating keeps write-implies-read and one delegate per account; with no rights given, a consistent list is unchanged |
| LogbookStore.DelegatesAfterRemove | lib/stores/logbook-store.ts:326-329 | the delegates after `removeDelegate`, stated by `RemoveDelegateResult` |
| LogbookStore.RemoveDelegateResult | lib/stores/logbook-store.ts:326-329 | removes exactly the delegates with the id, keeping order, multiplicity and write-implies-read of the rest, and one delegate per account |
| LogbookStore.RemoveKeepsUniqueAccounts | lib/stores/logbook-store.ts:326-329 | removing by id leaves at most one delegate per account when there was at most one before |
| LogbookStore.LogbookStore.constructor | lib/stores/logbook-store.ts:264-269 | the store starts on the seed directory, delegates, tracks, training groups and trips, and is valid |
| LogbookStore.LogbookStore.AddTrack | lib/stores/logbook-store.ts:270-273 | prepends the track; nothing else changes |
| LogbookStore.LogbookStore.RemoveTrack | lib/stores/logbook-store.ts:274-277 | removes the tracks with the id; nothing else changes |
| LogbookStore.LogbookStore.AddDelegate | lib/stores/logbook-store.ts:278-304 | the copied array, overwritten at the found index or extended, equals the specification's upsert; other fields are unchanged and validity is kept |
| LogbookStore.LogbookStore.UpdateDelegatePermissions | lib/stores/logbook-store.ts:305-325 | the delegates become the specification's update; other fields are unchanged and validity is kept |
| LogbookStore.LogbookStore.RemoveDelegate | lib/stores/logbook-store.ts:326-329 | the delegates lose exactly the id; other fields are unchanged and validity is kept |
| LogbookStore.GrantKim | lib/stores/logbook-store.ts:278-325 | granting read and then write to a new account on the seed store appends one entry, which ends with both rights |
| ProfilePage.InitialStateConsistent | app/profile/page.tsx:51-80 | the seed delegates and the empty form satisfy write-implies-read, and the e-mails are unique |
| ProfilePage.EmailIndex | app/profile/page.tsx:169-171 | the position of the first delegate with the e-mail, or -1 |
| ProfilePage.Payload | app/profile/page.tsx:161-167 | the submitted entry carries the account's id, name and e-mail and the form's rights; a consistent form gives a consistent entry |
| ProfilePage.DelegatesAfterAdd | app/profile/page.tsx:168-178 | the `setDelegates` updater of `handleAddDelegate`, stated by `AddDelegateMerges`, `AddDelegateAppends` and `AddDelegateInvariants` |
| ProfilePage.AddDelegateMerges | app/profile/page.tsx:168-176 | an e-mail already listed: its first entry becomes the payload in place and nothing else moves |
| ProfilePage.AddDelegateAppends | app/profile/page.tsx:177-178 | a new e-mail: the payload is appended |
| ProfilePage.AddDelegateInvariants | app/profile/page.tsx:168-178 | adding keeps write-implies-read and unique e-mails, and adding twice is adding once |
| ProfilePage.DelegatesAfterPermissionChange | app/profile/page.tsx:213-232 | the updater of `handleDelegatePermissionChange`, stated by `PermissionChangeResult` and `PermissionChangeKeepsConsistent` |
| ProfilePage.PermissionChangeResult | app/profile/page.tsx:213-232 | granting write grants read, revoking read revokes write, any other change sets only that right; only entries with the id change |
| ProfilePage.PermissionChangeKeepsConsistent | app/profile/page.tsx:213-232 | every permission change keeps write-implies-read |
| ProfilePage.DelegatesAfterRemove | app/profile/page.tsx:234-236 | the updater of `handleRemoveDelegate`, stated by `RemoveDelegateResult` |
| ProfilePage.RemoveDelegateResult | app/profile/page.tsx:234-236 | removes exactly the entries with the id, keeping order, multiplicity and consistency of the rest |
| ProfilePage.ReadChecked | app/profile/page.tsx:333-339 | the read checkbox's form update, stated by `CheckboxesKeepFormConsistent` |
| ProfilePage.WriteChecked | app/profile/page.tsx:347-353 | the write checkbox's form update, stated by `CheckboxesKeepFormConsistent` |
| ProfilePage.CheckboxesKeepFormConsistent | app/profile/page.tsx:329-354 | unchecking read unchecks write, checking write checks read, the other two clicks touch one box; the form keeps write-implies-read |
| ProfilePage.ProfileState.constructor | app/profile/page.tsx:51-87 | the page starts with the seed delegates, an empty form and a closed dialog, and is valid |
| ProfilePage.ProfileState.HandleAddDelegate | app/profile/page.tsx:157-189 | without a selected account nothing changes; otherwise the payload is merged or appended, the dialog resets, and validity is kept |
| ProfilePage.ProfileState.HandleDelegatePermissionChange | app/profile/page.tsx:213-232 | the delegates become the specified permission change; nothing else changes |
| ProfilePage.ProfileState.HandleRemoveDelegate | app/profile/page.tsx:234-236 | the delegates lose exactly the id; nothing else changes |
| ProfilePage.ProfileState.ToggleRead | app/profile/page.tsx:333-339 | the form takes the read-checkbox update; nothing else changes |
| ProfilePage.ProfileState.ToggleWrite | app/profile/page.tsx:347-353 | the form takes the write-checkbox update; nothing else changes |
| ProfilePage.ElapsedLabel | app/profile/page.tsx:113-124 | `elapsedLabel`, stated by `ElapsedLabelShape`, `ElapsedLabelRoundTrip` and `ElapsedLabelExample` |
| ProfilePage.ElapsedLabelShape | app/profile/page.tsx:113-124 | the label is hours, minutes and seconds, each zero-padded to two digits and joined by colons |
| ProfilePage.ElapsedLabelRoundTrip | app/profile/page.tsx:113-124 | the label reads back as the number of seconds it was made from |
| ProfilePage.ElapsedLabelExample | app/profile/page.tsx:113-124 | 3725 seconds show as "01:02:05" |
| TripsPage.AccessibleProfiles | app/trips/page.tsx:38-48 | "me" first, then one entry per delegate in order, read-write iff the delegate may write, read-only otherwise |
| TripsPage.InitialProfiles | app/trips/page.tsx:38-48 | with the seed delegates the dropdown has three entries: me, Nils Brenner (read-write) and Mara Lenz (read-only) |
| TripsPage.CheckedProfileId | app/trips/page.tsx:54-58 | the profile id the reset effect leaves, stated by `ProfileIdFallback` |
| TripsPage.ProfileIdFallback | app/trips/page.tsx:50-58 | the page starts on "me"; after the reset the chosen profile is always offered: the old one if still offered, otherwise "me" |
| TripsPage.BoatOptions | app/trips/page.tsx:60-67 | `boatOptions`, stated by `BoatOptionsResult` and `InitialBoatOptions` |
| TripsPage.BoatOptionsResult | app/trips/page.tsx:60-67 | every trip's boat is offered, only those, each once with label = value, in order of first appearance |
| TripsPage.InitialBoatOptions | app/trips/page.tsx:60-67 | the seed trips give four boat options in list order |
| TripsPage.FilteredTrips | app/trips/page.tsx:69-112 | `filteredTrips`, stated by `FilteredTripsResult`, `UnfilteredTrips` and `MyTrips` |
| TripsPage.FilteredTripsResult | app/trips/page.tsx:69-112 | order-preserving; a trip is kept (as often as listed) iff search, boat, owner and both date bounds all match |
| TripsPage.UnfilteredTrips | app/trips/page.tsx:92-111 | with no search, boat or dates, the result is exactly the profile's trips |
| TripsPage.MyTrips | app/trips/page.tsx:92-111 | unfiltered, "me" sees its two seed trips |
| TripsPage.Quote | app/trips/page.tsx:144 | one quoted CSV field, stated by `QuoteRoundTrip` |
| TripsPage.QuoteRoundTrip | app/trips/page.tsx:144 | stripping the outer quotes and collapsing doubled quotes recovers any field |
| TripsPage.CsvText | app/trips/page.tsx:141-147 | the `;`/LF join of quoted rows, stated by `CsvRoundTrip` |
| TripsPage.CsvRoundTrip | app/trips/page.tsx:141-147 | the `;`/LF text of quoted fields reads back as exactly its rows |
| TripsPage.ExportCsv | app/trips/page.tsx:114-147 | the CSV text of `handleExport`, or none for an empty list, stated by `ExportCsvResult` |
| TripsPage.ExportCsvResult | app/trips/page.tsx:114-147 | nothing is exported for an empty list; otherwise the text reads back as the header plus one nine-field row per trip, in order |
| AppShell.IsActivePath | components/app-shell.tsx:29-34 | `isActivePath`, stated by `RootActive`, `OtherActive` and `TripsSegments` |
| AppShell.RootActive | components/app-shell.tsx:29-32 | the root entry is active only on "/" |
| AppShell.OtherActive | components/app-shell.tsx:33 | any other entry is active exactly on its own path and the paths below it |
| AppShell.TripsSegments | components/app-shell.tsx:29-34 | "/tripsX" does not activate "/trips"; "/trips/TR-1093" does |
| AppShell.HiddenBy | components/app-shell.tsx:40-48 | true iff the path is a blocked path or lies below one |
| AppShell.HideNavigation | components/app-shell.tsx:40-48 | `hideNavigation`, stated by `HiddenBy` and `HideNavigationOnAuth` |
| AppShell.HideNavigationOnAuth | components/app-shell.tsx:27-48 | the navigation is hidden exactly on "/auth" and below it |
| AppShell.MobileNavItems | components/app-shell.tsx:50-53 | `mobileNavItems`, stated by `MobileNavItemsValue` |
| AppShell.MobileNavItemsValue | components/app-shell.tsx:50-53 | the mobile bar is the sidebar without "/new-trip", in order (four entries) |
| PointsPage.DistanceTag | app/points/page.tsx:67 | the tag of a distance rule, stated by `DistanceTagPlural`, `WholeRateTag` and `CatalogDistanceTags` |
| PointsPage.DistanceTagPlural | app/points/page.tsx:67 | "Punkt" iff the rate is exactly one point per km, otherwise "Punkte" |
| PointsPage.CatalogDistanceTags | app/points/page.tsx:67 | the four catalog tags: 1 Punkt, 2 Punkte, 1 Punkt, 3 Punkte pro km |
| PointsPage.WholeRateTag | app/points/page.tsx:67 | a whole rate shows its digits, with "Punkt" for exactly one |
| PointsPage.PointsLabelOf | app/points/page.tsx:107-121 | what `pointsLabel` shows, stated by `LabelSeparator`, `FlatLabel`, `OccurrenceLabel` and the catalog label lemmas; `PointsLabel` is proved equal to it |
| PointsPage.PointsLabel | app/points/page.tsx:107-121 | the label built with `parts.push` and `join` equals the specified label |
| PointsPage.LabelSeparator | app/points/page.tsx:111-120 | both rates present: per-km part, " • ", per-occurrence part; neither present: empty |
| PointsPage.OccurrenceLabel | app/points/page.tsx:111-120 | a whole per-occurrence rate shows as "<n> Punkte pro <unit>" |
| PointsPage.FlatLabel | app/points/page.tsx:108-109 | a flat rule shows "<n> Punkte" |
| PointsPage.TenthLabel | app/points/page.tsx:111-120 | a per-km rate of 0.2 shows "0.2 Punkte pro km" |
| PointsPage.EngineKmLabel | app/points/page.tsx:111-120 | the catalog's engineKm label |
| PointsPage.MastHandlingLabel | app/points/page.tsx:111-120 | the catalog's mastHandling label |
| PointsPage.LockLabel | app/points/page.tsx:111-120 | the catalog's lock label |
| PointsPage.LongVoyageExtraLabel | app/points/page.tsx:111-120 | the catalog's longVoyageExtra label |
| PointsPage.CatalogFlatLabels | app/points/page.tsx:108-109 | the five flat catalog rules show 20, 50, 20, 25 and 25 Punkte |
| PointsPage.PushRule | app/points/page.tsx:76-88 | one step of the reduce keeps the grouping invariant |
| PointsPage.GroupByCategory | app/points/page.tsx:76-88 | the buckets come in order of first appearance of their category, and each holds exactly that category's rules in catalog order |
| PointsPage.BucketsPartition | app/points/page.tsx:76-88 | every rule's category has a bucket, a bucket holds a rule iff the rule has its category, and catalog order is kept |
| PointsPage.CatalogBuckets | app/points/page.tsx:76-88 | the catalog groups as operation (rules 1-3), voyage (4-7) and volunteering (8-9), in that order |

## Left out

- Floating point: amounts are exact reals. `Math.round(x * 100) / 100` is modelled without IEEE-754 artefacts, and `toFixed` is not modelled (a parameter `fixed1` stands for `distance.toFixed(1)` in the CSV).
- Numbers.NumberText: exact only for whole numbers of hundredths below 10^21 in magnitude. Digits beyond the second decimal are not rendered. From 10^21 on, JavaScript prints exponent form ("1e+21"), while NumberText prints every digit. The trip form accepts at most two decimals and every catalog rate has at most one.
- Numbers.NumberTextOfInt: states the digit rendering for every whole number. JavaScript's `String` agrees only below 10^21.
- Dates: parsing `dateISO`, time zones, day bounds and `toLocaleDateString` are parameters of the trip filter and the export (`timeOf`, `startBound`/`endBound`, `localeDate`).
- Case folding: `toLowerCase` is a parameter `lower` of the account search and the trip filter.
- Clocks, randomness and ids: `Date.now()` ids, `crypto.randomUUID` and `setInterval` become a `freshId` parameter or are not modelled.
- Reactivity plumbing: the tracking store's subscriber set and `emitChange`, zustand's `createStore`, `useSyncExternalStore` and the `useLogbookStore` slice cache are not modelled.
- React effect scheduling is not modelled:
  - the profile page's effect that sets read when write is set without it (app/profile/page.tsx:99-103) is not modelled; the checkbox updaters already keep write-implies-read (`ProfilePage.CheckboxesKeepFormConsistent`), so from a consistent form the effect never fires;
  - the trip list's profile reset is modelled only as the value it computes (`TripsPage.CheckedProfileId`), not as an effect.
- Export I/O: `Blob`, the object URL, the link click and the file name are not modelled; only the CSV text is.
- Rendering: JSX, the UI widgets, routing and the category labels and icons of the catalog page are not modelled.
- Profile recording: the simulated distance and speed of a recording, and saving it as a track, are floating-point display logic and are not modelled.
- Profile account search: `handleAccountSearch` and the autocomplete handlers on the profile page are not modelled. Only the selected account and the form reach the delegate logic.
- New-trip autocomplete: the training-account autocomplete handlers of the trip form are not modelled (the directory filter itself is).
- Duplicate code: `formatDurationMinutes` exists in both stores with the same body. It is modelled once as `Tracks.FormatDurationMinutes`.
