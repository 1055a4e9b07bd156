/**
 * Recorded GPS tracks as both stores hold them: the seed list, the two list
 * updaters (`[track, ...tracks]` and `tracks.filter(t => t.id !== id)`) and
 * `formatDurationMinutes`.
 */
module Tracks {
  import opened Wrappers
  import Text
  import Numbers
  import Seqs

  datatype GpsTrack = GpsTrack(id: string, title: string, startedAt: string, durationMinutes: int, distanceKm: real)

  const INITIAL_TRACKS: seq<GpsTrack> := [
    GpsTrack("TRACK-1093", "Abendrunde Havel", "2024-06-12T18:05:00.000Z", 85, 16.4),
    GpsTrack("TRACK-1092", "Training Spinnaker", "2024-06-09T14:15:00.000Z", 70, 12.1),
    GpsTrack("TRACK-1091", "Küstentörn Rügen", "2024-06-07T09:00:00.000Z", 365, 58.4)
  ]

  /** `addTrack`: the new track first, the old ones after it in their order. */
  function WithTrack(tracks: seq<GpsTrack>, track: GpsTrack): (r: seq<GpsTrack>)
    ensures |r| == |tracks| + 1 && r[0] == track && r[1..] == tracks
  {
    [track] + tracks
  }

  predicate KeepsTrack(t: GpsTrack, id: string) {
    t.id != id
  }

  /** `removeTrack`: the tracks whose id differs from `id`. */
  function WithoutTrack(tracks: seq<GpsTrack>, id: string): seq<GpsTrack> {
    Seqs.Filter(tracks, (t: GpsTrack) => KeepsTrack(t, id))
  }

  /**
   * Removing drops every track with that id and nothing else: each other
   * track stays as often as it was there, and the survivors keep their order.
   */
  lemma WithoutTrackResult(tracks: seq<GpsTrack>, id: string)
    ensures forall i :: 0 <= i < |WithoutTrack(tracks, id)| ==> WithoutTrack(tracks, id)[i].id != id
    ensures forall t: GpsTrack :: t.id != id ==> multiset(WithoutTrack(tracks, id))[t] == multiset(tracks)[t]
    ensures Seqs.IsSubsequence(WithoutTrack(tracks, id), tracks)
    ensures (forall i :: 0 <= i < |tracks| ==> tracks[i].id != id) ==> WithoutTrack(tracks, id) == tracks
  {
    var p := (t: GpsTrack) => KeepsTrack(t, id);
    Seqs.FilterMultiset(tracks, p);
    Seqs.FilterIsSubsequence(tracks, p);
    if forall i :: 0 <= i < |tracks| ==> tracks[i].id != id {
      Seqs.FilterAll(tracks, p);
    }
  }

  /** Removing an id twice is removing it once. */
  lemma WithoutTrackIdempotent(tracks: seq<GpsTrack>, id: string)
    ensures WithoutTrack(WithoutTrack(tracks, id), id) == WithoutTrack(tracks, id)
  {
    Seqs.FilterAll(WithoutTrack(tracks, id), (t: GpsTrack) => KeepsTrack(t, id));
  }

  /** Removing a freshly added track's id undoes the addition when no old track had that id. */
  lemma RemoveUndoesAdd(tracks: seq<GpsTrack>, track: GpsTrack)
    requires forall i :: 0 <= i < |tracks| ==> tracks[i].id != track.id
    ensures WithoutTrack(WithTrack(tracks, track), track.id) == tracks
  {
    var p := (t: GpsTrack) => KeepsTrack(t, track.id);
    Seqs.FilterConcat([track], tracks, p);
    assert Seqs.Filter([track], p) == [] by {
      assert [track][..0] == [];
    }
    Seqs.FilterAll(tracks, p);
  }

  // ---------------------------------------------------------------- durations

  /** `formatDurationMinutes`: "<h> h <m> min" with floored hours, or "<m> min" when there are none. */
  function FormatDurationMinutes(minutes: int): string {
    var hrs := minutes / 60;
    var mins := Numbers.JsRemainder(minutes, 60);
    if hrs > 0 then Text.IntText(hrs) + " h " + Text.IntText(mins) + " min"
    else Text.IntText(mins) + " min"
  }

  /** Reads "<h> h <m> min" or "<m> min" back into minutes. */
  function ParseDuration(s: string): Option<int> {
    match Text.ReadNat(s)
    case None => None
    case Some((a, rest)) =>
      if rest == " min" then Some(a)
      else if |rest| >= 3 && rest[..3] == " h " then
        match Text.ReadNat(rest[3..])
        case None => None
        case Some((b, tail)) => if tail == " min" && b < 60 then Some(a * 60 + b) else None
      else None
  }

  /** Under an hour only the minutes are shown. */
  lemma FormatShortDuration(minutes: int)
    requires 0 <= minutes < 60
    ensures FormatDurationMinutes(minutes) == Text.NatText(minutes) + " min"
    ensures ParseDuration(FormatDurationMinutes(minutes)) == Some(minutes)
  {
    assert minutes / 60 == 0 && Numbers.JsRemainder(minutes, 60) == minutes;
    ShortDurationText(minutes);
  }

  lemma ShortDurationText(m: nat)
    ensures ParseDuration(Text.NatText(m) + " min") == Some(m)
  {
    Text.ReadNatText(m, " min");
  }

  /** The hours branch of ParseDuration, in terms of its two reads. */
  lemma ParseHoursBranch(s: string, h: nat, tail: string, m: nat)
    requires Text.ReadNat(s) == Some((h, tail))
    requires tail != " min" && |tail| >= 3 && tail[..3] == " h "
    requires Text.ReadNat(tail[3..]) == Some((m, " min")) && m < 60
    ensures ParseDuration(s) == Some(h * 60 + m)
  {
  }

  /** The part after the hours: " h ", then the minutes, then " min". */
  lemma MinutesTail(m: nat)
    ensures var tail := " h " + Text.NatText(m) + " min";
      && tail != " min" && |tail| >= 3 && tail[..3] == " h " && !Text.StartsWithDigit(tail)
      && Text.ReadNat(tail[3..]) == Some((m, " min"))
  {
    var tail := " h " + Text.NatText(m) + " min";
    assert tail[1] != " min"[1];
    assert tail[3..] == Text.NatText(m) + " min";
    Text.ReadNatText(m, " min");
  }

  /** A text "<h> h " followed by minutes reads back when the minutes do. */
  lemma ParseHoursPrefix(h: nat, tail: string, m: nat)
    requires tail == " h " + Text.NatText(m) + " min" && m < 60
    ensures ParseDuration(Text.NatText(h) + tail) == Some(h * 60 + m)
  {
    MinutesTail(m);
    Text.ReadNatText(h, tail);
    ParseHoursBranch(Text.NatText(h) + tail, h, tail, m);
  }

  /** "<h> h <m> min" reads back as h hours and m minutes. */
  lemma LongDurationText(h: nat, m: nat)
    requires m < 60
    ensures ParseDuration(Text.NatText(h) + " h " + Text.NatText(m) + " min") == Some(h * 60 + m)
  {
    var tail := " h " + Text.NatText(m) + " min";
    assert Text.NatText(h) + " h " + Text.NatText(m) + " min" == Text.NatText(h) + tail;
    ParseHoursPrefix(h, tail, m);
  }

  /** From one hour on, floored hours and the remaining minutes are shown. */
  lemma FormatLongDuration(minutes: int)
    requires minutes >= 60
    ensures FormatDurationMinutes(minutes) == Text.NatText(minutes / 60) + " h " + Text.NatText(minutes % 60) + " min"
    ensures ParseDuration(FormatDurationMinutes(minutes)) == Some(minutes)
  {
    var h, m := minutes / 60, minutes % 60;
    assert h > 0 && Numbers.JsRemainder(minutes, 60) == m;
    LongDurationText(h, m);
    assert h * 60 + m == minutes;
  }

  /** Every non-negative duration reads back as the same number of minutes. */
  lemma FormatDurationRoundTrip(minutes: int)
    requires minutes >= 0
    ensures ParseDuration(FormatDurationMinutes(minutes)) == Some(minutes)
  {
    if minutes < 60 {
      FormatShortDuration(minutes);
    } else {
      FormatLongDuration(minutes);
    }
  }

  /** A negative duration has no hours part: only the (non-positive) JavaScript remainder is shown. */
  lemma FormatNegativeDuration(minutes: int)
    requires minutes < 0
    ensures FormatDurationMinutes(minutes) == Text.IntText(-((-minutes) % 60)) + " min"
  {
  }

  /** The seed tracks: 85, 70 and 365 minutes show as "1 h 25 min", "1 h 10 min" and "6 h 5 min". */
  lemma InitialTrackDurations()
    ensures FormatDurationMinutes(INITIAL_TRACKS[0].durationMinutes) == "1 h 25 min"
    ensures FormatDurationMinutes(INITIAL_TRACKS[1].durationMinutes) == "1 h 10 min"
    ensures FormatDurationMinutes(INITIAL_TRACKS[2].durationMinutes) == "6 h 5 min"
  {
    assert Text.NatText(1) == "1" && Text.NatText(6) == "6" && Text.NatText(5) == "5";
    assert Text.NatText(25) == "25" && Text.NatText(10) == "10";
  }
}
