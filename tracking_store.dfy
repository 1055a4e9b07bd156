/**
 * The module-level track list behind `trackingStore`: the current list is
 * replaced on every add and remove, while the server snapshot is always the
 * seed list.
 */
module TrackingStore {
  import opened Tracks

  class TrackingStore {
    /** The `let tracks` list the store reassigns. */
    var tracks: seq<GpsTrack>

    /** The list starts out as a copy of the seed tracks. */
    constructor ()
      ensures tracks == INITIAL_TRACKS
    {
      tracks := INITIAL_TRACKS;
    }

    /** `getSnapshot`: the current list. */
    function GetSnapshot(): (r: seq<GpsTrack>)
      reads this
      ensures r == tracks
    {
      tracks
    }

    /** `getServerSnapshot`: the seed list, whatever has been added or removed since. */
    function GetServerSnapshot(): (r: seq<GpsTrack>)
      ensures r == INITIAL_TRACKS
    {
      INITIAL_TRACKS
    }

    /** `addTrack`: the new track goes in front. */
    method AddTrack(track: GpsTrack)
      modifies this
      ensures tracks == WithTrack(old(tracks), track)
    {
      tracks := [track] + tracks;
    }

    /** `removeTrack`: every track with this id goes. */
    method RemoveTrack(id: string)
      modifies this
      ensures tracks == WithoutTrack(old(tracks), id)
    {
      tracks := WithoutTrack(tracks, id);
    }
  }

  /**
   * A fresh store shows the seed tracks; after a track is added and removed
   * again the current list is back to them, and the server snapshot never moved.
   */
  method AddThenRemove(track: GpsTrack) returns (store: TrackingStore)
    requires forall i :: 0 <= i < |INITIAL_TRACKS| ==> INITIAL_TRACKS[i].id != track.id
    ensures store.GetSnapshot() == INITIAL_TRACKS
    ensures store.GetServerSnapshot() == INITIAL_TRACKS
  {
    store := new TrackingStore();
    assert store.GetSnapshot() == store.GetServerSnapshot();
    store.AddTrack(track);
    assert store.GetSnapshot()[0] == track;
    store.RemoveTrack(track.id);
    RemoveUndoesAdd(INITIAL_TRACKS, track);
  }
}
