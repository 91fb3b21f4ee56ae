/** Media tracks as the page sees them. Every track object the page has ever
    obtained sits in an append-only registry and is named by its position
    there; streams and peer-connection senders hold these names, so that the
    track a sender carries and the track in the local stream are one object. */
module Media {
  import opened Wrappers

  datatype Kind = Audio | Video

  /** Whether a track was captured on this device or received from the peer. */
  datatype Origin = Local | Remote

  /** A track: its kind and device label (`name`), the `enabled` flag the mute buttons
      flip, whether it is still `live` (not stopped or ended), where it came
      from, and whether its `onended` handler re-invokes the screen-share
      toggle. */
  datatype Track = Track(kind: Kind, name: string, enabled: bool, live: bool, origin: Origin, hooked: bool)

  /** What a capture device yields for one track. */
  datatype Source = Source(kind: Kind, name: string)

  type TrackId = nat

  /** Every name in `ids` denotes a registered track. */
  predicate Refs(reg: seq<Track>, ids: seq<TrackId>) {
    forall i | 0 <= i < |ids| :: ids[i] < |reg|
  }

  /** A track as a capture hands it over: live and enabled. */
  function Fresh(src: Source, origin: Origin, hooked: bool): Track {
    Track(src.kind, src.name, true, true, origin, hooked)
  }

  /** Registers the tracks of a new capture under the next free names. */
  function Register(reg: seq<Track>, srcs: seq<Source>, origin: Origin): (r: seq<Track>)
    ensures |r| == |reg| + |srcs|
    ensures r[..|reg|] == reg
    ensures forall i | 0 <= i < |srcs| :: r[|reg| + i] == Fresh(srcs[i], origin, false)
  {
    reg + seq(|srcs|, i requires 0 <= i < |srcs| => Fresh(srcs[i], origin, false))
  }

  /** The names `Register` hands out for `n` tracks. */
  function NamesFrom(start: nat, n: nat): (ids: seq<TrackId>)
    ensures |ids| == n
    ensures forall i | 0 <= i < n :: ids[i] == start + i
  {
    seq(n, i requires 0 <= i < n => start + i)
  }

  /** `getTracks().forEach(track => track.stop())`: every listed track stops
      being live; no other track or field changes. */
  function StopAll(reg: seq<Track>, ids: seq<TrackId>): (r: seq<Track>)
    ensures |r| == |reg|
    ensures forall t | 0 <= t < |reg| && t in ids :: r[t] == reg[t].(live := false)
    ensures forall t | 0 <= t < |reg| && t !in ids :: r[t] == reg[t]
  {
    seq(|reg|, t requires 0 <= t < |reg| => if t in ids then reg[t].(live := false) else reg[t])
  }

  /** `getVideoTracks().forEach(track => track.stop())`, for any one kind. */
  function StopKind(reg: seq<Track>, ids: seq<TrackId>, kind: Kind): (r: seq<Track>)
    ensures |r| == |reg|
    ensures forall t | 0 <= t < |reg| && t in ids && reg[t].kind == kind :: r[t] == reg[t].(live := false)
    ensures forall t | 0 <= t < |reg| && !(t in ids && reg[t].kind == kind) :: r[t] == reg[t]
  {
    seq(|reg|, t requires 0 <= t < |reg| =>
      if t in ids && reg[t].kind == kind then reg[t].(live := false) else reg[t])
  }

  /** Stopping the listed tracks of a kind after more tracks were registered
      affects only the earlier part of the registry. */
  lemma StopKindAppend(reg: seq<Track>, more: seq<Track>, ids: seq<TrackId>, kind: Kind)
    requires Refs(reg, ids)
    ensures StopKind(reg + more, ids, kind)[..|reg|] == StopKind(reg, ids, kind)
    ensures StopKind(reg + more, ids, kind)[|reg|..] == more
  {
    var r := StopKind(reg + more, ids, kind);
    forall t | |reg| <= t < |r| ensures r[t] == (reg + more)[t] {
      assert t !in ids;
    }
    assert r[|reg|..] == more;
  }

  /** Position in `ids` of the first track of the given kind
      (`getAudioTracks()[0]`, `getVideoTracks()[0]`, `getSenders().find`). */
  function FirstOfKind(reg: seq<Track>, ids: seq<TrackId>, kind: Kind): (k: Option<nat>)
    requires Refs(reg, ids)
    ensures k.Some? ==> k.value < |ids| && reg[ids[k.value]].kind == kind
    ensures k.Some? ==> forall j | 0 <= j < k.value :: reg[ids[j]].kind != kind
    ensures k.None? ==> forall j | 0 <= j < |ids| :: reg[ids[j]].kind != kind
    decreases |ids|
  {
    if |ids| == 0 then None
    else if reg[ids[0]].kind == kind then Some(0)
    else match FirstOfKind(reg, ids[1..], kind)
      case None => None
      case Some(k) => Some(k + 1)
  }

  /** `FirstOfKind` depends only on the kinds of the listed tracks. */
  lemma {:induction false} FirstOfKindByKinds(reg: seq<Track>, reg': seq<Track>, ids: seq<TrackId>, kind: Kind)
    requires Refs(reg, ids) && Refs(reg', ids)
    requires forall i | 0 <= i < |ids| :: reg[ids[i]].kind == reg'[ids[i]].kind
    ensures FirstOfKind(reg, ids, kind) == FirstOfKind(reg', ids, kind)
    decreases |ids|
  {
    if |ids| > 0 {
      FirstOfKindByKinds(reg, reg', ids[1..], kind);
    }
  }

  /** Appending a track does not change which track of a kind comes first,
      once there is one. */
  lemma {:induction false} FirstOfKindAppend(reg: seq<Track>, ids: seq<TrackId>, t: TrackId, kind: Kind)
    requires Refs(reg, ids) && t < |reg|
    requires FirstOfKind(reg, ids, kind).Some?
    ensures Refs(reg, ids + [t])
    ensures FirstOfKind(reg, ids + [t], kind) == FirstOfKind(reg, ids, kind)
    decreases |ids|
  {
    if reg[ids[0]].kind != kind {
      assert (ids + [t])[1..] == ids[1..] + [t];
      FirstOfKindAppend(reg, ids[1..], t, kind);
    }
  }

  /** Flips the `enabled` flag of one track. */
  function Flip(reg: seq<Track>, t: TrackId): (r: seq<Track>)
    requires t < |reg|
    ensures |r| == |reg| && r[t].enabled == !reg[t].enabled
    ensures r[t] == reg[t].(enabled := r[t].enabled)
    ensures forall u | 0 <= u < |reg| && u != t :: r[u] == reg[u]
  {
    reg[t := reg[t].(enabled := !reg[t].enabled)]
  }

  /** Flipping the same track twice restores the registry. */
  lemma FlipTwice(reg: seq<Track>, t: TrackId)
    requires t < |reg|
    ensures Flip(Flip(reg, t), t) == reg
  {
    assert Flip(Flip(reg, t), t)[t] == reg[t];
  }
}
