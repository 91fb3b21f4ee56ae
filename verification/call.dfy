/** The call session of the application object: starting, accepting,
    rejecting and ending a call, the simulated answer and incoming ring, the
    peer connection's state changes, and the microphone, camera, speaker and
    screen-share buttons.

    What the browser decides (whether camera access is granted, whether an
    offer or answer can be created, which tracks a capture yields) arrives
    as a parameter of the operation it affects. */
module Call {
  import opened Wrappers
  import opened Text
  import opened Media

  datatype Role = Caller | Callee

  /** The two signaling states the session reaches. */
  datatype Signaling = Stable | HaveLocalOffer

  datatype Connection = New | Connecting | Connected | Disconnected | Failed | Closed

  /** A peer connection: which side created it, its signaling and connection
      states, whether `close()` was called on it, and the track each of its
      senders carries (one sender per track added). */
  datatype Peer = Peer(role: Role, signaling: Signaling, connection: Connection, closed: bool, senders: seq<TrackId>)

  /** What the incoming-call dialog shows about the caller. */
  datatype CallerCard = CallerCard(avatar: string, username: string)

  /** Outcome of `getUserMedia` for a call: the tracks obtained, or a refusal. */
  datatype Acquisition = Granted(sources: seq<Source>) | Refused

  /** Outcome of the capture a screen-share toggle asks for: the video track's
      name and any further tracks the capture yields, or a refusal. */
  datatype VideoCapture = Captured(name: string, extras: seq<Source>) | CaptureRefused

  /** The session fields of the application object. `tracks` is the registry
      of every track obtained so far; `retired` lists the peer connections the
      session has let go of, in order; `pendingAnswers` counts the scheduled
      simulated answers that have not fired yet. */
  datatype CallState = CallState(
    tracks: seq<Track>,
    local: Option<seq<TrackId>>,
    remote: Option<seq<TrackId>>,
    peer: Option<Peer>,
    retired: seq<Peer>,
    channel: Option<string>,
    inCall: bool,
    isCaller: bool,
    incoming: Option<CallerCard>,
    speakerMuted: bool,
    pendingAnswers: nat)

  const Idle := CallState([], None, None, None, [], None, false, false, None, false, 0)

  /** Label of the data channel the caller opens. */
  const ChatChannel := "chat"

  /** A video track whose name contains this is taken to be a screen capture. */
  const ScreenMarker := "screen"

  /** Every track name the session holds is registered. */
  predicate Wf(st: CallState) {
    && (st.local.Some? ==> Refs(st.tracks, st.local.value))
    && (st.remote.Some? ==> Refs(st.tracks, st.remote.value))
    && (st.peer.Some? ==> Refs(st.tracks, st.peer.value.senders))
  }

  predicate InStream(s: Option<seq<TrackId>>, t: TrackId) {
    s.Some? && t in s.value
  }

  /** `close()`: the connection is closed for good. */
  function Shut(p: Peer): Peer {
    p.(closed := true, connection := Closed)
  }

  /** The retired list after the current connection is replaced without
      being closed. */
  function Abandon(st: CallState): seq<Peer> {
    st.retired + (if st.peer.Some? then [st.peer.value] else [])
  }

  /** The retired list after the current connection is closed and dropped. */
  function Release(st: CallState): seq<Peer> {
    st.retired + (if st.peer.Some? then [Shut(st.peer.value)] else [])
  }

  /** `startCall`: nothing happens without a selected chat, during a call, or
      when media access is refused. Otherwise the captured tracks become the
      local stream, a caller connection sending exactly them replaces the old
      one (which is not closed) and opens the "chat" data channel, and the
      call counts as active only if the offer could be made; only then is an
      answer scheduled. */
  function StartCall(st: CallState, chatSelected: bool, media: Acquisition, offerOk: bool): (r: CallState)
    requires Wf(st)
    ensures Wf(r)
    ensures !chatSelected || st.inCall || media.Refused? ==> r == st
    ensures chatSelected && !st.inCall && media.Granted? ==>
      var n := |st.tracks|;
      var srcs := media.sources;
      && |r.tracks| == n + |srcs| && r.tracks[..n] == st.tracks
      && (forall i | 0 <= i < |srcs| :: r.tracks[n + i] == Fresh(srcs[i], Local, false))
      && r.local == Some(NamesFrom(n, |srcs|))
      && r.peer == Some(Peer(Caller, if offerOk then HaveLocalOffer else Stable, New, false, r.local.value))
      && r.retired == Abandon(st)
      && r.channel == Some(ChatChannel)
      && r.isCaller && r.inCall == offerOk
      && r.pendingAnswers == st.pendingAnswers + (if offerOk then 1 else 0)
      && r.remote == st.remote && r.incoming == st.incoming && r.speakerMuted == st.speakerMuted
  {
    if !chatSelected || st.inCall || media.Refused? then st
    else
      var ids := NamesFrom(|st.tracks|, |media.sources|);
      st.(tracks := Register(st.tracks, media.sources, Local),
          local := Some(ids),
          peer := Some(Peer(Caller, if offerOk then HaveLocalOffer else Stable, New, false, ids)),
          retired := Abandon(st),
          channel := Some(ChatChannel),
          inCall := offerOk,
          isCaller := true,
          pendingAnswers := st.pendingAnswers + (if offerOk then 1 else 0))
  }

  /** `acceptCall`: the existing local stream is reused, or one is captured;
      if that is refused nothing changes and the dialog stays up. Otherwise a
      callee connection sending the local tracks replaces the old one (which
      is not closed) and the call is active; the dialog closes only if the
      answer could be made. */
  function AcceptCall(st: CallState, media: Acquisition, answerOk: bool): (r: CallState)
    requires Wf(st)
    ensures Wf(r)
    ensures st.local.None? && media.Refused? ==> r == st
    ensures st.local.Some? ==> r.tracks == st.tracks && r.local == st.local
    ensures st.local.None? && media.Granted? ==>
      var n := |st.tracks|;
      && |r.tracks| == n + |media.sources| && r.tracks[..n] == st.tracks
      && (forall i | 0 <= i < |media.sources| :: r.tracks[n + i] == Fresh(media.sources[i], Local, false))
      && r.local == Some(NamesFrom(n, |media.sources|))
    ensures st.local.Some? || media.Granted? ==>
      && r.peer == Some(Peer(Callee, Stable, New, false, r.local.value))
      && r.retired == Abandon(st)
      && r.inCall && !r.isCaller
      && r.incoming == (if answerOk then None else st.incoming)
      && r.remote == st.remote && r.channel == st.channel
      && r.speakerMuted == st.speakerMuted && r.pendingAnswers == st.pendingAnswers
  {
    if st.local.None? && media.Refused? then st
    else
      var reg := if st.local.Some? then st.tracks else Register(st.tracks, media.sources, Local);
      var ids := if st.local.Some? then st.local.value else NamesFrom(|st.tracks|, |media.sources|);
      st.(tracks := reg,
          local := Some(ids),
          peer := Some(Peer(Callee, Stable, New, false, ids)),
          retired := Abandon(st),
          inCall := true,
          isCaller := false,
          incoming := if answerOk then None else st.incoming)
  }

  /** `cleanupCall`: stops and drops the local stream and closes and drops the
      connection, but keeps the remote stream and the data channel. */
  function Cleanup(st: CallState): (r: CallState)
    requires Wf(st)
    ensures Wf(r)
    ensures |r.tracks| == |st.tracks|
    ensures forall t | 0 <= t < |st.tracks| ::
      r.tracks[t] == (if InStream(st.local, t) then st.tracks[t].(live := false) else st.tracks[t])
    ensures r.local.None? && r.peer.None? && !r.inCall && !r.isCaller
    ensures r.retired == Release(st)
    ensures r.remote == st.remote && r.channel == st.channel
    ensures r.incoming == st.incoming && r.speakerMuted == st.speakerMuted
    ensures r.pendingAnswers == st.pendingAnswers
  {
    st.(tracks := if st.local.Some? then StopAll(st.tracks, st.local.value) else st.tracks,
        local := None,
        peer := None,
        retired := Release(st),
        inCall := false,
        isCaller := false)
  }

  /** `rejectCall`: the dialog closes and the session is cleaned up. */
  function RejectCall(st: CallState): (r: CallState)
    requires Wf(st)
    ensures Wf(r)
    ensures r.incoming.None? && !r.inCall && r.local.None? && r.peer.None?
    ensures r == Cleanup(st.(incoming := None))
  {
    Cleanup(st.(incoming := None))
  }

  /** `endCall`: every local and remote track is stopped, both streams, the
      connection (closed) and the data channel are dropped, and the call is
      over. Nothing else changes. */
  function EndCall(st: CallState): (r: CallState)
    requires Wf(st)
    ensures Wf(r)
    ensures |r.tracks| == |st.tracks|
    ensures forall t | 0 <= t < |st.tracks| ::
      r.tracks[t] == (if InStream(st.local, t) || InStream(st.remote, t) then st.tracks[t].(live := false) else st.tracks[t])
    ensures r.local.None? && r.remote.None? && r.peer.None? && r.channel.None?
    ensures !r.inCall && !r.isCaller
    ensures r.retired == Release(st)
    ensures r.incoming == st.incoming && r.speakerMuted == st.speakerMuted
    ensures r.pendingAnswers == st.pendingAnswers
  {
    var afterLocal := if st.local.Some? then StopAll(st.tracks, st.local.value) else st.tracks;
    var afterRemote := if st.remote.Some? then StopAll(afterLocal, st.remote.value) else afterLocal;
    st.(tracks := afterRemote,
        local := None,
        remote := None,
        peer := None,
        retired := Release(st),
        channel := None,
        inCall := false,
        isCaller := false)
  }

  /** A scheduled simulated answer fires. It carries nothing that ties it to
      the call that scheduled it: if a call is active and its connection is
      waiting for an answer, the answer is applied when it could be made. */
  function AnswerDue(st: CallState, answerOk: bool): (r: CallState)
    requires Wf(st)
    ensures Wf(r)
    ensures st.pendingAnswers == 0 ==> r == st
    ensures st.pendingAnswers > 0 ==> r.pendingAnswers == st.pendingAnswers - 1
    ensures r.peer.None? <==> st.peer.None?
    ensures r.peer.Some? ==>
      r.peer.value == st.peer.value.(signaling := r.peer.value.signaling)
    ensures r.peer.Some? && r.peer.value.signaling != st.peer.value.signaling <==>
      && st.pendingAnswers > 0 && st.inCall && st.peer.Some?
      && st.peer.value.signaling == HaveLocalOffer && answerOk
    ensures r == st.(peer := r.peer, pendingAnswers := r.pendingAnswers)
  {
    if st.pendingAnswers == 0 then st
    else
      var fired := st.(pendingAnswers := st.pendingAnswers - 1);
      if st.inCall && st.peer.Some? && st.peer.value.signaling == HaveLocalOffer && answerOk
      then fired.(peer := Some(st.peer.value.(signaling := Stable)))
      else fired
  }

  /** `simulateIncomingCall` (F2): when logged in, not in a call and with at
      least one friend, the first friend is shown as calling. */
  function Ring(st: CallState, friends: seq<CallerCard>, loggedIn: bool): (r: CallState)
    ensures r.incoming == (if !st.inCall && loggedIn && |friends| > 0 then Some(friends[0]) else st.incoming)
    ensures r == st.(incoming := r.incoming)
  {
    if st.inCall || !loggedIn || |friends| == 0 then st
    else st.(incoming := Some(friends[0]))
  }

  /** The connection reports a new state; a disconnect or failure ends the
      call. */
  function ConnectionChanged(st: CallState, c: Connection): (r: CallState)
    requires Wf(st)
    ensures Wf(r)
    ensures st.peer.None? ==> r == st
    ensures st.peer.Some? && (c == Disconnected || c == Failed) ==>
      r == EndCall(st.(peer := Some(st.peer.value.(connection := c))))
    ensures st.peer.Some? && c != Disconnected && c != Failed ==>
      r == st.(peer := Some(st.peer.value.(connection := c)))
  {
    if st.peer.None? then st
    else
      var updated := st.(peer := Some(st.peer.value.(connection := c)));
      if c == Disconnected || c == Failed then EndCall(updated) else updated
  }

  /** `ontrack`: the stream the peer sends becomes the remote stream. */
  function RemoteStream(st: CallState, sources: seq<Source>): (r: CallState)
    requires Wf(st)
    ensures Wf(r)
    ensures st.peer.None? ==> r == st
    ensures st.peer.Some? ==>
      var n := |st.tracks|;
      && |r.tracks| == n + |sources| && r.tracks[..n] == st.tracks
      && (forall i | 0 <= i < |sources| :: r.tracks[n + i] == Fresh(sources[i], Remote, false))
      && r.remote == Some(NamesFrom(n, |sources|))
      && r == st.(tracks := r.tracks, remote := r.remote)
  {
    if st.peer.None? then st
    else st.(tracks := Register(st.tracks, sources, Remote), remote := Some(NamesFrom(|st.tracks|, |sources|)))
  }

  /** `ondatachannel`: only a callee's connection listens for the caller's
      data channel. */
  function ChannelOpened(st: CallState, name: string): (r: CallState)
    ensures r.channel == (if st.peer.Some? && st.peer.value.role == Callee then Some(name) else st.channel)
    ensures r == st.(channel := r.channel)
  {
    if st.peer.Some? && st.peer.value.role == Callee then st.(channel := Some(name)) else st
  }

  /** The track `getAudioTracks()[0]` / `getVideoTracks()[0]` of the local
      stream yields, if any. It may be a stopped track. */
  function FirstLocal(st: CallState, kind: Kind): (t: Option<TrackId>)
    requires Wf(st)
    ensures t.Some? ==> st.local.Some? && t.value in st.local.value && t.value < |st.tracks|
    ensures t.Some? ==> st.tracks[t.value].kind == kind
    ensures t.Some? ==> exists i | 0 <= i < |st.local.value| ::
      st.local.value[i] == t.value && forall j | 0 <= j < i :: st.tracks[st.local.value[j]].kind != kind
    ensures t.None? && st.local.Some? ==> forall u | u in st.local.value :: st.tracks[u].kind != kind
  {
    if st.local.None? then None
    else match FirstOfKind(st.tracks, st.local.value, kind)
      case None => None
      case Some(k) =>
        assert st.local.value[k] == st.local.value[k];
        Some(st.local.value[k])
  }

  /** `toggleMicrophone` (Audio) and `toggleCamera` (Video): the first local
      track of that kind is muted or unmuted; nothing else changes, and
      without such a track nothing happens. */
  function ToggleTrack(st: CallState, kind: Kind): (r: CallState)
    requires Wf(st)
    ensures Wf(r)
    ensures FirstLocal(st, kind).None? ==> r == st
    ensures FirstLocal(st, kind).Some? ==>
      var t := FirstLocal(st, kind).value;
      && |r.tracks| == |st.tracks|
      && r.tracks[t] == st.tracks[t].(enabled := !st.tracks[t].enabled)
      && (forall u | 0 <= u < |st.tracks| && u != t :: r.tracks[u] == st.tracks[u])
    ensures r == st.(tracks := r.tracks)
  {
    match FirstLocal(st, kind)
    case None => st
    case Some(t) => st.(tracks := Flip(st.tracks, t))
  }

  /** `toggleSpeaker`: mutes or unmutes the remote video element. */
  function ToggleSpeaker(st: CallState): (r: CallState)
    ensures r.speakerMuted != st.speakerMuted
    ensures r.(speakerMuted := st.speakerMuted) == st
  {
    st.(speakerMuted := !st.speakerMuted)
  }

  /** The screen-share toggle's test: the first local video track is live and
      its name says it is a screen capture. */
  predicate SharingScreen(st: CallState)
    requires Wf(st)
  {
    match FirstLocal(st, Video)
    case None => false
    case Some(t) => st.tracks[t].live && Includes(st.tracks[t].name, ScreenMarker)
  }

  /** The registry after a screen-share toggle's capture: its video track,
      carrying the `onended` hook when `hook` says the toggle got as far as
      setting it, then the capture's further tracks, which only a screen
      capture (`sharing` false) yields. */
  function Capture(reg: seq<Track>, capture: VideoCapture, sharing: bool, hook: bool): (r: seq<Track>)
    requires capture.Captured?
    ensures var extras := if sharing then [] else capture.extras;
      && |r| == |reg| + 1 + |extras|
      && r[..|reg|] == reg
      && r[|reg|] == Fresh(Source(Video, capture.name), Local, hook)
      && (forall i | 0 <= i < |extras| :: r[|reg| + 1 + i] == Fresh(extras[i], Local, false))
  {
    Register(reg + [Fresh(Source(Video, capture.name), Local, hook)],
             if sharing then [] else capture.extras, Local)
  }

  /** `sender.replaceTrack(t)` on the first sender carrying a video track,
      if there is one. */
  function SwitchVideo(p: Peer, reg: seq<Track>, t: TrackId): (q: Peer)
    requires Refs(reg, p.senders)
    ensures |q.senders| == |p.senders|
    ensures q == p.(senders := q.senders)
    ensures FirstOfKind(reg, p.senders, Video).None? ==> q.senders == p.senders
    ensures FirstOfKind(reg, p.senders, Video).Some? ==>
      var s := FirstOfKind(reg, p.senders, Video).value;
      q.senders[s] == t && forall i | 0 <= i < |p.senders| && i != s :: q.senders[i] == p.senders[i]
  {
    match FirstOfKind(reg, p.senders, Video)
    case None => p
    case Some(s) => p.(senders := p.senders[s := t])
  }

  /** The screen-share toggle once a track is captured and a connection
      exists, on the branch `sharing` selects: the first video sender switches
      to the new track, every local video track is stopped and the new track
      joins the local stream; signaling and connection state are untouched. */
  function SwitchToCapture(st: CallState, capture: VideoCapture, sharing: bool): (r: CallState)
    requires Wf(st) && st.local.Some? && st.peer.Some? && capture.Captured?
    ensures Wf(r)
    ensures |r.tracks| == |Capture(st.tracks, capture, sharing, !sharing)|
    ensures r.tracks[..|st.tracks|] == StopKind(st.tracks, st.local.value, Video)
    ensures r.tracks[|st.tracks|..] == Capture(st.tracks, capture, sharing, !sharing)[|st.tracks|..]
    ensures r.local == Some(st.local.value + [|st.tracks|])
    ensures r.peer == Some(SwitchVideo(st.peer.value, st.tracks, |st.tracks|))
    ensures r == st.(tracks := r.tracks, local := r.local, peer := r.peer)
  {
    var n := |st.tracks|;
    var captured := Capture(st.tracks, capture, sharing, !sharing);
    assert captured == st.tracks + captured[n..];
    StopKindAppend(st.tracks, captured[n..], st.local.value, Video);
    st.(tracks := StopKind(captured, st.local.value, Video),
        local := Some(st.local.value + [n]),
        peer := Some(SwitchVideo(st.peer.value, st.tracks, n)))
  }

  /** `toggleScreenShare`. Without a local stream, or when the capture is
      refused, nothing happens. When `SharingScreen` holds a camera track is
      captured, otherwise a screen capture whose track re-invokes the toggle
      when it ends; the screen capture may yield further tracks, which are
      never used. Without a connection the lookup of its senders throws
      before anything else happens, so the captured tracks are left running
      and no `onended` hook is set; with one, `SwitchToCapture` applies. */
  function ToggleScreenShare(st: CallState, capture: VideoCapture): (r: CallState)
    requires Wf(st)
    ensures Wf(r)
    ensures st.local.None? || capture.CaptureRefused? ==> r == st
    ensures st.local.Some? && capture.Captured? ==>
      |r.tracks| == |Capture(st.tracks, capture, SharingScreen(st), st.peer.Some? && !SharingScreen(st))| &&
      r.tracks[|st.tracks|..] == Capture(st.tracks, capture, SharingScreen(st), st.peer.Some? && !SharingScreen(st))[|st.tracks|..]
    ensures st.local.Some? && capture.Captured? && st.peer.None? ==>
      r == st.(tracks := Capture(st.tracks, capture, SharingScreen(st), false))
    ensures st.local.Some? && capture.Captured? && st.peer.Some? ==>
      r == SwitchToCapture(st, capture, SharingScreen(st))
  {
    if st.local.None? || capture.CaptureRefused? then st
    else if st.peer.None? then st.(tracks := Capture(st.tracks, capture, SharingScreen(st), false))
    else SwitchToCapture(st, capture, SharingScreen(st))
  }

  /** A live track ends from outside the page (the user stops a capture in
      the browser, or a device goes away): it is no longer live, and if its
      `onended` handler is set, the handler runs the toggle. */
  function CaptureEnded(st: CallState, t: TrackId, capture: VideoCapture): (r: CallState)
    requires Wf(st)
    ensures Wf(r)
    ensures !(t < |st.tracks| && st.tracks[t].live) ==> r == st
    ensures t < |st.tracks| && st.tracks[t].live && !st.tracks[t].hooked ==>
      r == st.(tracks := st.tracks[t := st.tracks[t].(live := false)])
    ensures t < |st.tracks| && st.tracks[t].live && st.tracks[t].hooked ==>
      r == ToggleScreenShare(st.(tracks := st.tracks[t := st.tracks[t].(live := false)]), capture)
  {
    if t < |st.tracks| && st.tracks[t].live then
      var ended := st.(tracks := st.tracks[t := st.tracks[t].(live := false)]);
      if st.tracks[t].hooked then ToggleScreenShare(ended, capture) else ended
    else st
  }

  /** What can happen to the session: a button or key press, or a browser or
      timer callback. */
  datatype Event =
    | Start(chatSelected: bool, media: Acquisition, offerOk: bool)
    | Accept(media: Acquisition, answerOk: bool)
    | Reject
    | End
    | AnswerFires(answerOk: bool)
    | IncomingRing(friends: seq<CallerCard>, loggedIn: bool)
    | ConnectionChange(state: Connection)
    | RemoteTracks(sources: seq<Source>)
    | ChannelArrives(name: string)
    | ToggleMic
    | ToggleCamera
    | ToggleSpeakerButton
    | ToggleScreen(capture: VideoCapture)
    | ScreenEnded(track: TrackId, capture: VideoCapture)

  function Step(st: CallState, e: Event): (r: CallState)
    requires Wf(st)
    ensures Wf(r)
  {
    match e
    case Start(chatSelected, media, offerOk) => StartCall(st, chatSelected, media, offerOk)
    case Accept(media, answerOk) => AcceptCall(st, media, answerOk)
    case Reject => RejectCall(st)
    case End => EndCall(st)
    case AnswerFires(answerOk) => AnswerDue(st, answerOk)
    case IncomingRing(friends, loggedIn) => Ring(st, friends, loggedIn)
    case ConnectionChange(c) => ConnectionChanged(st, c)
    case RemoteTracks(sources) => RemoteStream(st, sources)
    case ChannelArrives(name) => ChannelOpened(st, name)
    case ToggleMic => ToggleTrack(st, Audio)
    case ToggleCamera => ToggleTrack(st, Video)
    case ToggleSpeakerButton => ToggleSpeaker(st)
    case ToggleScreen(capture) => ToggleScreenShare(st, capture)
    case ScreenEnded(t, capture) => CaptureEnded(st, t, capture)
  }

  function Run(st: CallState, es: seq<Event>): (r: CallState)
    requires Wf(st)
    ensures Wf(r)
    decreases |es|
  {
    if |es| == 0 then st else Run(Step(st, es[0]), es[1..])
  }
}
