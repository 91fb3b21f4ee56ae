/** Properties of the call session: a safety invariant that every ordinary
    event keeps, the two ways captured media escapes it, the answer timer
    that does not know which call scheduled it, the mute buttons as
    involutions, and the screen-share toggle that never returns to the
    camera. */
module CallProperties {
  import opened Wrappers
  import opened Text
  import opened Media
  import opened Call

  /** The session agrees with itself: a call is active exactly when there is
      a local stream and exactly when there is a connection. */
  predicate Settled(st: CallState) {
    st.inCall == st.local.Some? && st.local.Some? == st.peer.Some?
  }

  /** No captured track is left running outside the local stream, where no
      button or hang-up would ever reach it. */
  predicate NoLeak(st: CallState) {
    forall t | 0 <= t < |st.tracks| && st.tracks[t].live && st.tracks[t].origin == Local ::
      InStream(st.local, t)
  }

  predicate Safe(st: CallState) {
    Wf(st) && Settled(st) && NoLeak(st)
  }

  /** The events under which the session stays `Safe`: every event except an
      offer that cannot be made and a screen capture that yields more than
      its video track. */
  predicate Benign(e: Event) {
    match e
    case Start(_, _, offerOk) => offerOk
    case ToggleScreen(c) => c.Captured? ==> c.extras == []
    case ScreenEnded(_, c) => c.Captured? ==> c.extras == []
    case _ => true
  }

  lemma StartKeepsSafe(st: CallState, chatSelected: bool, media: Acquisition)
    requires Safe(st)
    ensures Safe(StartCall(st, chatSelected, media, true))
  {
    var r := StartCall(st, chatSelected, media, true);
    if chatSelected && !st.inCall && media.Granted? {
      var n := |st.tracks|;
      forall t | 0 <= t < |r.tracks| && r.tracks[t].live && r.tracks[t].origin == Local
        ensures InStream(r.local, t)
      {
        if t < n {
          assert false;
        } else {
          assert r.local.value[t - n] == t;
        }
      }
    }
  }

  lemma AcceptKeepsSafe(st: CallState, media: Acquisition, answerOk: bool)
    requires Safe(st)
    ensures Safe(AcceptCall(st, media, answerOk))
  {
    var r := AcceptCall(st, media, answerOk);
    if st.local.None? && media.Granted? {
      var n := |st.tracks|;
      forall t | 0 <= t < |r.tracks| && r.tracks[t].live && r.tracks[t].origin == Local
        ensures InStream(r.local, t)
      {
        if t < n {
          assert false;
        } else {
          assert r.local.value[t - n] == t;
        }
      }
    }
  }

  lemma RejectKeepsSafe(st: CallState)
    requires Safe(st)
    ensures Safe(RejectCall(st))
  {
  }

  lemma EndKeepsSafe(st: CallState)
    requires Safe(st)
    ensures Safe(EndCall(st))
  {
  }

  lemma RemoteStreamKeepsSafe(st: CallState, sources: seq<Source>)
    requires Safe(st)
    ensures Safe(RemoteStream(st, sources))
  {
    var r := RemoteStream(st, sources);
    forall t | 0 <= t < |r.tracks| && r.tracks[t].live && r.tracks[t].origin == Local
      ensures InStream(r.local, t)
    {
      if st.peer.Some? {
        if t < |st.tracks| {
          assert r.tracks[..|st.tracks|][t] == st.tracks[t];
        } else {
          assert false;
        }
      }
    }
  }

  lemma ToggleTrackKeepsSafe(st: CallState, kind: Kind)
    requires Safe(st)
    ensures Safe(ToggleTrack(st, kind))
  {
  }

  /** The screen-share toggle keeps the session safe when the capture yields
      only its video track. */
  lemma ToggleScreenKeepsSafe(st: CallState, c: VideoCapture)
    requires Safe(st)
    requires c.Captured? ==> c.extras == []
    ensures Safe(ToggleScreenShare(st, c))
  {
    var r := ToggleScreenShare(st, c);
    if st.local.Some? && c.Captured? {
      var n := |st.tracks|;
      var captured := Capture(st.tracks, c, SharingScreen(st), !SharingScreen(st));
      assert |r.tracks| == n + 1;
      forall t | 0 <= t < |r.tracks| && r.tracks[t].live && r.tracks[t].origin == Local
        ensures InStream(r.local, t)
      {
        if t < n {
          assert r.tracks[..n][t] == StopKind(st.tracks, st.local.value, Video)[t];
          assert st.tracks[t].live;
          assert (st.local.value + [n])[..|st.local.value|] == st.local.value;
        } else {
          assert t == n;
          assert (st.local.value + [n])[|st.local.value|] == n;
        }
      }
    }
  }

  /** Ending a capture by hand only takes a track out of service. */
  lemma EndTrackKeepsSafe(st: CallState, t: TrackId)
    requires Safe(st) && t < |st.tracks|
    ensures Safe(st.(tracks := st.tracks[t := st.tracks[t].(live := false)]))
  {
  }

  lemma StepKeepsSafe(st: CallState, e: Event)
    requires Safe(st) && Benign(e)
    ensures Safe(Step(st, e))
  {
    match e
    case Start(chatSelected, media, offerOk) => StartKeepsSafe(st, chatSelected, media);
    case Accept(media, answerOk) => AcceptKeepsSafe(st, media, answerOk);
    case Reject => RejectKeepsSafe(st);
    case End => EndKeepsSafe(st);
    case AnswerFires(answerOk) =>
    case IncomingRing(friends, loggedIn) =>
    case ConnectionChange(c) =>
      if st.peer.Some? {
        EndKeepsSafe(st.(peer := Some(st.peer.value.(connection := c))));
      }
    case RemoteTracks(sources) => RemoteStreamKeepsSafe(st, sources);
    case ChannelArrives(name) =>
    case ToggleMic => ToggleTrackKeepsSafe(st, Audio);
    case ToggleCamera => ToggleTrackKeepsSafe(st, Video);
    case ToggleSpeakerButton =>
    case ToggleScreen(c) => ToggleScreenKeepsSafe(st, c);
    case ScreenEnded(t, c) =>
      if t < |st.tracks| && st.tracks[t].live {
        EndTrackKeepsSafe(st, t);
        if st.tracks[t].hooked {
          ToggleScreenKeepsSafe(st.(tracks := st.tracks[t := st.tracks[t].(live := false)]), c);
        }
      }
  }

  /** Any run of benign events from a safe session ends in a safe session. */
  lemma {:induction false} RunKeepsSafe(st: CallState, es: seq<Event>)
    requires Safe(st)
    requires forall i | 0 <= i < |es| :: Benign(es[i])
    ensures Safe(Run(st, es))
    decreases |es|
  {
    if |es| > 0 {
      StepKeepsSafe(st, es[0]);
      RunKeepsSafe(Step(st, es[0]), es[1..]);
    }
  }

  /** Hanging up a safe session stops every captured track. */
  lemma EndStopsAllMedia(st: CallState)
    requires Safe(st)
    ensures var r := EndCall(st);
      forall t | 0 <= t < |r.tracks| :: !(r.tracks[t].live && r.tracks[t].origin == Local)
  {
  }

  /** Hanging up twice is hanging up once. */
  lemma EndCallIdempotent(st: CallState)
    requires Wf(st)
    ensures EndCall(EndCall(st)) == EndCall(st)
  {
  }

  const Mic := Source(Audio, "Default microphone")
  const Camera := Source(Video, "FaceTime camera")

  /** An offer that cannot be made leaves the camera and microphone running
      with no call; the next call captures new tracks over them, and the old
      ones and the old connection are never stopped. */
  lemma OfferFailureLeaksMedia()
    ensures var s1 := StartCall(Idle, true, Granted([Mic, Camera]), false);
      && !s1.inCall && s1.local.Some? && s1.tracks[0].live && s1.tracks[1].live
      && !Settled(s1)
    ensures var s2 := StartCall(StartCall(Idle, true, Granted([Mic, Camera]), false), true, Granted([Mic, Camera]), true);
      && s2.inCall && s2.tracks[0].live && !InStream(s2.local, 0) && !NoLeak(s2)
      && |s2.retired| == 1 && !s2.retired[0].closed
  {
    var s1 := StartCall(Idle, true, Granted([Mic, Camera]), false);
    assert s1.tracks[0] == Fresh(Mic, Local, false);
    assert s1.tracks[1] == Fresh(Camera, Local, false);
    var s2 := StartCall(s1, true, Granted([Mic, Camera]), true);
    assert s2.tracks[..2] == s1.tracks;
    assert s2.tracks[0] == s1.tracks[0];
    assert s2.local.value == [2, 3];
  }

  /** A call started with a microphone and a camera. */
  const CameraCall := StartCall(Idle, true, Granted([Mic, Camera]), true)

  lemma CameraCallStarted()
    ensures CameraCall.tracks == [Fresh(Mic, Local, false), Fresh(Camera, Local, false)]
    ensures CameraCall.local == Some([0, 1]) && CameraCall.remote.None?
    ensures CameraCall.peer == Some(Peer(Caller, HaveLocalOffer, New, false, [0, 1]))
    ensures CameraCall.inCall && CameraCall.pendingAnswers == 1
  {
    assert CameraCall.local.value == [0, 1];
  }

  /** The camera's name does not mark it as a screen capture. */
  lemma CameraNotScreen()
    ensures !Includes(Camera.name, ScreenMarker)
  {
    assert ScreenMarker[0] == 's';
    assert forall i | 0 <= i < |Camera.name| :: Camera.name[i] != 's';
    IncludesNeedsHead(Camera.name, ScreenMarker);
  }

  lemma CameraCallSafe()
    ensures Safe(CameraCall)
  {
    StartKeepsSafe(Idle, true, Granted([Mic, Camera]));
  }

  lemma CameraCallNotSharing()
    ensures Wf(CameraCall) && !SharingScreen(CameraCall)
  {
    CameraCallStarted();
    var tracks := CameraCall.tracks;
    assert FirstOfKind(tracks, [0, 1], Video) == Some(1) by {
      assert tracks[0].kind == Audio && tracks[1].kind == Video;
      assert [0, 1][1..] == [1];
    }
    assert FirstLocal(CameraCall, Video) == Some(1);
    CameraNotScreen();
  }

  /** When a screen capture yields further tracks (the system audio it is
      asked for), they are never added to the local stream or sent: they run
      outside the session, and hanging up does not stop them. */
  lemma ScreenExtrasLeak(st: CallState, c: VideoCapture)
    requires Wf(st) && st.local.Some? && st.peer.Some? && !SharingScreen(st)
    requires c.Captured? && |c.extras| > 0
    ensures var r := ToggleScreenShare(st, c);
      var t := |st.tracks| + 1;
      && t < |r.tracks| && r.tracks[t].live && r.tracks[t].origin == Local
      && !InStream(r.local, t) && !NoLeak(r)
      && EndCall(r).tracks[t].live
  {
    var r := ToggleScreenShare(st, c);
    var n := |st.tracks|;
    assert r.tracks[n..][1] == Capture(st.tracks, c, false, true)[n..][1];
    assert r.local.value == st.local.value + [n];
    assert !InStream(r.remote, n + 1);
  }

  /** The leak happens in an ordinary call: sharing the screen of a call
      started with a camera, with system audio. */
  lemma ScreenAudioLeaks()
    ensures var shared := ToggleScreenShare(CameraCall, Captured("screen:0:0", [Source(Audio, "System audio")]));
      Safe(CameraCall) && !NoLeak(shared) && EndCall(shared).tracks[3].live
  {
    CameraCallSafe();
    CameraCallStarted();
    CameraCallNotSharing();
    ScreenExtrasLeak(CameraCall, Captured("screen:0:0", [Source(Audio, "System audio")]));
  }

  /** A simulated answer that fires after the call it belongs to has ended
      changes nothing but the count of pending answers. */
  lemma StaleAnswerIgnored(st: CallState, answerOk: bool)
    requires Wf(st)
    ensures var e := EndCall(st);
      AnswerDue(e, answerOk) == e.(pendingAnswers := if e.pendingAnswers == 0 then 0 else e.pendingAnswers - 1)
  {
  }

  /** The answer timer carries no call identity: hang up and call again
      within two seconds, and the first call's timer fires against the second
      call's connection, which sends only the second call's new tracks, while
      the second call's own timer is still pending. Whether an answer can be
      made there decides whether it is applied; it is never discarded for
      belonging to another call. */
  lemma StaleAnswerReachesNextCall(st: CallState, media1: seq<Source>, media2: seq<Source>, answerOk: bool)
    requires Wf(st) && !st.inCall
    ensures
      var first := StartCall(st, true, Granted(media1), true);
      var second := StartCall(EndCall(first), true, Granted(media2), true);
      var r := AnswerDue(second, answerOk);
      && (forall i | 0 <= i < |first.peer.value.senders| :: first.peer.value.senders[i] < |first.tracks|)
      && (forall i | 0 <= i < |second.peer.value.senders| :: second.peer.value.senders[i] >= |first.tracks|)
      && second.peer.value.signaling == HaveLocalOffer && second.pendingAnswers == st.pendingAnswers + 2
      && r.pendingAnswers == st.pendingAnswers + 1
      && r.peer == Some(second.peer.value.(signaling := if answerOk then Stable else HaveLocalOffer))
  {
    var first := StartCall(st, true, Granted(media1), true);
    var ended := EndCall(first);
    assert |ended.tracks| == |first.tracks| && !ended.inCall;
    assert ended.pendingAnswers == st.pendingAnswers + 1;
    var second := StartCall(ended, true, Granted(media2), true);
    assert second.peer.value.senders == NamesFrom(|first.tracks|, |media2|);
    assert second.inCall && second.pendingAnswers == st.pendingAnswers + 2;
  }

  /** Pressing the microphone or camera button twice restores the session. */
  lemma ToggleTrackTwice(st: CallState, kind: Kind)
    requires Wf(st)
    ensures ToggleTrack(ToggleTrack(st, kind), kind) == st
  {
    if FirstLocal(st, kind).Some? {
      var t := FirstLocal(st, kind).value;
      var r := ToggleTrack(st, kind);
      assert r.tracks == Flip(st.tracks, t);
      FirstOfKindByKinds(st.tracks, r.tracks, st.local.value, kind);
      assert FirstLocal(r, kind) == Some(t);
      FlipTwice(st.tracks, t);
    }
  }

  /** What a screen-share press does during a call: every video track of the
      local stream is stopped, exactly one new live video track is added
      (a screen capture unless a screen is being shared), the first video
      sender now carries it, and no offer is made: signaling, connection
      state and the pending answers are as before. */
  lemma ScreenShareEffect(st: CallState, c: VideoCapture)
    requires Wf(st) && st.local.Some? && st.peer.Some? && c.Captured?
    ensures var r := ToggleScreenShare(st, c);
      var ids := st.local.value;
      var n := |st.tracks|;
      && (forall i | 0 <= i < |ids| && st.tracks[ids[i]].kind == Video :: !r.tracks[ids[i]].live)
      && r.tracks[n] == Fresh(Source(Video, c.name), Local, !SharingScreen(st))
      && r.local == Some(ids + [n])
      && (FirstOfKind(st.tracks, st.peer.value.senders, Video).Some? ==>
            r.peer.value.senders[FirstOfKind(st.tracks, st.peer.value.senders, Video).value] == n)
      && r.peer.value.signaling == st.peer.value.signaling
      && r.peer.value.connection == st.peer.value.connection
      && r.pendingAnswers == st.pendingAnswers && r.inCall == st.inCall
  {
    var r := ToggleScreenShare(st, c);
    var ids := st.local.value;
    var n := |st.tracks|;
    forall i | 0 <= i < |ids| && st.tracks[ids[i]].kind == Video ensures !r.tracks[ids[i]].live {
      assert r.tracks[..n][ids[i]] == r.tracks[ids[i]];
    }
    assert r.tracks[n..][0] == Capture(st.tracks, c, SharingScreen(st), !SharingScreen(st))[n..][0];
  }

  /** Once the local stream has had a video track, the toggle never again
      sees a live first video track: the first one stays first and has been
      stopped. So every later press captures a screen again rather than
      going back to the camera. */
  lemma ScreenShareNeverReturnsToCamera(st: CallState, c: VideoCapture)
    requires Wf(st) && st.peer.Some? && c.Captured?
    requires FirstLocal(st, Video).Some?
    ensures !SharingScreen(ToggleScreenShare(st, c))
  {
    var r := ToggleScreenShare(st, c);
    var ids := st.local.value;
    var n := |st.tracks|;
    forall i | 0 <= i < |ids| ensures r.tracks[ids[i]].kind == st.tracks[ids[i]].kind {
      assert r.tracks[..n][ids[i]] == r.tracks[ids[i]];
    }
    FirstOfKindByKinds(st.tracks, r.tracks, ids, Video);
    FirstOfKindAppend(r.tracks, ids, n, Video);
    var k := FirstOfKind(st.tracks, ids, Video).value;
    assert (ids + [n])[k] == ids[k];
    assert r.tracks[..n][ids[k]] == r.tracks[ids[k]];
    assert !r.tracks[ids[k]].live;
  }

  /** Pressing screen share a second time, after a share began from a call
      with a camera, captures a screen again: the new track carries the
      screen capture's end hook. */
  lemma SecondPressSharesScreenAgain(st: CallState, c1: VideoCapture, c2: VideoCapture)
    requires Wf(st) && st.peer.Some? && c1.Captured? && c2.Captured?
    requires FirstLocal(st, Video).Some?
    ensures var r := ToggleScreenShare(st, c1);
      ToggleScreenShare(r, c2).tracks[|r.tracks|].hooked
  {
    var r := ToggleScreenShare(st, c1);
    ScreenShareNeverReturnsToCamera(st, c1);
    var r2 := ToggleScreenShare(r, c2);
    assert r2.tracks[|r.tracks|..][0] == Capture(r.tracks, c2, false, true)[|r.tracks|..][0];
  }

  const Alex := CallerCard("A", "Alex")

  /** A whole call from an idle page: start with whatever tracks the
      devices give, the simulated answer, the connection comes up, and hang
      up. Afterwards no track is live, the one connection is closed, and the
      session is idle again. */
  lemma CallLifecycle(media: seq<Source>)
    ensures
      var started := StartCall(Idle, true, Granted(media), true);
      var r := EndCall(ConnectionChanged(AnswerDue(started, true), Connected));
      && (forall t | 0 <= t < |r.tracks| :: !r.tracks[t].live)
      && r.local.None? && r.remote.None? && r.peer.None? && r.channel.None? && !r.inCall
      && |r.retired| == 1 && r.retired[0].closed && r.retired[0].role == Caller
      && r.pendingAnswers == 0
  {
    var started := StartCall(Idle, true, Granted(media), true);
    var ids := started.local.value;
    assert ids == NamesFrom(0, |media|);
    assert started.remote.None? && started.pendingAnswers == 1;
    var answered := AnswerDue(started, true);
    assert answered.peer == Some(started.peer.value.(signaling := Stable));
    var connected := ConnectionChanged(answered, Connected);
    assert connected.tracks == started.tracks && connected.local == started.local;
    assert connected.remote.None? && connected.peer.Some? && connected.retired == [];
    forall t | 0 <= t < |connected.tracks| ensures InStream(connected.local, t) {
      assert ids[t] == t;
    }
  }

  /** A ring from the first friend, rejected: no media is ever captured and
      the dialog is gone. */
  lemma RingThenReject()
    ensures Run(Idle, [IncomingRing([Alex], true)]).incoming == Some(Alex)
    ensures
      var r := Run(Idle, [IncomingRing([Alex], true), Reject]);
      r.tracks == [] && r.incoming.None? && !r.inCall && r.peer.None?
  {
    var rung := Ring(Idle, [Alex], true);
    assert Run(Idle, [IncomingRing([Alex], true)]) == Run(rung, []);
    var es := [IncomingRing([Alex], true), Reject];
    assert Run(Idle, es) == Run(rung, es[1..]);
    assert Run(rung, es[1..]) == RejectCall(rung) by { assert es[1..][1..] == []; }
  }

  /** Rejecting does not drop the remote stream or the data channel: after a
      ring, a call of one's own and the peer's stream, rejecting the ring
      leaves the remote track playing and the channel set. */
  lemma RejectKeepsRemote()
    ensures
      var rung := Ring(Idle, [Alex], true);
      var calling := StartCall(rung, true, Granted([Mic, Camera]), true);
      var streamed := RemoteStream(calling, [Source(Audio, "remote audio")]);
      var r := RejectCall(streamed);
      && r.remote == Some([2]) && r.tracks[2].live && r.tracks[2].origin == Remote
      && r.channel == Some(ChatChannel) && !r.inCall
  {
    var calling := StartCall(Ring(Idle, [Alex], true), true, Granted([Mic, Camera]), true);
    assert calling.local.value == [0, 1] && |calling.tracks| == 2;
    var streamed := RemoteStream(calling, [Source(Audio, "remote audio")]);
    assert streamed.tracks[2] == Fresh(Source(Audio, "remote audio"), Remote, false);
    assert streamed.remote.value == [2];
    assert !InStream(streamed.local, 2);
  }
}
