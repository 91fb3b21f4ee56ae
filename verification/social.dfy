/** Friends and direct messages of the signed-in user: the friend list, the
    conversation store keyed by a DM id built from both user ids, and sending
    a message to the open conversation or channel. */
module Social {
  import opened Wrappers
  import opened Text
  import Auth

  datatype LastMessage = LastMessage(content: string, timestamp: string)

  datatype Friend = Friend(
    id: string,
    email: string,
    username: string,
    status: string,
    isBlocked: bool,
    unreadCount: nat,
    lastMessage: Option<LastMessage>,
    avatar: string)

  /** Where a message was posted: a direct conversation or a server channel. */
  datatype Target = InChat(chatId: string) | InChannel(channelId: string)

  datatype Message = Message(
    id: string,
    author: string,
    authorId: string,
    content: string,
    timestamp: string,
    date: string,
    target: Target)

  datatype DirectMessage = DirectMessage(id: string, participants: seq<string>, messages: seq<Message>)

  datatype Channel = Channel(id: string, kind: string)

  /** The chat side of the application state. `currentDM` is the open
      conversation, which is the object stored under its id in `dms`;
      `serverChannels` are the channels of the selected server, if any. */
  datatype Chat = Chat(
    me: Auth.Session,
    friends: seq<Friend>,
    dms: map<string, DirectMessage>,
    currentDM: Option<DirectMessage>,
    currentChannel: Option<Channel>,
    serverChannels: Option<seq<Channel>>,
    channelMessages: map<string, seq<Message>>)

  datatype FriendError = EmailRequired | AlreadyFriend | OwnEmail

  /** Longest preview kept for a friend's last message, before the ellipsis. */
  const PreviewLength := 30

  // ---------------------------------------------------------------------------
  // Conversation ids

  /** `getDMId`: the two user ids in sorted order, joined as `dm_<a>_<b>`. */
  function DMId(a: string, b: string): (id: string)
    ensures StartsWith(id, "dm_")
  {
    if OrderedBefore(a, b) then "dm_" + a + "_" + b else "dm_" + b + "_" + a
  }

  /** Both users of a conversation compute the same id for it. */
  lemma DMIdSymmetric(a: string, b: string)
    ensures DMId(a, b) == DMId(b, a)
  {
    OrderedTotal(a, b);
    if OrderedBefore(a, b) && OrderedBefore(b, a) {
      OrderedAntisymmetric(a, b);
    }
  }

  lemma {:induction false} BeforeJoin(x: string, y: string)
    requires '_' !in x
    ensures Before(x + "_" + y, '_') == x
    decreases |x|
  {
    if |x| > 0 {
      assert (x + "_" + y)[1..] == x[1..] + "_" + y;
      BeforeJoin(x[1..], y);
      assert x == [x[0]] + x[1..];
    }
  }

  lemma JoinDetermined(x1: string, y1: string, x2: string, y2: string)
    requires '_' !in x1 && '_' !in x2
    requires x1 + "_" + y1 == x2 + "_" + y2
    ensures x1 == x2 && y1 == y2
  {
    BeforeJoin(x1, y1);
    BeforeJoin(x2, y2);
    var s := x1 + "_" + y1;
    assert y1 == s[|x1| + 1..];
    assert y2 == (x2 + "_" + y2)[|x2| + 1..];
  }

  /** For ids without underscores (the clock-drawn ids are digit strings) a DM
      id names exactly one pair of users. */
  lemma DMIdDeterminesPair(a: string, b: string, c: string, d: string)
    requires '_' !in a && '_' !in b && '_' !in c && '_' !in d
    requires DMId(a, b) == DMId(c, d)
    ensures (a == c && b == d) || (a == d && b == c)
  {
    var x1, y1 := if OrderedBefore(a, b) then a else b, if OrderedBefore(a, b) then b else a;
    var x2, y2 := if OrderedBefore(c, d) then c else d, if OrderedBefore(c, d) then d else c;
    assert DMId(a, b) == "dm_" + (x1 + "_" + y1);
    assert DMId(c, d) == "dm_" + (x2 + "_" + y2);
    assert x1 + "_" + y1 == DMId(a, b)[3..];
    assert x2 + "_" + y2 == DMId(c, d)[3..];
    JoinDetermined(x1, y1, x2, y2);
  }

  // ---------------------------------------------------------------------------
  // Looking things up

  predicate HasFriendWithEmail(fs: seq<Friend>, email: string) {
    exists i | 0 <= i < |fs| :: fs[i].email == email
  }

  /** Index of the first friend with the given id (`friends.find`). */
  function FindFriend(fs: seq<Friend>, id: string): (k: Option<nat>)
    ensures k.Some? ==> k.value < |fs| && fs[k.value].id == id
    ensures k.Some? ==> forall j | 0 <= j < k.value :: fs[j].id != id
    ensures k.None? ==> forall j | 0 <= j < |fs| :: fs[j].id != id
    decreases |fs|
  {
    if |fs| == 0 then None
    else if fs[0].id == id then Some(0)
    else match FindFriend(fs[1..], id)
      case None => None
      case Some(k) => Some(k + 1)
  }

  /** `FindFriend` only looks at ids, so a list with the same ids gives the
      same answer. */
  lemma {:induction false} FindFriendByIds(fs: seq<Friend>, gs: seq<Friend>, id: string)
    requires |fs| == |gs|
    requires forall j | 0 <= j < |fs| :: fs[j].id == gs[j].id
    ensures FindFriend(fs, id) == FindFriend(gs, id)
    decreases |fs|
  {
    if |fs| > 0 {
      FindFriendByIds(fs[1..], gs[1..], id);
    }
  }

  /** The first participant other than `me` (`participants.find`). */
  function OtherParticipant(ps: seq<string>, me: string): (r: Option<string>)
    ensures r.Some? ==> r.value in ps && r.value != me
    ensures r.Some? ==> exists i | 0 <= i < |ps| :: ps[i] == r.value && forall j | 0 <= j < i :: ps[j] == me
    ensures r.None? ==> forall p | p in ps :: p == me
    decreases |ps|
  {
    if |ps| == 0 then None
    else if ps[0] != me then
      Some(ps[0])
    else
      assert ps == [ps[0]] + ps[1..];
      var r := OtherParticipant(ps[1..], me);
      assert r.Some? ==> exists i | 0 <= i < |ps| :: ps[i] == r.value && forall j | 0 <= j < i :: ps[j] == me by {
        if r.Some? {
          var i :| 0 <= i < |ps[1..]| && ps[1..][i] == r.value && forall j | 0 <= j < i :: ps[1..][j] == me;
          assert ps[i + 1] == r.value;
          assert forall j | 0 <= j < i + 1 :: ps[j] == me by {
            forall j | 0 <= j < i + 1 ensures ps[j] == me {
              if j > 0 { assert ps[1..][j - 1] == ps[j]; }
            }
          }
        }
      }
      r
  }

  /** The first text channel (`channels.find(ch => ch.type === 'text')`). */
  function FirstTextChannel(chs: seq<Channel>): (r: Option<Channel>)
    ensures r.Some? ==> r.value in chs && r.value.kind == "text"
    ensures r.Some? ==> exists i | 0 <= i < |chs| :: chs[i] == r.value && forall j | 0 <= j < i :: chs[j].kind != "text"
    ensures r.None? ==> forall ch | ch in chs :: ch.kind != "text"
    decreases |chs|
  {
    if |chs| == 0 then None
    else if chs[0].kind == "text" then
      Some(chs[0])
    else
      var r := FirstTextChannel(chs[1..]);
      assert r.Some? ==> exists i | 0 <= i < |chs| :: chs[i] == r.value && forall j | 0 <= j < i :: chs[j].kind != "text" by {
        if r.Some? {
          var i :| 0 <= i < |chs[1..]| && chs[1..][i] == r.value && forall j | 0 <= j < i :: chs[1..][j].kind != "text";
          assert chs[i + 1] == r.value;
          assert forall j | 0 <= j < i + 1 :: chs[j].kind != "text" by {
            forall j | 0 <= j < i + 1 ensures chs[j].kind != "text" {
              if j > 0 { assert chs[1..][j - 1] == chs[j]; }
            }
          }
        }
      }
      r
  }

  // ---------------------------------------------------------------------------
  // Friends

  /** The record `addFriend` creates for an address. */
  function NewFriend(email: string, id: string): Friend {
    Friend(id, email, Before(email, '@'), "online", false, 0, None, Initial(email))
  }

  /** `addFriend`: the trimmed address must be non-empty, not already a
      friend's, and not the user's own; then the friend is appended and an
      empty conversation is created under the DM id unless one exists.
      `id` is the identifier the application draws from the clock. */
  function AddFriend(c: Chat, input: string, id: string): (r: Result<Chat, FriendError>)
    ensures var email := Trim(input);
      r.Failure? <==> email == "" || HasFriendWithEmail(c.friends, email) || email == c.me.email
    ensures r.Failure? && r.error == EmailRequired <==> Trim(input) == ""
    ensures r.Failure? && r.error == AlreadyFriend <==>
      Trim(input) != "" && HasFriendWithEmail(c.friends, Trim(input))
    ensures r.Failure? && r.error == OwnEmail <==>
      Trim(input) != "" && !HasFriendWithEmail(c.friends, Trim(input)) && Trim(input) == c.me.email
    ensures r.Success? ==> |r.value.friends| == |c.friends| + 1
    ensures r.Success? ==>
      var email := Trim(input);
      var f := r.value.friends[|c.friends|];
      && r.value.friends == c.friends + [f]
      && f.id == id && f.email == email && f.status == "online" && !f.isBlocked && f.unreadCount == 0 && f.lastMessage.None?
      && f.username == Before(email, '@') && '@' !in f.username && f.avatar == Initial(email)
    ensures r.Success? ==>
      var key := DMId(c.me.id, id);
      && r.value.dms.Keys == c.dms.Keys + {key}
      && (forall k | k in c.dms :: r.value.dms[k] == c.dms[k])
      && (key !in c.dms ==> r.value.dms[key] == DirectMessage(key, [c.me.id, id], []))
    ensures r.Success? ==> r.value == c.(friends := r.value.friends, dms := r.value.dms)
  {
    var email := Trim(input);
    if email == "" then Failure(EmailRequired)
    else if HasFriendWithEmail(c.friends, email) then Failure(AlreadyFriend)
    else if email == c.me.email then Failure(OwnEmail)
    else
      var key := DMId(c.me.id, id);
      var dms := if key in c.dms then c.dms else c.dms[key := DirectMessage(key, [c.me.id, id], [])];
      Success(c.(friends := c.friends + [NewFriend(email, id)], dms := dms))
  }

  /** No two friends share an address, and the user is not among them. */
  predicate FriendEmailsDistinct(c: Chat) {
    && (forall i, j | 0 <= i < j < |c.friends| :: c.friends[i].email != c.friends[j].email)
    && (forall i | 0 <= i < |c.friends| :: c.friends[i].email != c.me.email)
  }

  /** The checks of `addFriend` keep friend addresses distinct and keep the
      user's own address out of the list. */
  lemma AddFriendKeepsEmailsDistinct(c: Chat, input: string, id: string)
    requires FriendEmailsDistinct(c)
    requires AddFriend(c, input, id).Success?
    ensures FriendEmailsDistinct(AddFriend(c, input, id).value)
  {
    var r := AddFriend(c, input, id).value;
    var n := |c.friends|;
    forall i, j | 0 <= i < j < |r.friends| ensures r.friends[i].email != r.friends[j].email {
      if j == n {
        assert r.friends[i] == c.friends[i];
        assert !HasFriendWithEmail(c.friends, Trim(input));
      }
    }
  }

  /** How many friends in `fs` have an id other than `id`. */
  function Survivors(fs: seq<Friend>, id: string): (n: nat)
    ensures n <= |fs|
    decreases |fs|
  {
    if |fs| == 0 then 0 else (if fs[0].id != id then 1 else 0) + Survivors(fs[1..], id)
  }

  /** Counting the survivors before position `j` of `fs` is counting the
      head, then the survivors before position `j - 1` of the tail. */
  lemma SurvivorsBefore(fs: seq<Friend>, id: string, j: nat)
    requires 0 < j <= |fs|
    ensures Survivors(fs[..j], id) == (if fs[0].id != id then 1 else 0) + Survivors(fs[1..][..j - 1], id)
  {
    assert fs[..j][1..] == fs[1..][..j - 1];
  }

  /** `r` is `fs` with the friends whose id is `id` taken out: the friend at
      position `j` of `fs`, when kept, lands at the position given by the
      number of survivors before it, and nothing else is in `r`. */
  predicate Filtered(fs: seq<Friend>, id: string, r: seq<Friend>) {
    && |r| == Survivors(fs, id)
    && (forall j | 0 <= j < |fs| && fs[j].id != id ::
          Survivors(fs[..j], id) < |r| && r[Survivors(fs[..j], id)] == fs[j])
    && (forall f | f in r :: f in fs && f.id != id)
  }

  lemma FilteredStep(fs: seq<Friend>, id: string, rest: seq<Friend>)
    requires |fs| > 0 && Filtered(fs[1..], id, rest)
    ensures Filtered(fs, id, if fs[0].id == id then rest else [fs[0]] + rest)
  {
    var r := if fs[0].id == id then rest else [fs[0]] + rest;
    forall j | 0 <= j < |fs| && fs[j].id != id
      ensures Survivors(fs[..j], id) < |r| && r[Survivors(fs[..j], id)] == fs[j]
    {
      if j > 0 {
        SurvivorsBefore(fs, id, j);
        assert fs[1..][j - 1] == fs[j];
      }
    }
    forall f | f in r ensures f in fs && f.id != id {
      if f in rest { assert f in fs[1..]; }
    }
  }

  /** `friends.filter(f => f.id !== id)`: the friends whose id differs from
      `id`, and no others, in their original order. */
  function WithoutFriend(fs: seq<Friend>, id: string): (r: seq<Friend>)
    ensures |r| == Survivors(fs, id)
    ensures forall j | 0 <= j < |fs| && fs[j].id != id ::
      Survivors(fs[..j], id) < |r| && r[Survivors(fs[..j], id)] == fs[j]
    ensures forall f | f in r :: f in fs && f.id != id
    decreases |fs|
  {
    if |fs| == 0 then []
    else
      FilteredStep(fs, id, WithoutFriend(fs[1..], id));
      if fs[0].id == id then WithoutFriend(fs[1..], id) else [fs[0]] + WithoutFriend(fs[1..], id)
  }

  lemma {:induction false} WithoutFriendAppended(fs: seq<Friend>, f: Friend)
    requires forall j | 0 <= j < |fs| :: fs[j].id != f.id
    ensures WithoutFriend(fs + [f], f.id) == fs
    decreases |fs|
  {
    if |fs| == 0 {
      assert fs + [f] == [f];
    } else {
      assert (fs + [f])[1..] == fs[1..] + [f];
      WithoutFriendAppended(fs[1..], f);
      assert fs == [fs[0]] + fs[1..];
    }
  }

  /** `removeFriend`: every friend with the id goes, and so does the
      conversation under the DM id; if the open conversation involves that
      friend it is closed, falling back to the first text channel of the
      selected server when that server has channels. */
  function RemoveFriend(c: Chat, friendId: string): (r: Chat)
    ensures |r.friends| == Survivors(c.friends, friendId)
    ensures forall j | 0 <= j < |c.friends| && c.friends[j].id != friendId ::
      Survivors(c.friends[..j], friendId) < |r.friends| && r.friends[Survivors(c.friends[..j], friendId)] == c.friends[j]
    ensures forall f | f in r.friends :: f.id != friendId
    ensures forall f | f in c.friends && f.id != friendId :: f in r.friends
    ensures forall f | f in r.friends :: f in c.friends
    ensures r.dms == c.dms - {DMId(c.me.id, friendId)}
    ensures c.currentDM.Some? && friendId in c.currentDM.value.participants ==>
      && r.currentDM.None?
      && r.currentChannel ==
           (if c.serverChannels.Some? && |c.serverChannels.value| > 0
            then FirstTextChannel(c.serverChannels.value) else c.currentChannel)
    ensures !(c.currentDM.Some? && friendId in c.currentDM.value.participants) ==>
      r.currentDM == c.currentDM && r.currentChannel == c.currentChannel
    ensures r.me == c.me && r.serverChannels == c.serverChannels && r.channelMessages == c.channelMessages
  {
    var c1 := c.(friends := WithoutFriend(c.friends, friendId), dms := c.dms - {DMId(c.me.id, friendId)});
    if c.currentDM.Some? && friendId in c.currentDM.value.participants then
      var channel :=
        if c.serverChannels.Some? && |c.serverChannels.value| > 0
        then FirstTextChannel(c.serverChannels.value) else c.currentChannel;
      c1.(currentDM := None, currentChannel := channel)
    else c1
  }

  /** Removing a friend appended under a fresh id, together with its new
      conversation, restores the chat it was appended to. */
  lemma RemoveAppended(c: Chat, f: Friend, dm: DirectMessage)
    requires forall j | 0 <= j < |c.friends| :: c.friends[j].id != f.id
    requires DMId(c.me.id, f.id) !in c.dms
    requires c.currentDM.None? || f.id !in c.currentDM.value.participants
    ensures RemoveFriend(c.(friends := c.friends + [f], dms := c.dms[DMId(c.me.id, f.id) := dm]), f.id) == c
  {
    WithoutFriendAppended(c.friends, f);
    assert c.dms[DMId(c.me.id, f.id) := dm] - {DMId(c.me.id, f.id)} == c.dms;
  }

  /** Adding a friend under a fresh id and removing that id again restores the
      state, when no conversation existed under the DM id and the open
      conversation does not involve the new id. */
  lemma AddThenRemoveFriend(c: Chat, input: string, id: string)
    requires AddFriend(c, input, id).Success?
    requires forall j | 0 <= j < |c.friends| :: c.friends[j].id != id
    requires DMId(c.me.id, id) !in c.dms
    requires c.currentDM.None? || id !in c.currentDM.value.participants
    ensures RemoveFriend(AddFriend(c, input, id).value, id) == c
  {
    var key := DMId(c.me.id, id);
    var f := NewFriend(Trim(input), id);
    var dm := DirectMessage(key, [c.me.id, id], []);
    assert AddFriend(c, input, id).value == c.(friends := c.friends + [f], dms := c.dms[key := dm]);
    RemoveAppended(c, f, dm);
  }

  /** `blockFriend`: flips the blocked flag of the first friend with the id;
      nothing else changes, and nothing at all without such a friend. */
  function BlockFriend(c: Chat, friendId: string): (r: Chat)
    ensures |r.friends| == |c.friends|
    ensures FindFriend(c.friends, friendId).None? ==> r == c
    ensures FindFriend(c.friends, friendId).Some? ==>
      var k := FindFriend(c.friends, friendId).value;
      && r.friends[k] == c.friends[k].(isBlocked := !c.friends[k].isBlocked)
      && (forall j | 0 <= j < |c.friends| && j != k :: r.friends[j] == c.friends[j])
      && r == c.(friends := r.friends)
  {
    match FindFriend(c.friends, friendId)
    case None => c
    case Some(k) => c.(friends := c.friends[k := c.friends[k].(isBlocked := !c.friends[k].isBlocked)])
  }

  /** Blocking twice restores the friend list. */
  lemma BlockTwiceRestores(c: Chat, friendId: string)
    ensures BlockFriend(BlockFriend(c, friendId), friendId) == c
  {
    var b := BlockFriend(c, friendId);
    FindFriendByIds(c.friends, b.friends, friendId);
    if FindFriend(c.friends, friendId).Some? {
      var k := FindFriend(c.friends, friendId).value;
      assert BlockFriend(b, friendId).friends == c.friends;
    }
  }

  /** `openDM`: for a known, unblocked friend, the conversation under the DM
      id is created if missing and opened, the channel is deselected and the
      friend's unread count cleared. */
  function OpenDM(c: Chat, friendId: string): (r: Chat)
    ensures FindFriend(c.friends, friendId).None? ==> r == c
    ensures FindFriend(c.friends, friendId).Some? && c.friends[FindFriend(c.friends, friendId).value].isBlocked ==> r == c
    ensures FindFriend(c.friends, friendId).Some? && !c.friends[FindFriend(c.friends, friendId).value].isBlocked ==>
      var key := DMId(c.me.id, friendId);
      var k := FindFriend(c.friends, friendId).value;
      && key in r.dms && r.currentDM == Some(r.dms[key]) && r.currentChannel.None?
      && (key in c.dms ==> r.dms == c.dms)
      && (key !in c.dms ==> r.dms == c.dms[key := DirectMessage(key, [c.me.id, friendId], [])])
      && r.friends == c.friends[k := c.friends[k].(unreadCount := 0)]
      && r == c.(dms := r.dms, currentDM := r.currentDM, currentChannel := r.currentChannel, friends := r.friends)
  {
    match FindFriend(c.friends, friendId)
    case None => c
    case Some(k) =>
      if c.friends[k].isBlocked then c
      else
        var key := DMId(c.me.id, friendId);
        var dms := if key in c.dms then c.dms else c.dms[key := DirectMessage(key, [c.me.id, friendId], [])];
        c.(dms := dms, currentDM := Some(dms[key]), currentChannel := None,
           friends := c.friends[k := c.friends[k].(unreadCount := 0)])
  }

  // ---------------------------------------------------------------------------
  // Sending

  /** The preview shown for a friend's last message: at most 30 characters
      of the content, followed by "..." when it was cut. */
  function Preview(content: string): (p: string)
    ensures |p| <= PreviewLength + 3
    ensures |content| <= PreviewLength ==> p == content
    ensures |content| > PreviewLength ==>
      |p| == PreviewLength + 3 && p[..PreviewLength] == content[..PreviewLength] && p[PreviewLength..] == "..."
  {
    if |content| > PreviewLength then content[..PreviewLength] + "..." else content
  }

  /** `sendMessage`: the trimmed text is appended to the open conversation,
      updating the preview and unread count of the first friend who is its
      other participant, or else to the selected channel; with neither, or
      with only whitespace typed, nothing happens. */
  function SendMessage(c: Chat, input: string, msgId: string, timestamp: string, date: string): (r: Chat)
    ensures AllSpace(input) ==> r == c
    ensures c.currentDM.None? && c.currentChannel.None? ==> r == c
    ensures !AllSpace(input) && c.currentDM.Some? ==>
      var dm := c.currentDM.value;
      var m := Message(msgId, c.me.username, c.me.id, Trim(input), timestamp, date, InChat(dm.id));
      && r.currentDM == Some(dm.(messages := dm.messages + [m]))
      && r.dms == (if dm.id in c.dms then c.dms[dm.id := r.currentDM.value] else c.dms)
      && |r.friends| == |c.friends|
      && r == c.(currentDM := r.currentDM, dms := r.dms, friends := r.friends)
    ensures !AllSpace(input) && c.currentDM.Some? ==>
      var other := OtherParticipant(c.currentDM.value.participants, c.me.id);
      var k := if other.Some? then FindFriend(c.friends, other.value) else None;
      && (k.None? ==> r.friends == c.friends)
      && (k.Some? ==>
            && r.friends[k.value].lastMessage == Some(LastMessage(Preview(Trim(input)), timestamp))
            && r.friends[k.value].unreadCount == c.friends[k.value].unreadCount + 1
            && r.friends[k.value] == c.friends[k.value].(lastMessage := r.friends[k.value].lastMessage,
                                                         unreadCount := r.friends[k.value].unreadCount)
            && forall j | 0 <= j < |c.friends| && j != k.value :: r.friends[j] == c.friends[j])
    ensures !AllSpace(input) && c.currentDM.None? && c.currentChannel.Some? ==>
      var ch := c.currentChannel.value;
      var m := Message(msgId, c.me.username, c.me.id, Trim(input), timestamp, date, InChannel(ch.id));
      && r.channelMessages.Keys == c.channelMessages.Keys + {ch.id}
      && r.channelMessages[ch.id] == (if ch.id in c.channelMessages then c.channelMessages[ch.id] else []) + [m]
      && (forall id | id in c.channelMessages && id != ch.id :: r.channelMessages[id] == c.channelMessages[id])
      && r == c.(channelMessages := r.channelMessages)
  {
    var content := Trim(input);
    if content == "" then c
    else if c.currentDM.Some? then
      var dm := c.currentDM.value;
      var m := Message(msgId, c.me.username, c.me.id, content, timestamp, date, InChat(dm.id));
      var dm' := dm.(messages := dm.messages + [m]);
      var dms := if dm.id in c.dms then c.dms[dm.id := dm'] else c.dms;
      var other := OtherParticipant(dm.participants, c.me.id);
      var k := if other.Some? then FindFriend(c.friends, other.value) else None;
      var friends :=
        if k.None? then c.friends
        else
          var f := c.friends[k.value];
          c.friends[k.value := f.(lastMessage := Some(LastMessage(Preview(content), timestamp)),
                                  unreadCount := f.unreadCount + 1)];
      c.(currentDM := Some(dm'), dms := dms, friends := friends)
    else if c.currentChannel.Some? then
      var ch := c.currentChannel.value;
      var m := Message(msgId, c.me.username, c.me.id, content, timestamp, date, InChannel(ch.id));
      var before := if ch.id in c.channelMessages then c.channelMessages[ch.id] else [];
      c.(channelMessages := c.channelMessages[ch.id := before + [m]])
    else c
  }

  /** The conversation store as the operations above build it: every entry
      sits under its own id, is between the user and one other participant,
      and that id is the DM id of the pair; ids carry no underscore (the
      clock-drawn ids are digit strings); and the open conversation is the
      entry stored under its id. */
  predicate ConversationsConsistent(c: Chat) {
    && '_' !in c.me.id
    && (forall j | 0 <= j < |c.friends| :: '_' !in c.friends[j].id)
    && (forall k | k in c.dms ::
          && c.dms[k].id == k
          && |c.dms[k].participants| == 2
          && c.dms[k].participants[0] == c.me.id
          && '_' !in c.dms[k].participants[1]
          && k == DMId(c.me.id, c.dms[k].participants[1]))
    && (c.currentDM.Some? ==>
          c.currentDM.value.id in c.dms && c.dms[c.currentDM.value.id] == c.currentDM.value)
  }

  lemma AddFriendKeepsConversations(c: Chat, input: string, id: string)
    requires ConversationsConsistent(c)
    requires '_' !in id
    requires AddFriend(c, input, id).Success?
    ensures ConversationsConsistent(AddFriend(c, input, id).value)
  {
    var r := AddFriend(c, input, id).value;
    forall j | 0 <= j < |r.friends| ensures '_' !in r.friends[j].id {
      if j < |c.friends| { assert r.friends[j] == c.friends[j]; }
    }
  }

  /** Removing a friend never leaves the open conversation pointing at the
      entry it deletes: the DM id names one pair of users, so an open
      conversation stored under it involves that friend and is closed.
      Friend ids are clock-drawn digit strings, hence free of underscores. */
  lemma RemoveFriendKeepsConversations(c: Chat, friendId: string)
    requires ConversationsConsistent(c)
    requires '_' !in friendId
    ensures ConversationsConsistent(RemoveFriend(c, friendId))
  {
    var r := RemoveFriend(c, friendId);
    var key := DMId(c.me.id, friendId);
    forall j | 0 <= j < |r.friends| ensures '_' !in r.friends[j].id {
      assert r.friends[j] in c.friends;
    }
    if r.currentDM.Some? {
      var dm := c.currentDM.value;
      assert r.currentDM == c.currentDM;
      assert friendId !in dm.participants;
      if dm.id == key {
        var p := dm.participants[1];
        assert DMId(c.me.id, p) == DMId(c.me.id, friendId);
        DMIdDeterminesPair(c.me.id, p, c.me.id, friendId);
        assert false;
      }
    }
  }

  lemma SendMessageKeepsConversations(c: Chat, input: string, msgId: string, timestamp: string, date: string)
    requires ConversationsConsistent(c)
    ensures ConversationsConsistent(SendMessage(c, input, msgId, timestamp, date))
  {
    var r := SendMessage(c, input, msgId, timestamp, date);
    forall j | 0 <= j < |r.friends| ensures r.friends[j].id == c.friends[j].id {
    }
  }

  lemma OpenDMKeepsConversations(c: Chat, friendId: string)
    requires ConversationsConsistent(c)
    ensures ConversationsConsistent(OpenDM(c, friendId))
  {
    var r := OpenDM(c, friendId);
    forall j | 0 <= j < |r.friends| ensures r.friends[j].id == c.friends[j].id {
    }
  }

  lemma BlockFriendKeepsConversations(c: Chat, friendId: string)
    requires ConversationsConsistent(c)
    ensures ConversationsConsistent(BlockFriend(c, friendId))
  {
    var r := BlockFriend(c, friendId);
    forall j | 0 <= j < |r.friends| ensures r.friends[j].id == c.friends[j].id {
    }
  }
}
