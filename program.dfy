/** The event handlers of Program.cs that drive the playback registry: lobby membership
    events, lobby setup, the microphone callback and the packet-receive path.
    The voice codec is a pair of function values, the transport's send is a log of
    sends, and its receive queue is a finite sequence of reads. */
module Program {
  import opened Audio

  datatype Option<T> = None | Some(value: T)

  /** A buffer as the codec returns it, with the count of its valid leading bytes. */
  datatype RawFrame = RawFrame(data: seq<byte>, length: int)

  /** A codec result: the count never exceeds the buffer. */
  type Frame = f: RawFrame | 0 <= f.length <= |f.data| witness RawFrame([], 0)

  /** The bytes a frame carries. */
  function Payload(f: Frame): (s: seq<byte>)
    ensures |s| == f.length
    ensures s <= f.data
  {
    f.data[..f.length]
  }

  /** VoiceChatInterface: SubmitAudioData (encode) and WhenDataReceived (decode),
      uninterpreted: any pair of functions. */
  datatype Codec = Codec(encode: (seq<byte>, int) -> Frame, decode: (seq<byte>, int) -> Frame)

  /** What the handlers read but never change: the local SteamClient.SteamId, the
      DisableLoopback constant and the codec instance. */
  datatype Config = Config(localId: SteamId, disableLoopback: bool, codec: Codec)

  /** A lobby, seen through its member list (the ids of Lobby.Members, the local user
      included). */
  datatype Lobby = Lobby(members: seq<SteamId>)

  /** A packet returned by ReadP2PPacket. */
  datatype Packet = Packet(sender: SteamId, data: seq<byte>)

  /** One SendP2PPacket call: destination, encoded buffer and its length. */
  datatype Send = Send(to: SteamId, data: seq<byte>, length: int)

  /** The loopback filter of HandleMessageFrom. */
  predicate FromSelf(cfg: Config, sender: SteamId) {
    cfg.disableLoopback && sender == cfg.localId
  }

  /** The decoded bytes of one received packet. */
  function Decoded(cfg: Config, data: seq<byte>): seq<byte> {
    Payload(cfg.codec.decode(data, |data|))
  }

  /** The member-joined handler: the local user is skipped, anyone else gets a channel. */
  function Join(cfg: Config, r: Registry, friend: SteamId): (r2: Registry)
    ensures friend == cfg.localId ==> r2 == r
    ensures friend != cfg.localId ==> Exists(r2, friend)
    ensures r2.backend == r.backend && r2.Inactive() == r.Inactive()
    ensures r2.Active().Keys == r.Active().Keys + (if friend == cfg.localId then {} else {friend})
    ensures forall q :: q in r.Active() ==> r2.Active()[q] == r.Active()[q]
    ensures r.Valid() ==> r2.Valid()
  {
    if friend == cfg.localId then r else Create(r, friend)
  }

  /** The member-left handler: removal happens only behind the existence guard, so it
      never reaches the throwing lookup with an absent key. */
  function Leave(r: Registry, friend: SteamId): (r2: Registry)
    ensures !Exists(r2, friend)
    ensures !Exists(r, friend) ==> r2 == r
    ensures r2.backend == r.backend && r2.Inactive() == r.Inactive()
    ensures r2.Active().Keys == r.Active().Keys - {friend}
    ensures forall q :: q in r2.Active() ==> r2.Active()[q] == r.Active()[q]
    ensures r.Valid() ==> r2.Valid()
  {
    if !Exists(r, friend) then r else Remove(r, friend)
  }

  /** CreateAudioPlayback for each id of `ms`, in order. What it creates is stated by
      CreateAllEffect. */
  function CreateAll(r: Registry, ms: seq<SteamId>): (r2: Registry)
    ensures r2.backend == r.backend && r2.Inactive() == r.Inactive()
    ensures r.Valid() ==> r2.Valid()
    decreases |ms|
  {
    if ms == [] then r else Create(CreateAll(r, ms[..|ms| - 1]), ms[|ms| - 1])
  }

  /** After creating a channel for each listed id: every listed id has one, the peers are
      exactly the old ones plus the listed ids, existing channels are untouched and the
      new ones are started and empty. */
  lemma {:induction false} CreateAllEffect(r: Registry, ms: seq<SteamId>)
    ensures forall i :: 0 <= i < |ms| ==> Exists(CreateAll(r, ms), ms[i])
    ensures forall q :: q in CreateAll(r, ms).Active() <==> q in r.Active() || q in ms
    ensures forall q :: q in r.Active() ==> CreateAll(r, ms).Active()[q] == r.Active()[q]
    ensures forall q :: q in CreateAll(r, ms).Active() && q !in r.Active() ==> CreateAll(r, ms).Active()[q] == Started
    decreases |ms|
  {
    if ms != [] {
      var init := ms[..|ms| - 1];
      CreateAllEffect(r, init);
      assert forall q :: q in ms <==> q in init || q == ms[|ms| - 1];
    }
  }

  /** The sends of one microphone callback: the encoded frame to each member, in order. */
  function Broadcast(ms: seq<SteamId>, f: Frame): (s: seq<Send>)
    ensures |s| == |ms|
    ensures forall i :: 0 <= i < |ms| ==> s[i] == Send(ms[i], f.data, f.length)
    decreases |ms|
  {
    if ms == [] then [] else Broadcast(ms[..|ms| - 1], f) + [Send(ms[|ms| - 1], f.data, f.length)]
  }

  /** HandleMessageFrom: a packet from the local user is dropped when loopback is
      disabled; otherwise its decoded bytes go to the sender's existing channel. */
  function Handle(cfg: Config, r: Registry, sender: SteamId, data: seq<byte>): (r2: Registry)
    requires FromSelf(cfg, sender) || Exists(r, sender)
    ensures FromSelf(cfg, sender) ==> r2 == r
    ensures OnlyQueued(r, r2)
    ensures !FromSelf(cfg, sender) ==>
              r2.Active()[sender].queued == r.Active()[sender].queued + Decoded(cfg, data)
    ensures forall q :: q in r.Active() && q != sender ==> r2.Active()[q] == r.Active()[q]
    ensures r.Valid() ==> r2.Valid()
  {
    if FromSelf(cfg, sender) then r
    else
      var f := cfg.codec.decode(data, |data|);
      Queue(r, sender, f.data, f.length)
  }

  /** Every packet of the batch that is present and not filtered out comes from a peer
      that already has a channel. */
  predicate DrainReady(cfg: Config, r: Registry, packets: seq<Option<Packet>>) {
    forall i :: 0 <= i < |packets| && packets[i].Some? && !FromSelf(cfg, packets[i].value.sender) ==>
      Exists(r, packets[i].value.sender)
  }

  lemma DrainReadyPrefix(cfg: Config, r: Registry, packets: seq<Option<Packet>>, n: nat)
    requires DrainReady(cfg, r, packets) && n <= |packets|
    ensures DrainReady(cfg, r, packets[..n])
  {
    forall i | 0 <= i < n
      ensures packets[..n][i] == packets[i]
    {
    }
  }

  lemma OnlyQueuedTransitive(r0: Registry, r1: Registry, r2: Registry)
    requires OnlyQueued(r0, r1) && OnlyQueued(r1, r2)
    ensures OnlyQueued(r0, r2)
  {
    forall q | q in r0.Active()
      ensures r0.Active()[q].queued <= r2.Active()[q].queued
    {
      var a, b, c := r0.Active()[q].queued, r1.Active()[q].queued, r2.Active()[q].queued;
      assert b[..|a|] == a;
      assert c[..|b|][..|a|] == c[..|a|];
    }
  }

  /** One pass of the receive loop over the reads `packets`: empty reads are skipped,
      the others are handled in the order they were read. */
  function Drain(cfg: Config, r: Registry, packets: seq<Option<Packet>>): (r2: Registry)
    requires DrainReady(cfg, r, packets)
    ensures OnlyQueued(r, r2)
    ensures r.Valid() ==> r2.Valid()
    decreases |packets|
  {
    if packets == [] then r
    else
      DrainReadyPrefix(cfg, r, packets, |packets| - 1);
      var r1 := Drain(cfg, r, packets[..|packets| - 1]);
      match packets[|packets| - 1]
      case None => r1
      case Some(pk) =>
        var r2 := Handle(cfg, r1, pk.sender, pk.data);
        OnlyQueuedTransitive(r, r1, r2);
        r2
  }

  /** What one read contributes to peer `q`'s buffer. */
  function Contribution(cfg: Config, read: Option<Packet>, q: SteamId): seq<byte> {
    if read.Some? && read.value.sender == q && !FromSelf(cfg, q) then Decoded(cfg, read.value.data) else []
  }

  /** The decoded bytes that a batch of reads carries for peer `q`, in arrival order. */
  function Arrived(cfg: Config, packets: seq<Option<Packet>>, q: SteamId): seq<byte>
    decreases |packets|
  {
    if packets == [] then []
    else Arrived(cfg, packets[..|packets| - 1], q) + Contribution(cfg, packets[|packets| - 1], q)
  }

  /** The bytes queued so far for peer `q` under the selected backend (none if it has no
      channel there). */
  function Buffer(r: Registry, q: SteamId): seq<byte> {
    if q in r.Active() then r.Active()[q].queued else []
  }

  /** Within one sender, a drain pass appends exactly that sender's decoded bytes, in the
      order the packets were read. */
  lemma {:induction false} DrainAppendsInArrivalOrder(cfg: Config, r: Registry, packets: seq<Option<Packet>>, q: SteamId)
    requires DrainReady(cfg, r, packets) && Exists(r, q)
    ensures Buffer(Drain(cfg, r, packets), q) == Buffer(r, q) + Arrived(cfg, packets, q)
    decreases |packets|
  {
    if packets != [] {
      var init := packets[..|packets| - 1];
      DrainReadyPrefix(cfg, r, packets, |packets| - 1);
      DrainAppendsInArrivalOrder(cfg, r, init, q);
      DrainLastStep(cfg, r, packets, q);
      AppendAssociative(Buffer(r, q), Arrived(cfg, init, q), Contribution(cfg, packets[|packets| - 1], q));
    }
  }

  lemma AppendAssociative(a: seq<byte>, b: seq<byte>, c: seq<byte>)
    ensures a + b + c == a + (b + c)
  {
  }

  /** The effect of the last read of a batch on one peer's buffer. */
  lemma DrainLastStep(cfg: Config, r: Registry, packets: seq<Option<Packet>>, q: SteamId)
    requires DrainReady(cfg, r, packets) && Exists(r, q) && packets != []
    requires DrainReady(cfg, r, packets[..|packets| - 1])
    ensures Buffer(Drain(cfg, r, packets), q) ==
              Buffer(Drain(cfg, r, packets[..|packets| - 1]), q) + Contribution(cfg, packets[|packets| - 1], q)
  {
    var r1 := Drain(cfg, r, packets[..|packets| - 1]);
    match packets[|packets| - 1]
    case None =>
      assert Drain(cfg, r, packets) == r1;
      assert Buffer(r1, q) + [] == Buffer(r1, q);
    case Some(pk) =>
      assert Drain(cfg, r, packets) == Handle(cfg, r1, pk.sender, pk.data);
      if pk.sender != q || FromSelf(cfg, q) {
        assert Buffer(r1, q) + [] == Buffer(r1, q);
      }
  }

  /** With loopback disabled, nothing the local user sends is ever queued. */
  lemma {:induction false} LoopbackNeverQueued(cfg: Config, packets: seq<Option<Packet>>)
    requires cfg.disableLoopback
    ensures Arrived(cfg, packets, cfg.localId) == []
    decreases |packets|
  {
    if packets != [] {
      LoopbackNeverQueued(cfg, packets[..|packets| - 1]);
    }
  }

  /** With loopback disabled, a drain pass leaves the local user's own buffer as it was,
      whatever it reads. */
  lemma LoopbackLeavesOwnBuffer(cfg: Config, r: Registry, packets: seq<Option<Packet>>)
    requires cfg.disableLoopback && DrainReady(cfg, r, packets)
    ensures Buffer(Drain(cfg, r, packets), cfg.localId) == Buffer(r, cfg.localId)
  {
    if Exists(r, cfg.localId) {
      DrainAppendsInArrivalOrder(cfg, r, packets, cfg.localId);
      LoopbackNeverQueued(cfg, packets);
    }
  }

  /** A drain pass right after lobby setup never reaches the throwing lookup, provided
      every remote sender is a lobby member: setup is what discharges the receive path's
      need for a prior channel. */
  lemma SetupEnablesDrain(cfg: Config, r: Registry, lobby: Lobby, packets: seq<Option<Packet>>)
    requires forall i :: 0 <= i < |packets| && packets[i].Some? ==> packets[i].value.sender in lobby.members
    ensures DrainReady(cfg, CreateAll(r, lobby.members), packets)
  {
    CreateAllEffect(r, lobby.members);
  }

  /** Join, one packet, leave: the peer's channel gets the decoded bytes of that packet
      and is gone after the leave. */
  lemma JoinReceiveLeave(cfg: Config, r: Registry, friend: SteamId, data: seq<byte>)
    requires friend != cfg.localId && !Exists(r, friend)
    ensures Exists(Join(cfg, r, friend), friend)
    ensures Handle(cfg, Join(cfg, r, friend), friend, data).Active()[friend].queued == Decoded(cfg, data)
    ensures !Exists(Leave(Handle(cfg, Join(cfg, r, friend), friend, data), friend), friend)
  {
  }

  /** Setting up the same lobby twice creates nothing the first setup did not. */
  lemma {:induction false} SetupIdempotent(r: Registry, ms: seq<SteamId>)
    ensures CreateAll(CreateAll(r, ms), ms) == CreateAll(r, ms)
  {
    CreateAllEffect(r, ms);
    CreateAllOfPresent(CreateAll(r, ms), ms);
  }

  lemma {:induction false} CreateAllOfPresent(r: Registry, ms: seq<SteamId>)
    requires forall i :: 0 <= i < |ms| ==> Exists(r, ms[i])
    ensures CreateAll(r, ms) == r
    decreases |ms|
  {
    if ms != [] {
      CreateAllOfPresent(r, ms[..|ms| - 1]);
    }
  }

  /** The program's mutable state: the current lobby, the transport's send log and the
      registry it drives. */
  class Session {
    const audio: AudioManager
    const cfg: Config
    var lobby: Option<Lobby>
    var sent: seq<Send>

    ghost predicate Valid()
      reads this, audio
    {
      audio.Valid()
    }

    /** Start-up: CSCore is selected and there is no lobby yet. */
    constructor (cfg: Config)
      ensures Valid() && fresh(audio) && this.cfg == cfg
      ensures audio.State() == Registry(CSCore, map[], map[]) && audio.released == []
      ensures lobby == None && sent == []
    {
      this.cfg := cfg;
      var a := new AudioManager();
      a.backend := CSCore;
      audio := a;
      lobby := None;
      sent := [];
    }

    method OnLobbyMemberJoined(friend: SteamId)
      requires Valid()
      modifies audio
      ensures Valid()
      ensures audio.State() == Join(cfg, old(audio.State()), friend) && audio.released == old(audio.released)
    {
      if friend == cfg.localId {
        return;
      }
      audio.CreateAudioPlayback(friend);
    }

    method OnLobbyMemberLeave(friend: SteamId)
      requires Valid()
      modifies audio
      ensures Valid()
      ensures audio.State() == Leave(old(audio.State()), friend)
      ensures audio.released == old(audio.released) +
                (if Exists(old(audio.State()), friend)
                 then [Retire(old(audio.State()).Active()[friend], audio.backend)] else [])
    {
      var present := audio.DoesPlaybackExist(friend);
      if !present {
        return;
      }
      audio.RemoveAudioPlayback(friend);
    }

    method SetupLobby()
      requires Valid() && lobby.Some?
      modifies audio
      ensures Valid()
      ensures audio.State() == CreateAll(old(audio.State()), lobby.value.members)
      ensures audio.released == old(audio.released)
    {
      var members := lobby.value.members;
      for i := 0 to |members|
        invariant audio.Valid()
        invariant audio.State() == CreateAll(old(audio.State()), members[..i])
        invariant audio.released == old(audio.released)
      {
        audio.CreateAudioPlayback(members[i]);
        assert audio.State() == CreateAll(old(audio.State()), members[..i + 1]) by {
          assert members[..i + 1][..i] == members[..i];
        }
      }
      assert members[..|members|] == members;
    }

    /** OnLobbyEntered and OnLobbyCreated: remember the lobby, then set it up. */
    method EnterLobby(joined: Lobby)
      requires Valid()
      modifies this, audio
      ensures Valid()
      ensures lobby == Some(joined) && sent == old(sent)
      ensures audio.State() == CreateAll(old(audio.State()), joined.members)
      ensures audio.released == old(audio.released)
    {
      lobby := Some(joined);
      SetupLobby();
    }

    /** SteamNetworking.SendP2PPacket, recorded in the send log. */
    method SendP2PPacket(to: SteamId, data: seq<byte>, length: int)
      modifies this`sent
      ensures sent == old(sent) + [Send(to, data, length)]
    {
      sent := sent + [Send(to, data, length)];
    }

    /** The microphone's DataAvailable callback. */
    method OnMicrophoneData(pcm: seq<byte>, length: int)
      requires Valid()
      modifies this`sent, audio
      ensures Valid() && audio.released == old(audio.released)
      ensures lobby.None? ==> audio.State() == old(audio.State()) && sent == old(sent)
      ensures lobby.Some? ==>
                && audio.State() == CreateAll(old(audio.State()), lobby.value.members)
                && sent == old(sent) + Broadcast(lobby.value.members, cfg.codec.encode(pcm, length))
    {
      if lobby.None? {
        return;
      }
      var frame := cfg.codec.encode(pcm, length);
      CreateAndSend(lobby.value.members, frame);
    }

    /** The callback's loop over the members: make sure each has a channel, then send it
        the encoded frame. */
    method CreateAndSend(members: seq<SteamId>, frame: Frame)
      requires Valid()
      modifies this`sent, audio
      ensures Valid() && audio.released == old(audio.released)
      ensures audio.State() == CreateAll(old(audio.State()), members)
      ensures sent == old(sent) + Broadcast(members, frame)
    {
      for i := 0 to |members|
        invariant audio.Valid()
        invariant audio.State() == CreateAll(old(audio.State()), members[..i])
        invariant sent == old(sent) + Broadcast(members[..i], frame)
        invariant audio.released == old(audio.released)
      {
        audio.CreateAudioPlayback(members[i]);
        SendP2PPacket(members[i], frame.data, frame.length);
        assert audio.State() == CreateAll(old(audio.State()), members[..i + 1]) by {
          assert members[..i + 1][..i] == members[..i];
        }
        assert sent == old(sent) + Broadcast(members[..i + 1], frame) by {
          assert members[..i + 1][..i] == members[..i];
        }
      }
      assert members[..|members|] == members;
    }

    method HandleMessageFrom(sender: SteamId, data: seq<byte>)
      requires Valid() && (FromSelf(cfg, sender) || Exists(audio.State(), sender))
      modifies audio
      ensures Valid()
      ensures audio.State() == Handle(cfg, old(audio.State()), sender, data)
      ensures audio.released == old(audio.released)
    {
      if cfg.disableLoopback && sender == cfg.localId {
        return;
      }
      var decoded := cfg.codec.decode(data, |data|);
      audio.QueueDataForPlayback(sender, decoded.data, decoded.length);
    }

    /** One pass of the inner receive loop: read while a packet is available. */
    method DrainPackets(packets: seq<Option<Packet>>)
      requires Valid() && DrainReady(cfg, audio.State(), packets)
      modifies audio
      ensures Valid()
      ensures audio.State() == Drain(cfg, old(audio.State()), packets)
      ensures audio.released == old(audio.released)
    {
      var i := 0;
      while i < |packets|
        invariant 0 <= i <= |packets|
        invariant audio.Valid()
        invariant DrainReady(cfg, old(audio.State()), packets[..i])
        invariant audio.State() == Drain(cfg, old(audio.State()), packets[..i])
        invariant audio.released == old(audio.released)
      {
        DrainReadyPrefix(cfg, old(audio.State()), packets, i + 1);
        assert packets[..i + 1][..i] == packets[..i];
        var packet := packets[i];
        i := i + 1;
        if packet.None? {
          continue;
        }
        HandleMessageFrom(packet.value.sender, packet.value.data);
      }
      assert packets[..|packets|] == packets;
    }
  }
}
