/** The per-peer playback registry of AudioManager.cs.
    The source keeps one static dictionary per playback backend, keyed by the peer's
    SteamId, and a static selector saying which backend is in use. The library objects
    stored in those dictionaries (a buffer provider and an output device) are abstracted
    into the value record `Channel`. */
module Audio {

  /** One byte of PCM or encoded audio. */
  newtype byte = x: int | 0 <= x < 256

  /** Steamworks' SteamId: a 64-bit unsigned account id, compared by value. */
  newtype SteamId = x: int | 0 <= x < 0x1_0000_0000_0000_0000

  /** The enum PlaybackBackend. */
  datatype Backend = NAudio | CSCore

  /** A playback pair (buffer provider + output device) seen from outside:
      the bytes written into its buffer so far, whether the device was started,
      and whether the pair has been disposed. */
  datatype Channel = Channel(queued: seq<byte>, playing: bool, disposed: bool)

  /** A channel right after creation: device initialised and playing, nothing buffered. */
  const Started := Channel([], true, false)

  predicate Live(c: Channel) {
    c.playing && !c.disposed
  }

  predicate AllLive(m: map<SteamId, Channel>) {
    forall p :: p in m ==> Live(m[p])
  }

  /** The registry's whole state: the selector and the two dictionaries
      (WaveOuts for NAudio, AudioSources for CSCore). */
  datatype Registry = Registry(backend: Backend,
                               waveOuts: map<SteamId, Channel>,
                               audioSources: map<SteamId, Channel>)
  {
    /** The dictionary of the currently selected backend. */
    function Active(): map<SteamId, Channel> {
      match backend
      case NAudio => waveOuts
      case CSCore => audioSources
    }

    /** The dictionary of the backend that is not selected. */
    function Inactive(): map<SteamId, Channel> {
      match backend
      case NAudio => audioSources
      case CSCore => waveOuts
    }

    /** The same registry with the selected backend's dictionary replaced. */
    function WithActive(m: map<SteamId, Channel>): (r: Registry)
      ensures r.backend == backend && r.Active() == m && r.Inactive() == Inactive()
    {
      match backend
      case NAudio => this.(waveOuts := m)
      case CSCore => this.(audioSources := m)
    }

    /** Every channel held in either dictionary is started and not disposed. */
    predicate Valid() {
      AllLive(waveOuts) && AllLive(audioSources)
    }

    lemma ValidBySelection()
      ensures Valid() <==> AllLive(Active()) && AllLive(Inactive())
    {
    }
  }

  /** DoesPlaybackExist: membership in the selected backend's dictionary only. */
  predicate Exists(r: Registry, p: SteamId): (b: bool)
    ensures b <==> p in (if r.backend == NAudio then r.waveOuts else r.audioSources)
  {
    p in r.Active()
  }

  /** `r2` differs from `r` at most by bytes appended to the buffers of the selected
      backend's channels: same selector, same other dictionary, same peers, same flags. */
  predicate OnlyQueued(r: Registry, r2: Registry) {
    && r2.backend == r.backend
    && r2.Inactive() == r.Inactive()
    && r2.Active().Keys == r.Active().Keys
    && forall q :: q in r.Active() ==>
         && r2.Active()[q].playing == r.Active()[q].playing
         && r2.Active()[q].disposed == r.Active()[q].disposed
         && r.Active()[q].queued <= r2.Active()[q].queued
  }

  /** CreateAudioPlayback (through CreateWaveOut / CreateAudioSource). */
  function Create(r: Registry, p: SteamId): (r2: Registry)
    ensures r2.backend == r.backend && r2.Inactive() == r.Inactive()
    ensures Exists(r2, p)
    ensures Exists(r, p) ==> r2 == r
    ensures !Exists(r, p) ==> r2.Active()[p] == Started
    ensures r2.Active().Keys == r.Active().Keys + {p}
    ensures forall q :: q in r.Active() ==> r2.Active()[q] == r.Active()[q]
    ensures r.Valid() ==> r2.Valid()
  {
    r.ValidBySelection();
    var r2 := if p in r.Active() then r else r.WithActive(r.Active()[p := Started]);
    r2.ValidBySelection();
    r2
  }

  /** RemoveAudioPlayback, as seen by the registry: the peer's entry is erased from the
      selected dictionary. The peer must be present (the lookup uses the throwing indexer). */
  function Remove(r: Registry, p: SteamId): (r2: Registry)
    requires Exists(r, p)
    ensures r2.backend == r.backend && r2.Inactive() == r.Inactive()
    ensures !Exists(r2, p)
    ensures r2.Active().Keys == r.Active().Keys - {p}
    ensures forall q :: q in r2.Active() ==> r2.Active()[q] == r.Active()[q]
    ensures r.Valid() ==> r2.Valid()
  {
    r.ValidBySelection();
    var r2 := r.WithActive(r.Active() - {p});
    r2.ValidBySelection();
    r2
  }

  /** The channel that RemoveAudioPlayback tears down, after its cleanup: the device is
      stopped and disposed; the NAudio path also clears the buffer first. */
  function Retire(c: Channel, b: Backend): (d: Channel)
    ensures !d.playing && d.disposed
    ensures b == NAudio ==> d.queued == []
    ensures b == CSCore ==> d.queued == c.queued
  {
    match b
    case NAudio => Channel([], false, true)
    case CSCore => c.(playing := false, disposed := true)
  }

  /** QueueDataForPlayback: the first `length` bytes of `data` are appended to the peer's
      buffer. There is no lazy creation: the peer must already be present. */
  function Queue(r: Registry, p: SteamId, data: seq<byte>, length: int): (r2: Registry)
    requires Exists(r, p) && 0 <= length <= |data|
    ensures OnlyQueued(r, r2)
    ensures r2.Active()[p].queued == r.Active()[p].queued + data[..length]
    ensures forall q :: q in r.Active() && q != p ==> r2.Active()[q] == r.Active()[q]
    ensures r.Valid() ==> r2.Valid()
  {
    r.ValidBySelection();
    var c := r.Active()[p];
    var r2 := r.WithActive(r.Active()[p := c.(queued := c.queued + data[..length])]);
    r2.ValidBySelection();
    r2
  }

  /** The selector flipped to the other backend (an assignment to PlaybackBackend). */
  function Switched(r: Registry): (r2: Registry)
    ensures r2.backend != r.backend
    ensures r2.Active() == r.Inactive() && r2.Inactive() == r.Active()
  {
    r.(backend := if r.backend == NAudio then CSCore else NAudio)
  }

  /** Existence is relative to the selector: a peer created under one backend is not
      reported once the selector is switched, unless the other dictionary had it. */
  lemma CreatedPeerHiddenAfterSwitch(r: Registry, p: SteamId)
    requires !Exists(Switched(r), p)
    ensures Exists(Create(r, p), p)
    ensures !Exists(Switched(Create(r, p)), p)
  {
  }

  /** Removing a peer and creating it again yields a started channel with an empty
      buffer: nothing queued before the removal is played afterwards. */
  lemma RecreatedChannelIsFresh(r: Registry, p: SteamId, data: seq<byte>, length: int)
    requires Exists(r, p) && 0 <= length <= |data|
    ensures Create(Remove(Queue(r, p, data, length), p), p).Active()[p] == Started
  {
  }

  /** The registry object: the static class AudioManager with its three static fields. */
  class AudioManager {
    var backend: Backend
    var waveOuts: map<SteamId, Channel>
    var audioSources: map<SteamId, Channel>
    /** The channels torn down by RemoveAudioPlayback, oldest first. The source drops
        them once disposed; the log lets their final state be stated. */
    ghost var released: seq<Channel>

    function State(): Registry
      reads this
    {
      Registry(backend, waveOuts, audioSources)
    }

    ghost predicate Valid()
      reads this
    {
      && State().Valid()
      && forall i :: 0 <= i < |released| ==> !released[i].playing && released[i].disposed
    }

    /** The static initialisers: CSCore selected, both dictionaries empty. */
    constructor ()
      ensures Valid()
      ensures State() == Registry(CSCore, map[], map[]) && released == []
    {
      backend := CSCore;
      waveOuts := map[];
      audioSources := map[];
      released := [];
    }

    method CreateWaveOut(p: SteamId)
      modifies this`waveOuts
      ensures p in waveOuts
      ensures p in old(waveOuts) ==> waveOuts == old(waveOuts)
      ensures p !in old(waveOuts) ==> waveOuts == old(waveOuts)[p := Started]
    {
      if p in waveOuts {
        return;
      }
      var pair := Started;  // new provider and device; Init, Play
      if p !in waveOuts {   // TryAdd
        waveOuts := waveOuts[p := pair];
      }
    }

    method CreateAudioSource(p: SteamId)
      modifies this`audioSources
      ensures p in audioSources
      ensures p in old(audioSources) ==> audioSources == old(audioSources)
      ensures p !in old(audioSources) ==> audioSources == old(audioSources)[p := Started]
    {
      if p in audioSources {
        return;
      }
      var pair := Started;  // new source and device; Initialize, Play
      if p !in audioSources {  // TryAdd
        audioSources := audioSources[p := pair];
      }
    }

    /** GetAudioPlayback: the indexer on the selected dictionary, which throws for an
        absent key. */
    method GetAudioPlayback(p: SteamId) returns (c: Channel)
      requires Exists(State(), p)
      ensures p in (if backend == NAudio then waveOuts else audioSources)
      ensures c == (if backend == NAudio then waveOuts else audioSources)[p]
    {
      match backend
      case NAudio => c := waveOuts[p];
      case CSCore => c := audioSources[p];
    }

    method CreateAudioPlayback(p: SteamId)
      requires Valid()
      modifies this
      ensures Valid()
      ensures State() == Create(old(State()), p) && released == old(released)
    {
      match backend
      case NAudio => CreateWaveOut(p);
      case CSCore => CreateAudioSource(p);
    }

    method RemoveAudioPlayback(p: SteamId)
      requires Valid() && Exists(State(), p)
      modifies this
      ensures Valid()
      ensures State() == Remove(old(State()), p)
      ensures released == old(released) + [Retire(old(State().Active()[p]), backend)]
    {
      var c := GetAudioPlayback(p);
      match backend
      case NAudio =>
        c := c.(queued := []);      // ClearBuffer
        c := c.(playing := false);  // Stop
        c := c.(disposed := true);  // Dispose
        released := released + [c];
        waveOuts := waveOuts - {p};
      case CSCore =>
        c := c.(playing := false);  // Stop
        c := c.(disposed := true);  // Dispose device and source
        released := released + [c];
        audioSources := audioSources - {p};
    }

    method DoesPlaybackExist(p: SteamId) returns (b: bool)
      ensures b == Exists(State(), p)
      ensures b <==> p in (if backend == NAudio then waveOuts else audioSources)
    {
      match backend
      case NAudio => b := p in waveOuts;
      case CSCore => b := p in audioSources;
    }

    method QueueDataForPlayback(p: SteamId, data: seq<byte>, length: int)
      requires Valid() && Exists(State(), p) && 0 <= length <= |data|
      modifies this
      ensures Valid()
      ensures State() == Queue(old(State()), p, data, length) && released == old(released)
    {
      var c := GetAudioPlayback(p);
      c := c.(queued := c.queued + data[..length]);  // AddSamples / Write
      match backend
      case NAudio => waveOuts := waveOuts[p := c];
      case CSCore => audioSources := audioSources[p := c];
    }
  }
}
