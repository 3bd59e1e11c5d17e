# Per-peer playback registry of OpenVoiceSharpSteamworks, in Dafny

OpenVoiceSharpSteamworks is a Steam peer-to-peer voice chat. The microphone's frames are
encoded and sent to every member of the current Steam lobby. Each received packet is decoded and
queued into a separate audio output channel for its sender. This project models that core in two
modules:

- `Audio` (`audio.dfy`) models `AudioManager.cs`. The static class becomes the class
  `AudioManager`. It has the backend selector `backend` (`PlaybackBackend`) and one
  `map<SteamId, Channel>` per backend: `waveOuts` for NAudio and `audioSources` for CSCore.
  A `Channel` record stands for the library's buffer-and-device pair. It holds the bytes written
  so far and the `playing` and `disposed` flags. The ghost log `released` records the channels
  that removal tore down. The methods `CreateAudioPlayback`, `RemoveAudioPlayback`,
  `QueueDataForPlayback` and `DoesPlaybackExist` are proved equal to the pure functions `Create`,
  `Remove`, `Queue` and `Exists` on the value `Registry` (the selector plus both maps). The properties of the
  registry are stated on those functions: idempotent creation, at most one channel per peer,
  presence required by remove and queue, changes confined to the selected map and the named peer,
  and existence relative to the selected backend.
- `Program` (`program.dfy`) models the top-level handlers of `Program.cs` as the class `Session`.
  Its state is the current lobby (`Option<Lobby>`), the local id, the `DisableLoopback` flag, the
  codec and a log of `SendP2PPacket` calls. The handlers are the member-joined and member-left
  events, `SetupLobby`, lobby entry, the microphone callback, `HandleMessageFrom` and one drain
  pass of the receive loop. Each is proved against a pure function: `Join`, `Leave`, `CreateAll`,
  `Broadcast`, `Handle`, `Drain`.

The code does not create channels lazily. `QueueDataForPlayback` and `RemoveAudioPlayback` look the
peer up with the dictionary indexer, which throws when the key is absent. So the model requires
the peer to be present for both operations. Neither operation creates a channel lazily or
tolerates an absent peer; the model follows the code. The only guarded
removal is in the member-left handler: `Leave` is total and calls `Remove` only behind the
existence check. The receive path keeps the precondition: `Handle`, `Drain` and the methods built
on them require every sender they do not filter out to have a channel already.
`SetupEnablesDrain` shows that lobby setup provides this for lobby members.

The codec (`VoiceChatInterface.SubmitAudioData` / `WhenDataReceived`) is a pair of arbitrary
function values in `Config.codec`. Each returns a `Frame` whose length never exceeds its buffer.
`DisableLoopback` is `false` in the source. The model keeps it as the parameter
`Config.disableLoopback`, so its properties hold for both settings. The transport is the `sent` log for sending and a finite sequence of reads for receiving. An
empty read (`packet.HasValue` false) is `None`.

## Model

| member | source | states |
|---|---|---|
| `Audio.Create` | AudioManager.cs:82-89 | The peer exists afterwards. If it already existed, nothing changes (idempotent). Otherwise its new channel is started with an empty buffer. The selected map gains exactly that key and no existing channel is replaced. The selector and the other backend's map are unchanged, and all channels stay live. |
| `Audio.Remove` | AudioManager.cs:90-120 | Needs the peer present, as the indexer lookup does. Afterwards the peer does not exist, only its key has left the selected map, all other channels are identical, and the selector and the other map are unchanged. |
| `Audio.Retire` | AudioManager.cs:95-118 | A torn-down channel is stopped and disposed. NAudio also clears its buffer (`ClearBuffer`). The CSCore path does not clear the buffer before disposing it; the model leaves `queued` as it was. |
| `Audio.Queue` | AudioManager.cs:130-149 | Needs the peer present and `0 <= length <= |data|`. Appends exactly `data[..length]` to that peer's buffer. Every other channel, the set of peers, the flags, the selector and the other map are unchanged. |
| `Audio.Exists` | AudioManager.cs:121-129 | True exactly when the peer is a key of the map the current selector picks: `waveOuts` under NAudio, `audioSources` under CSCore. |
| `Audio.Switched` | AudioManager.cs:16 | An assignment of the other backend to `PlaybackBackend`: the selector changes, and the maps trade roles between selected and not selected. |
| `Audio.CreatedPeerHiddenAfterSwitch` | AudioManager.cs:121-129 | A peer created under one backend exists there. After the selector is switched, it is not reported unless the other map already held it. |
| `Audio.RecreatedChannelIsFresh` | AudioManager.cs:82-120 | Queue to a peer, remove it and create it again: the new channel is started with an empty buffer, so no stale bytes are played. |
| `Audio.AudioManager.constructor` | AudioManager.cs:14-49 | Initial state: CSCore selected and both maps empty. |
| `Audio.AudioManager.CreateWaveOut` | AudioManager.cs:24-38 | Adds a started channel for the peer to `waveOuts` only when the key is absent. Otherwise the map is unchanged. |
| `Audio.AudioManager.CreateAudioSource` | AudioManager.cs:51-65 | Adds a started channel for the peer to `audioSources` only when the key is absent. Otherwise the map is unchanged. |
| `Audio.AudioManager.GetAudioPlayback` | AudioManager.cs:72-80 | Needs the key in the selected map. Returns that map's channel for the peer. |
| `Audio.AudioManager.CreateAudioPlayback` | AudioManager.cs:82-89 | The new registry state is `Create` of the old one. The released log is unchanged. |
| `Audio.AudioManager.RemoveAudioPlayback` | AudioManager.cs:90-120 | Needs the peer present. The new state is `Remove` of the old one. The removed channel, stopped and disposed as `Retire` describes, is appended to the released log. |
| `Audio.AudioManager.DoesPlaybackExist` | AudioManager.cs:121-129 | Changes nothing. Its result equals `Exists` of the current state: true exactly when the peer is a key of the map that the current selector picks. |
| `Audio.AudioManager.QueueDataForPlayback` | AudioManager.cs:130-149 | Needs the peer present and a length within the data. The new state is `Queue` of the old one. |
| `Program.Join` | Program.cs:15-24 | The local user's own join changes nothing. Any other joining peer has a channel afterwards, and only that key can be added. |
| `Program.Leave` | Program.cs:25-33 | Total: removal is reached only behind the existence guard, so an absent key is never removed. Afterwards the peer has no channel. An absent peer leaves the state unchanged, and every other channel is kept. |
| `Program.CreateAll` | Program.cs:35-40 | Creating a channel for each listed id keeps the selector and the other backend's map, and every channel stays live. |
| `Program.CreateAllEffect` | Program.cs:35-40 | After creating a channel for each listed id, every listed id has one. The peers are exactly the old peers plus the listed ids. Existing channels are untouched, and new channels are started and empty. |
| `Program.SetupIdempotent` | Program.cs:35-40 | Setting up the same member list twice gives the same registry as setting it up once. |
| `Program.Broadcast` | Program.cs:86-90 | One send of the encoded frame, with its buffer and length, per member, in member order. |
| `Program.Handle` | Program.cs:109-116 | With loopback disabled, a packet from the local id changes nothing. Otherwise the sender must have a channel, and exactly the decoded bytes are appended to it. No other channel changes and no peer is added or removed. |
| `Program.Drain` | Program.cs:122-128 | A drain pass needs every unfiltered sender present. It only appends to buffers: it keeps the same peers, flags, selector and other map. |
| `Program.DrainAppendsInArrivalOrder` | Program.cs:122-128 | For each peer that has a channel, a drain pass appends exactly the decoded bytes of that peer's packets, in the order they were read. Empty reads and filtered packets add nothing. |
| `Program.LoopbackNeverQueued` | Program.cs:109-112 | With `DisableLoopback` set, none of the local user's packets contribute bytes to any drain pass. |
| `Program.LoopbackLeavesOwnBuffer` | Program.cs:109-112 | With `DisableLoopback` set, a drain pass leaves the local user's own buffer exactly as it was. |
| `Program.SetupEnablesDrain` | Program.cs:114-115 | If every sender is a member of the lobby, a drain pass after that lobby's setup meets the receive path's presence requirement. |
| `Program.JoinReceiveLeave` | Program.cs:15-33 | A remote peer joins, one packet arrives, the peer leaves. Its channel holds exactly that packet's decoded bytes before the leave and is gone after it. |
| `Program.Session.constructor` | Program.cs:7-10 | Start-up: CSCore selected, no channels, no lobby, nothing sent. |
| `Program.Session.OnLobbyMemberJoined` | Program.cs:15-24 | The new registry state is `Join` of the old one. |
| `Program.Session.OnLobbyMemberLeave` | Program.cs:25-33 | The new registry state is `Leave` of the old one. The departed peer's retired channel is logged if and only if it existed. |
| `Program.Session.SetupLobby` | Program.cs:35-40 | The new registry state is `CreateAll` over the lobby's members. |
| `Program.Session.EnterLobby` | Program.cs:41-60 | Stores the lobby, then sets it up. |
| `Program.Session.SendP2PPacket` | Program.cs:89 | Appends one send record to the log. |
| `Program.Session.OnMicrophoneData` | Program.cs:78-91 | Without a lobby, nothing changes and nothing is sent. Otherwise the registry becomes `CreateAll` over the members, and the log grows by `Broadcast` of the encoded frame. |
| `Program.Session.CreateAndSend` | Program.cs:86-90 | The callback's loop over the members: the registry becomes `CreateAll` over the members, and the log grows by exactly `Broadcast` of the frame. |
| `Program.Session.HandleMessageFrom` | Program.cs:109-116 | Needs a channel for the sender unless it is filtered as loopback. The new registry state is `Handle` of the old one. |
| `Program.Session.DrainPackets` | Program.cs:122-128 | Reads in order, skipping empty reads. The new registry state is `Drain` of the old one. |

## Left out

- Audio devices and buffer providers (`DirectSoundOut`, `WasapiOut`, `BufferedWaveProvider`, `WriteableBufferingSource`): foreign library objects. Each pair becomes one `Channel` value, and the device's draining of the buffer is not modelled.
- The buffer policies inside those libraries: the silence fill (`ReadFully`, `FillWithZeros`) and the bounded buffer with discard on overflow. That code is not part of this model, so a buffer is an unbounded, append-only byte sequence.
- The wave formats (sample rate, bit depth, channel count): constants passed to the libraries, with no effect on the registry.
- Object identity: the source appends into the channel object in place. The model replaces the map entry with an updated `Channel` value. No other reference to a channel exists in the source, so no aliasing is lost.
- The `dynamic` tuple returns and casts, and the unreachable `_` arms of the backend switches: the selector is a two-constructor datatype.
- The codec's algorithm: encode and decode are arbitrary functions.
- Failures of the foreign calls: constructing or starting an output device (`new DirectSoundOut()`, `Init`, `Play`, `new WasapiOut()`, `Initialize`, `Play`) and decoding (`WhenDataReceived`) can throw in the source. The exception leaves the map unchanged and escapes the handler. In the model, `Create` and `Decoded` always succeed.
- The Steamworks plumbing: `SteamClient.Init`, `RunCallbacks`, `AcceptP2PSessionWithUser`, the `--host` branch with its asynchronous lobby creation, and the invite handler. They do no registry work beyond the setup modelled by `EnterLobby`.
- The channel number (0) and reliability mode of `SendP2PPacket`: they are constants, so the send log omits them.
- Live lobby membership: `Lobby.Members` queries Steam on each use. The model reads the member list carried by the lobby value.
- The microphone capture start and all console output.
- Concurrency: the microphone and Steam callbacks run on other threads against dictionaries that are not thread-safe. The handlers are modelled as sequential calls.
- The endless outer `while (true)` loop: one drain pass over a finite sequence of reads is modelled.
- Program.CreateAll: its own contract states only what it keeps. What it creates is stated by `Program.CreateAllEffect`.
- Program.Drain: its own contract states only that buffers are appended to. What is appended for each peer is stated by `Program.DrainAppendsInArrivalOrder`.
