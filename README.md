# Omega chat: a verified model of its core

Omega is a browser chat application. Users enter a room by its six-character code. In the room they exchange text, files and voice clips, can encrypt messages with a toy cipher or turn them into Egyptian hieroglyphs, and can start an audio or video call between the participants. This project models in Dafny the parts of the code that carry logic, and proves what that code promises:

- **Call sessions** (`webrtc.dfy`, `src/hooks/useWebRTC.ts`): peers, call flags, the local stream and the signaling channel as one `CallSession` class. Browser objects are abstract:
  - every `RTCPeerConnection` and `MediaStreamTrack` is an entry in a handle table, so peers, streams and handlers share them as the JavaScript objects are shared;
  - `getUserMedia` is a `granted` flag;
  - the `BroadcastChannel` is an outbox of posted messages.

  Each method is proved equal to a specification function on a `Session` value, and the lemmas state what those functions do.
- **Message encryption** (`encryption.dfy`, `base64.dfy`, `hieroglyphs.dfy`, `src/hooks/useEncryption.ts`): the XOR cipher with a cycled key, wrapped in `btoa`/`atob`; the random key; the four modes; the glyph table and its reverse. `btoa`/`atob` follow section 4 of RFC 4648 for encoding and the forgiving-base64 decoder of the WHATWG Infra standard for decoding.
- **Components** (`src/components/omega/`):
  - the upload zone (`fileupload.dfy`);
  - a message's action menu (`messageactions.dfy`);
  - the voice recorder (`audiorecorder.dfy`);
  - the entry screen (`welcomescreen.dfy`);
  - the two-screen switch (`omegaapp.dfy`);
  - the chat screen's send logic (`chatroom.dfy`).
- **Message records** (`roomdata.dfy`, `src/hooks/useRoomData.ts`): the record `sendMessage` inserts, and the storage path `uploadFile` builds.

`jstext.dfy` holds what JavaScript strings need:
- strings as UTF-16 code units;
- `trim`;
- ASCII case mapping;
- decimal `toString`;
- `charAt`;
- `Math.floor(Math.random() * n)`.

The model follows the code where it differs from the design the project describes:
- There is no glare tie-break.
- ICE candidates are applied directly and are lost when they cannot be applied. There is no queue.
- `user-joined` adds a second entry for an id that is already listed.
- Join and leave announcements carry no `to` field, so every receiver drops them.
- `startCall` has no guard against a call that is already active.

## Model

| member | source | states |
|---|---|---|
| JsText.Trim | src/components/omega/WelcomeScreen.tsx:28 | `trim` gives the slice left after the leading and trailing whitespace. Its ends are not whitespace, and it is empty exactly when the string is blank. |
| JsText.ToUpperAscii | src/components/omega/WelcomeScreen.tsx:127 | `toUpperCase` keeps the length and upper-cases each unit. |
| JsText.ToLowerAscii | src/hooks/useEncryption.ts:128 | `toLowerCase` keeps the length and lower-cases each unit. |
| JsText.Decimal | src/components/omega/ChatRoom.tsx:55 | `toString` of a non-negative integer is a non-empty string of decimal digits without a leading zero. |
| JsText.DecimalRoundTrip | src/components/omega/ChatRoom.tsx:55 | Reading the digits back gives the number again. |
| JsText.DecimalInjective | src/components/omega/ChatRoom.tsx:55 | Different numbers give different strings. |
| JsText.CharAt | src/components/omega/ChatRoom.tsx:93 | `charAt` gives the one unit at an index in range, and the empty string otherwise. |
| JsText.ScaledIndexInRange | src/components/omega/WelcomeScreen.tsx:22 | `Math.floor(Math.random() * n)` lies in [0, n) for a non-empty alphabet. |
| JsText.DrawnString | src/components/omega/WelcomeScreen.tsx:20-23 | The drawing loop adds at most one unit per value drawn, and nothing from an empty alphabet. |
| JsText.DrawnStringShape | src/components/omega/WelcomeScreen.tsx:20-23 | From a non-empty alphabet, the loop adds exactly one unit per value drawn, the unit at `Math.floor(value * length)`. |
| WebRtc.CallSession.constructor | src/hooks/useWebRTC.ts:12-21 | No peers, all three flags false, no stream, no channel, empty tables and outbox. |
| WebRtc.CallSession.CreatePeerConnection | src/hooks/useWebRTC.ts:23-52 | A fresh open connection for the peer id, with no tracks, descriptions or candidates, is appended to the table. Its handle is the old table length. Nothing else changes. |
| WebRtc.CallSession.InitializeSignaling | src/hooks/useWebRTC.ts:54-58 | Opens the room's channel only when none is open; nothing else changes. |
| WebRtc.CallSession.OnTrack | src/hooks/useWebRTC.ts:43-49 | The new state is `OnTrackSpec` of the old state. |
| WebRtc.OnTrackEffect | src/hooks/useWebRTC.ts:43-49 | `ontrack` sets the first remote stream on exactly the peers whose id is the connection's peer id. The list length and every other peer are unchanged. |
| WebRtc.CallSession.OnIceCandidate | src/hooks/useWebRTC.ts:31-41 | The new state is `OnIceCandidateSpec`: when a channel is open and there is a candidate, one ice-candidate message addressed to the connection's peer is posted; otherwise nothing happens. |
| WebRtc.CallSession.StartCall | src/hooks/useWebRTC.ts:115-172 | The new state is `StartCallSpec` of the old state, and the session invariant holds. |
| WebRtc.StartCallState | src/hooks/useWebRTC.ts:117-158 | The state after a granted media request equals `StartCallSpec`. |
| WebRtc.StartCallStream | src/hooks/useWebRTC.ts:117-124 | A granted start sets `isCallActive`, sets `isVideoEnabled` to `video` and keeps the peers. The local stream is new handles for one audio track, plus one video track when `video` is true. |
| WebRtc.StartCallConnections | src/hooks/useWebRTC.ts:133-158 | Every local track is added to every peer's connection, each of which gets an offer as local description. Every other connection is unchanged. |
| WebRtc.StartCallOutbox | src/hooks/useWebRTC.ts:140-158 | The outbox grows by one `user-joined` announcement without `to`, then one offer addressed to each peer, in list order. |
| WebRtc.StartCallFailure | src/hooks/useWebRTC.ts:116-171 | A refused media request leaves the whole state unchanged and posts nothing. |
| WebRtc.AddTracksToPeers | src/hooks/useWebRTC.ts:133-137 | The nested `forEach` loop equals `AddSenders`. |
| WebRtc.OfferToPeers | src/hooks/useWebRTC.ts:147-158 | The offer loop equals `OfferAll` on the connections, and it posts `Offers` after what was already posted. |
| WebRtc.CallSession.EndCall | src/hooks/useWebRTC.ts:174-202 | The new state is `EndCallSpec` of the old state. |
| WebRtc.EndCallState | src/hooks/useWebRTC.ts:174-202 | The computed state equals `EndCallSpec`. |
| WebRtc.EndCallEffects | src/hooks/useWebRTC.ts:174-202 | Ending a call has these effects:<br>- every local track is stopped;<br>- exactly the peers' connections become closed;<br>- the peers are emptied;<br>- all flags become false and both slots empty;<br>- one `user-left` announcement is posted exactly when a channel was open. |
| WebRtc.CloseConnections | src/hooks/useWebRTC.ts:180-182 | The close loop equals `CloseAll`. |
| WebRtc.StopStreamTracks | src/hooks/useWebRTC.ts:175-178 | The stop loop equals `StopTracks`. |
| WebRtc.CallSession.ToggleMute | src/hooks/useWebRTC.ts:204-212 | The new state is `ToggleMuteSpec` of the old state. |
| WebRtc.ToggleMuteEffect | src/hooks/useWebRTC.ts:204-212 | After a toggle that found an audio track, `isMuted` is the negation of that track's `enabled`. Without a stream or an audio track, nothing changes. |
| WebRtc.ToggleMuteTwice | src/hooks/useWebRTC.ts:204-212 | Two toggles restore every track flag, and `isMuted` is again the negation of `enabled`. |
| WebRtc.CallSession.ToggleVideo | src/hooks/useWebRTC.ts:214-248 | The new state is `ToggleVideoSpec` of the old state. |
| WebRtc.ToggleVideoEffect | src/hooks/useWebRTC.ts:214-248 | An existing video track has its flag flipped and `isVideoEnabled` set to it. Without one, while video is off, a granted request adds an enabled video track to the stream and to every peer's connection, and sets the flag. Otherwise nothing changes. |
| WebRtc.CallSession.HandleMessage | src/hooks/useWebRTC.ts:60-112 | The new state is `HandleSpec` of the old state and of the peer list the handler searches. |
| WebRtc.CallSession.HandleOffer | src/hooks/useWebRTC.ts:69-81 | The new state is `OfferSpec`. |
| WebRtc.CallSession.HandleAnswer | src/hooks/useWebRTC.ts:83-85 | The new state is `AnswerSpec`. |
| WebRtc.CallSession.HandleIceCandidate | src/hooks/useWebRTC.ts:87-89 | The new state is `IceSpec`. |
| WebRtc.CallSession.HandleUserJoined | src/hooks/useWebRTC.ts:91-100 | The new state is `UserJoinedSpec`. |
| WebRtc.CallSession.HandleUserLeft | src/hooks/useWebRTC.ts:102-110 | The new state is `UserLeftSpec`. |
| WebRtc.HandleSpec | src/hooks/useWebRTC.ts:60-112 | A signaling message never changes the call flags, the local stream, the channel or the tracks. The connection table never shrinks, and the outbox only grows; existing connections may get descriptions or candidates, or be closed. |
| WebRtc.UnaddressedIgnored | src/hooks/useWebRTC.ts:63 | A message whose `to` is not the local user changes nothing. |
| WebRtc.AnnouncementsIgnored | src/hooks/useWebRTC.ts:63 | The join and leave announcements that `startCall` and `endCall` post without a `to` change nothing at any receiver. |
| WebRtc.UnknownSenderIgnored | src/hooks/useWebRTC.ts:65-66 | A message from a sender missing from the searched list changes nothing. |
| WebRtc.OfferAnswered | src/hooks/useWebRTC.ts:69-81 | An offer on an open connection has these effects:<br>- it becomes the remote description;<br>- an answer becomes the local description;<br>- one answer addressed to the sender is posted. |
| WebRtc.CandidateAppliedOrDropped | src/hooks/useWebRTC.ts:87-89 | A candidate is appended to the sender's connection when it is open and has a remote description. Otherwise the state is unchanged: the candidate is lost. |
| WebRtc.UserJoinedEffect | src/hooks/useWebRTC.ts:91-100 | A join from another, already-listed sender appends a second peer with the same id and a fresh connection. The earlier entries stay. |
| WebRtc.UserLeftEffect | src/hooks/useWebRTC.ts:102-110 | A leave closes the first current peer's connection for that id, removes every peer with the id and keeps the others in order. |
| WebRtc.FindIndexPrefix | src/hooks/useWebRTC.ts:65-66 | `find` on an extended list returns the same first match. |
| WebRtc.WithoutId | src/hooks/useWebRTC.ts:108 | The filter keeps exactly the peers with another id. |
| WebRtc.WithoutIdAppend | src/hooks/useWebRTC.ts:108 | The filter works piece by piece, so the kept peers stay in their order. |
| WebRtc.WithoutIdAbsent | src/hooks/useWebRTC.ts:108 | A list without the id passes the filter unchanged. |
| Base64.Btoa | src/hooks/useEncryption.ts:38 | Fails exactly on a non-Latin-1 input. Otherwise the output has 4·⌈n/3⌉ units. |
| Base64.Encode | src/hooks/useEncryption.ts:38 | The padded encoding has length 4·⌈n/3⌉. |
| Base64.Decode | src/hooks/useEncryption.ts:43 | Succeeds exactly when, after removing whitespace and padding, the length modulo 4 is not 1 and every unit is in the alphabet. |
| Base64.Atob | src/hooks/useEncryption.ts:43 | Fails exactly when decoding fails; a success is Latin-1. |
| Base64.DecodeEncode | src/hooks/useEncryption.ts:38-43 | Decoding the encoding of any bytes gives the bytes back. |
| Base64.AtobBtoa | src/hooks/useEncryption.ts:38-43 | For Latin-1 text, `btoa` succeeds and `atob` of its result is the text. |
| Encryption.XorInvolutive | src/hooks/useEncryption.ts:36-48 | XOR-ing twice with the same value is the identity. |
| Encryption.XorUnit | src/hooks/useEncryption.ts:36 | XOR with a Latin-1 unit keeps a Latin-1 unit Latin-1, and keeps a unit of 256 or above at 256 or above. |
| Encryption.XorWithKey | src/hooks/useEncryption.ts:33-37 | Same length; unit `i` is the text's unit XOR the key's unit `i mod |key|` (0 for an empty key). |
| Encryption.XorWithKeyInvolutive | src/hooks/useEncryption.ts:33-49 | The XOR step undoes itself for every key. |
| Encryption.LatinKeyPreservesRange | src/hooks/useEncryption.ts:33-38 | With a Latin-1 key, the XOR-ed text is Latin-1 exactly when the text is. |
| Encryption.BasicCipher | src/hooks/useEncryption.ts:31-39 | `simpleEncrypt` throws exactly when some XOR-ed unit is above Latin-1, and otherwise returns 4·⌈n/3⌉ units for a text of n units. |
| Encryption.BasicDecipher | src/hooks/useEncryption.ts:41-54 | `simpleDecrypt` returns its argument when `atob` throws, and otherwise as many units as `atob` decoded. |
| Encryption.SimpleEncrypt | src/hooks/useEncryption.ts:31-39 | The loop and `btoa` compute `BasicCipher`. |
| Encryption.SimpleDecrypt | src/hooks/useEncryption.ts:41-54 | The loop computes `BasicDecipher`. When `atob` throws, the argument comes back unchanged; otherwise the result has the decoded length. |
| Encryption.BasicCipherDecided | src/hooks/useEncryption.ts:31-39 | With a Latin-1 key, encryption throws exactly when the text is not Latin-1. Otherwise the output has 4·⌈n/3⌉ units. |
| Encryption.BasicRoundTrip | src/hooks/useEncryption.ts:31-54 | Whenever encryption succeeds, decryption with the same key gives the text back. |
| Encryption.GenerateKey | src/hooks/useEncryption.ts:64-71 | The 32-step loop builds the string drawn from the alphabet by the 32 random values. |
| Encryption.GeneratedKeyShape | src/hooks/useEncryption.ts:64-71 | A generated key has 32 units, each an ASCII letter or digit, so it is Latin-1. |
| Encryption.BasicModeRoundTrip | src/hooks/useEncryption.ts:80-106 | With a Latin-1 key, basic mode succeeds exactly on Latin-1 messages, and then decrypts back to the message. |
| Encryption.GlyphTextLeavesLatin1 | src/hooks/useEncryption.ts:126-132 | A text with a mapped unit converts to a text that is not Latin-1. |
| Encryption.AdvancedModeRejectsGlyphs | src/hooks/useEncryption.ts:90-96 | With a Latin-1 key, advanced mode throws on every message with a unit that has a glyph once lower-cased. |
| Encryption.EncryptSpec | src/hooks/useEncryption.ts:78-101 | Mode 'none' returns the message. Hieroglyphic mode never throws, and its output has between n and 2n units. Basic and advanced modes throw exactly when the XOR-ed text, of the message or of its glyph text, is not Latin-1. |
| Encryption.DecryptSpec | src/hooks/useEncryption.ts:103-124 | As written, modes 'none' and hieroglyphic return the argument unchanged, and basic and advanced modes return `simpleDecrypt` of it: the glyph step never turns a glyph back. |
| Encryption.DecryptSpecIntended | src/hooks/useEncryption.ts:103-124 | The corrected decryption agrees with `DecryptSpec` in modes 'none' and basic. In the glyph modes it is never longer than the text its glyph step reads. |
| Encryption.HieroglyphicModeLosesB | src/hooks/useEncryption.ts:83-112 | As written, hieroglyphic mode encrypts "b" to D80C DCC0 and decrypts that to itself, not to "b". |
| Encryption.AdvancedRoundTrip | src/hooks/useEncryption.ts:90-119 | With a Latin-1 key, whenever advanced mode succeeds, decryption gives back the lower-cased message, both as written and corrected. |
| Encryption.HieroglyphicRoundTrip | src/hooks/useEncryption.ts:83-112 | The corrected decryption `DecryptSpecIntended` in hieroglyphic mode gives back the lower-cased message when every unit is recoverable from its glyph. |
| Encryption.EncryptionState.constructor | src/hooks/useEncryption.ts:59-60 | Mode 'none', empty key. |
| Encryption.EncryptionState.SetMode | src/hooks/useEncryption.ts:59 | Sets the mode, keeps the key. |
| Encryption.EncryptionState.SetKey | src/hooks/useEncryption.ts:60 | Sets the key, keeps the mode. |
| Encryption.EncryptionState.KeyEffect | src/hooks/useEncryption.ts:73-75 | An empty key is replaced by a generated key; any other key is kept. |
| Encryption.EncryptionState.EncryptMessage | src/hooks/useEncryption.ts:78-101 | Equals `EncryptSpec`. Mode 'none' is the identity, and hieroglyphic mode is `convertToHieroglyphic`. |
| Encryption.EncryptionState.DecryptMessage | src/hooks/useEncryption.ts:103-124 | Equals `DecryptSpec`, the code as written. Modes 'none' and hieroglyphic return the argument unchanged, and advanced mode returns the deciphered text. |
| Hieroglyphs.Utf16 | src/hooks/useEncryption.ts:4-23 | Every glyph is a surrogate pair: a high unit, then a low one. |
| Hieroglyphs.Utf16Injective | src/hooks/useEncryption.ts:4-23 | Distinct glyphs have distinct UTF-16 forms. |
| Hieroglyphs.LookupFromFinds | src/hooks/useEncryption.ts:4-23 | The table lookup returns the glyph of the entry with the key. |
| Hieroglyphs.ReverseFromFinds | src/hooks/useEncryption.ts:26-28 | The reverse map sends a glyph to the key of the last entry bearing it. |
| Hieroglyphs.ReverseFromMisses | src/hooks/useEncryption.ts:26-28 | A glyph in no entry is not in the reverse map. |
| Hieroglyphs.ReverseFromHitsPairs | src/hooks/useEncryption.ts:26-28 | Only a two-unit string starting with a high surrogate is found in the reverse map. |
| Hieroglyphs.GlyphOf | src/hooks/useEncryption.ts:130 | A unit maps to its glyph's surrogate pair, or to itself when it has no glyph, so one or two units. |
| Hieroglyphs.MapToGlyphs | src/hooks/useEncryption.ts:129-131 | The glyph text of n units has between n and 2n units. |
| Hieroglyphs.ConvertToHieroglyphic | src/hooks/useEncryption.ts:126-132 | The output has between n and 2n units, and a text with no unit mapped after lower-casing converts to its lower-cased form. |
| Hieroglyphs.MapToGlyphsUnmapped | src/hooks/useEncryption.ts:129-131 | A text with no mapped unit converts to itself. |
| Hieroglyphs.MapToGlyphsLayout | src/hooks/useEncryption.ts:129-131 | The per-unit mapping distributes over concatenation. |
| Hieroglyphs.MapToGlyphsUnit | src/hooks/useEncryption.ts:130 | A mapped unit becomes its glyph's pair; an unmapped unit is kept. |
| Hieroglyphs.TableNotInjective | src/hooks/useEncryption.ts:6-14 | 'ا', 'ر' and 'r' all map to '𓂋'. |
| Hieroglyphs.ReverseKeepsOneKey | src/hooks/useEncryption.ts:26-28 | The reverse map keeps 'r' for '𓂋', so 'ا' comes back as 'r' even with the corrected decoder. |
| Hieroglyphs.ConvertFromHieroglyphic | src/hooks/useEncryption.ts:134-139 | As written, the reverse conversion returns its input unchanged. |
| Hieroglyphs.DecodeGlyphs | src/hooks/useEncryption.ts:134-139 | The corrected reverse conversion is never longer than its input. |
| Hieroglyphs.DecodeGlyphsKeepsPlain | src/hooks/useEncryption.ts:134-139 | The corrected reverse conversion keeps every text without a high surrogate unchanged. |
| Hieroglyphs.AsWrittenLosesB | src/hooks/useEncryption.ts:126-139 | 'b' converts to the pair D80C DCC0, and the conversion back as written does not give 'b'. |
| Hieroglyphs.DecodeInvertsMap | src/hooks/useEncryption.ts:126-139 | The corrected decoder undoes the mapping on every text of recoverable units. |
| Hieroglyphs.DecodeAfterConvert | src/hooks/useEncryption.ts:126-139 | The corrected decoder after `convertToHieroglyphic` gives the lower-cased text. |
| FileUpload.GetFileType | src/components/omega/FileUploadZone.tsx:16-21 | Image, video or audio for the first prefix the MIME type starts with, tested in that order; file when it has none. |
| FileUpload.PrefixesExclusive | src/components/omega/FileUploadZone.tsx:16-21 | At most one prefix matches, so the order of the tests never decides the result. |
| FileUpload.EligibleMembers | src/components/omega/FileUploadZone.tsx:38-53 | Exactly the files of at most 52,428,800 bytes are eligible, each with its type. |
| FileUpload.CallsFromEligible | src/components/omega/FileUploadZone.tsx:37-55 | From any position, the calls are the eligible rest in order, cut right after the first rejected upload. |
| FileUpload.CallsSpec | src/components/omega/FileUploadZone.tsx:37-55 | One selection's calls are a prefix of the eligible files in list order, with no rejection before the last call. It stops early only on a rejection, and it is all of them when no upload is rejected. |
| FileUpload.UploadZone.constructor | src/components/omega/FileUploadZone.tsx:11-13 | Not dragging, not uploading, no calls. |
| FileUpload.UploadZone.HandleFileSelect | src/components/omega/FileUploadZone.tsx:32-59 | A null or empty list changes nothing. Otherwise the calls are `Calls(files, fails)` and `uploading` ends false. `isDragging` is kept. |
| FileUpload.UploadZone.HandleDrop | src/components/omega/FileUploadZone.tsx:61-68 | Always clears `isDragging`. While disabled or uploading it starts nothing; otherwise it selects the dropped files. |
| FileUpload.UploadZone.HandleDragOver | src/components/omega/FileUploadZone.tsx:70-75 | Sets `isDragging` only when neither disabled nor uploading. |
| FileUpload.UploadZone.HandleDragLeave | src/components/omega/FileUploadZone.tsx:77-80 | Clears `isDragging`. |
| MessageActions.Reactions | src/components/omega/MessageActions.tsx:32-39 | Six reactions. |
| MessageActions.QuickReactionsContents | src/components/omega/MessageActions.tsx:32-78 | The quick reactions are heart, thumbs-up and laughter, in that order; the other three are only in the menu. |
| MessageActions.QuickReactions | src/components/omega/MessageActions.tsx:78 | `REACTIONS.slice(0, 3)` has three reactions. |
| MessageActions.Preview | src/components/omega/MessageActions.tsx:58-60 | A content of at most 50 units is its own preview. Otherwise the preview is its first 50 units followed by "...". |
| MessageActions.PreviewBounds | src/components/omega/MessageActions.tsx:58-60 | A preview has at most 53 units and agrees with the content on the first min(n, 50). |
| MessageActions.PreviewIdempotent | src/components/omega/MessageActions.tsx:58-60 | The preview of a preview is the preview. |
| MessageActions.MenuItems | src/components/omega/MessageActions.tsx:100-208 | The menu has at least three items. Reply comes first; delete comes last for own messages, the reaction list for others. |
| MessageActions.OwnGating | src/components/omega/MessageActions.tsx:139-208 | Edit and delete are offered exactly for own messages; reply, copy and reactions always. |
| MessageActions.ActionsState.constructor | src/components/omega/MessageActions.tsx:51-54 | Empty reply text, edit text equal to the content, both dialogs closed. |
| MessageActions.ActionsState.HandleReply | src/components/omega/MessageActions.tsx:56-65 | A blank reply changes nothing. Otherwise `onReply` gets the untrimmed text and the preview, then the text is cleared and the dialog closed. |
| MessageActions.ActionsState.HandleEdit | src/components/omega/MessageActions.tsx:67-72 | `onEdit` is called, and the dialog closes, exactly when the text is non-blank and differs from the content. |
| MessageActions.ActionsState.SetReplyText | src/components/omega/MessageActions.tsx:118 | Sets the reply text only. |
| MessageActions.ActionsState.SetEditText | src/components/omega/MessageActions.tsx:154 | Sets the edit text only. |
| MessageActions.ActionsState.React | src/components/omega/MessageActions.tsx:78-195 | `onReact` gets the emoji of the button clicked. |
| MessageActions.ActionsState.Delete | src/components/omega/MessageActions.tsx:200-202 | Reachable only for own messages; calls `onDelete` with the message id. |
| AudioRecorder.PadStart2 | src/components/omega/AudioRecorder.tsx:117 | Pads to two units with leading zeros and keeps longer strings. |
| AudioRecorder.FormatTime | src/components/omega/AudioRecorder.tsx:114-118 | The label has at least four units, has a colon third from the end, and is digits everywhere else. |
| AudioRecorder.FormatTimeFields | src/components/omega/AudioRecorder.tsx:114-118 | The label is `n div 60`, a colon, then `n mod 60` in two digits. |
| AudioRecorder.FormatTimeRoundTrip | src/components/omega/AudioRecorder.tsx:114-118 | Reading the label back gives the seconds. |
| AudioRecorder.FormatTimeInjective | src/components/omega/AudioRecorder.tsx:114-118 | Different times have different labels. |
| AudioRecorder.FormatTimeExamples | src/components/omega/AudioRecorder.tsx:114-118 | 0 gives "0:00" and 65 gives "1:05". |
| AudioRecorder.KeptSpec | src/components/omega/AudioRecorder.tsx:33-37 | Exactly the non-empty chunks are kept. |
| AudioRecorder.KeptAppend | src/components/omega/AudioRecorder.tsx:33-37 | Keeping commutes with concatenation, so the chunks keep their arrival order. |
| AudioRecorder.Recorder.constructor | src/components/omega/AudioRecorder.tsx:12-20 | Not recording, no URL, not playing, time 0, no chunks. |
| AudioRecorder.Recorder.StartRecording | src/components/omega/AudioRecorder.tsx:23-65 | On success, chunks are empty, time is 0, and recording and the timer are on. A refused request changes nothing. |
| AudioRecorder.Recorder.OnDataAvailable | src/components/omega/AudioRecorder.tsx:33-37 | Appends the chunk exactly when it is non-empty. |
| AudioRecorder.Recorder.Tick | src/components/omega/AudioRecorder.tsx:53-55 | While the interval is set, the time grows by exactly one. |
| AudioRecorder.Recorder.StopRecording | src/components/omega/AudioRecorder.tsx:67-77 | Does nothing unless recording. Otherwise it stops recording and clears the interval. |
| AudioRecorder.Recorder.OnStop | src/components/omega/AudioRecorder.tsx:39-46 | The URL stands for the chunks collected. |
| AudioRecorder.Recorder.PlayAudio | src/components/omega/AudioRecorder.tsx:79-84 | Starts playing only when a URL exists. |
| AudioRecorder.Recorder.PauseAudio | src/components/omega/AudioRecorder.tsx:86-91 | Stops playing when the audio element exists. |
| AudioRecorder.Recorder.DeleteRecording | src/components/omega/AudioRecorder.tsx:93-100 | No URL, not playing, time 0. |
| AudioRecorder.Recorder.SendRecording | src/components/omega/AudioRecorder.tsx:102-112 | With a URL, the clip goes to `onAudioReady` and is then deleted. Without one, nothing happens: the URL stays absent and nothing is sent. |
| WelcomeScreen.RoomCodeAlphabetUnits | src/components/omega/WelcomeScreen.tsx:19 | The alphabet holds exactly A–Z and 0–9. |
| WelcomeScreen.GenerateRoomCode | src/components/omega/WelcomeScreen.tsx:18-25 | The six-step loop builds the string drawn from the alphabet by the six random values. |
| WelcomeScreen.GeneratedCodeShape | src/components/omega/WelcomeScreen.tsx:18-25 | A generated code has six units, each A–Z or 0–9. Normalisation leaves it unchanged, and it passes the join check. |
| WelcomeScreen.NormalizedCode | src/components/omega/WelcomeScreen.tsx:48 | The passed code is as long as the trimmed input. Each unit is the upper-cased unit of the input after its leading whitespace. It is empty exactly when the input is blank. |
| WelcomeScreen.JoinEnabled | src/components/omega/WelcomeScreen.tsx:133 | An enabled join button means the create condition holds too, and the code has exactly six units. |
| WelcomeScreen.JoinButtonPassesGuard | src/components/omega/WelcomeScreen.tsx:40-133 | An enabled join button gets past `handleJoinRoom`'s guard, with a passed code of one to six units. A code already upper-cased is passed merely trimmed. |
| WelcomeScreen.CreateButtonPassesGuard | src/components/omega/WelcomeScreen.tsx:27-115 | An enabled create button gets past `handleCreateRoom`'s guard. |
| WelcomeScreen.EntryForm.constructor | src/components/omega/WelcomeScreen.tsx:14-16 | Empty inputs, not loading, nothing pending. |
| WelcomeScreen.EntryForm.SetUserName | src/components/omega/WelcomeScreen.tsx:100-102 | Sets the name. |
| WelcomeScreen.EntryForm.SetRoomCode | src/components/omega/WelcomeScreen.tsx:127-129 | Sets the code, upper-cased. |
| WelcomeScreen.EntryForm.HandleCreateRoom | src/components/omega/WelcomeScreen.tsx:27-38 | A blank name changes nothing. Otherwise the form is loading, with a pending creation carrying the drawn code and the trimmed name. |
| WelcomeScreen.EntryForm.HandleJoinRoom | src/components/omega/WelcomeScreen.tsx:40-50 | Both trimmed fields must be non-empty. Then the form is loading, with a pending join carrying the code trimmed and upper-cased, and the trimmed name. |
| WelcomeScreen.EntryForm.Complete | src/components/omega/WelcomeScreen.tsx:34-49 | After the delay, the callback is called with the request, and loading ends. |
| WelcomeScreen.EntryForm.ClickCreate | src/components/omega/WelcomeScreen.tsx:114-115 | Past an enabled button, exactly one creation is pending and the form is loading. Past a disabled one, nothing changes. |
| WelcomeScreen.EntryForm.ClickJoin | src/components/omega/WelcomeScreen.tsx:132-133 | An enabled button (code of exactly six units, non-blank name, not loading) leaves exactly one join pending. A disabled one changes nothing. |
| OmegaApp.RenderNeverNull | src/components/omega/OmegaApp.tsx:31-50 | In every reachable state the app shows the welcome screen or the chat screen for the room data, never nothing. |
| OmegaApp.NullBranchNeedsInvariant | src/components/omega/OmegaApp.tsx:50 | The `null` branch is taken only by the unreachable state 'chat' without room data. |
| OmegaApp.App.constructor | src/components/omega/OmegaApp.tsx:13-14 | 'welcome' with no room data. |
| OmegaApp.App.HandleCreateRoom | src/components/omega/OmegaApp.tsx:16-19 | Room data `{code, userName}` and state 'chat'. |
| OmegaApp.App.HandleJoinRoom | src/components/omega/OmegaApp.tsx:21-24 | The same two updates as creation. |
| OmegaApp.App.HandleLeaveRoom | src/components/omega/OmegaApp.tsx:26-29 | State 'welcome', no room data. |
| OmegaApp.App.View | src/components/omega/OmegaApp.tsx:31-50 | The rendered screen, which is never `null`. |
| ChatRoom.GetInitials | src/components/omega/ChatRoom.tsx:92-94 | Empty exactly for an empty name; otherwise the upper-cased first unit. |
| ChatRoom.NewMessage | src/components/omega/ChatRoom.tsx:54-60 | A text message from the user, with the trimmed input; its id is the time's decimal form. |
| ChatRoom.IdsDistinct | src/components/omega/ChatRoom.tsx:55 | Messages sent at different times have different ids. |
| ChatRoom.ChatState.constructor | src/components/omega/ChatRoom.tsx:36-39 | No messages, empty input, not typing, `connectedUsers` equal to `[userName]`. |
| ChatRoom.ChatState.SetNewMessage | src/components/omega/ChatRoom.tsx:37 | Sets the input; `connectedUsers` stays `[userName]`. |
| ChatRoom.ChatState.SendMessage | src/components/omega/ChatRoom.tsx:51-68 | A blank input changes nothing. Otherwise exactly one message is appended, the earlier ones stay, the input is cleared and the typing indicator is on. |
| ChatRoom.ChatState.TypingTimeout | src/components/omega/ChatRoom.tsx:67 | Hides the typing indicator only. |
| ChatRoom.ChatState.HandleKeyPress | src/components/omega/ChatRoom.tsx:70-75 | Enter without Shift sends a non-blank input: one message is appended, the input is cleared and the typing indicator comes on. Any other key, or a blank input, changes nothing. |
| RoomData.OrNull | src/hooks/useRoomData.ts:222-224 | `x || null`: present exactly when truthy. |
| RoomData.BuildMessageData | src/hooks/useRoomData.ts:213-225 | No record when the room or participant id is missing. Otherwise:<br>- the content is present exactly for type 'text';<br>- each file field is present exactly when `fileData` is and the field is truthy;<br>- every present value equals its input. |
| RoomData.FalsyFileFieldsDropped | src/hooks/useRoomData.ts:222-224 | An empty url and name and a zero size all become null. |
| RoomData.Extension | src/hooks/useRoomData.ts:244 | The extension is no longer than the name and holds no '.'. |
| RoomData.StoragePath | src/hooks/useRoomData.ts:245-246 | The path has the room code, '/', the uuid, '.' and the extension as its parts: a '/' right after the room code and a '.' right after the uuid. |
| RoomData.ExtensionSpec | src/hooks/useRoomData.ts:244 | The extension is a suffix without '.', preceded by '.' unless it is the whole name; a name without '.' is its own extension. |
| RoomData.ExtensionAfterDot | src/hooks/useRoomData.ts:244 | The text after the last '.' is the extension. |
| RoomData.ExtensionExamples | src/hooks/useRoomData.ts:244 | "a.b.png" gives "png", "README" gives "README", "archive." gives "". |
| RoomData.StoragePathLayout | src/hooks/useRoomData.ts:245-246 | The path starts with the room code and '/', then the uuid, then '.'. |
| RoomData.StoragePathExtension | src/hooks/useRoomData.ts:244-246 | The path's extension is the file name's extension. |

## Left out

- Asynchrony: promises, `await` and the `forEach(async …)` offers are modelled as steps taken in sequence. Interleavings and handler re-entrance are not modelled.
- Browser APIs are abstract:
  - `RTCPeerConnection` is a record with a track list, a closed flag, two description slots and a candidate list. SDP text is abstracted to the connection that produced it, and the description and answer calls succeed exactly on an open connection.
  - `getUserMedia` is a `granted` flag.
  - `BroadcastChannel` is an outbox; delivery is not modelled.
  - `MediaRecorder`, object URLs and `fetch` are abstract chunks and recordings.
  - The microphone stream of the recorder is not modelled, so `onstop` does not stop its tracks (`track.stop()`).
- `Math.random()` is a supplied sequence of values in [0, 1). `Date.now()` is a time parameter, and `new Date()` is the same number.
- `crypto.randomUUID()` is a parameter of `StoragePath`.
- Toasts, `console.error`, the clipboard (`onCopy`, `copyRoomCode`), `scrollToBottom`, icons, JSX and CSS are rendering or platform calls.
- `toLowerCase` and `toUpperCase` are ASCII-only. Full Unicode case mapping is not modelled.
- The `maxLength` attributes of the entry inputs become preconditions of `SetUserName` and `SetRoomCode`.
- Timers: the recorder's interval is a `Tick` step, the chat's one-second typing timeout is a `TypingTimeout` step, and the entry delays are a `Complete` step. Overlapping timeouts are not modelled.
- The chat screen's leave button, its `onLeaveRoom` callback and its `formatTime` (`toLocaleTimeString`) are left out: they are a callback wire-up and locale formatting.
- AudioRecorder.Recorder.PauseAudio: `audioRef.current` is taken to be set exactly while a URL exists, when the audio element is rendered.
- MessageActions.ActionsState: the dialog `onOpenChange` toggles and the `onCopy` call are not modelled.
- The Supabase I/O of `useRoomData` is not modelled: room get-or-create, subscriptions, presence, the insert and the storage upload. Only the message record and the storage path are modelled.
- `useAdvancedMessaging`, `EncryptionPanel`, `AdvancedFeatures` and `CallControls` are not part of this model.

## Findings

| source | as written | input that shows it | evidently intended | confidence | as-written member | corrected member |
|---|---|---|---|---|---|---|
| src/hooks/useEncryption.ts:134-139 | `split('')` hands the reverse map one UTF-16 unit at a time. Every reverse key is a two-unit surrogate pair, so no lookup ever hits, and the conversion returns its input. | `convertToHieroglyphic("b")` is the pair D80C DCC0 ('𓃀'). Converting it back gives the same pair, not "b". | Read each glyph as its surrogate pair and replace it with the key the reverse map keeps. | not executed | Hieroglyphs.ConvertFromHieroglyphic (Hieroglyphs.AsWrittenLosesB) | Hieroglyphs.DecodeGlyphs (Hieroglyphs.DecodeInvertsMap, Hieroglyphs.DecodeAfterConvert) |
| src/hooks/useEncryption.ts:108-119 | The hieroglyphic and advanced branches of `decryptMessage` repeat the same per-unit reverse lookup, so glyph text comes back unchanged. | With mode 'hieroglyphic', encrypting "b" gives D80C DCC0, and decrypting that gives D80C DCC0, not "b". | Decode glyphs as surrogate pairs in both branches. | not executed | Encryption.DecryptSpec (Encryption.HieroglyphicModeLosesB) | Encryption.DecryptSpecIntended (Encryption.HieroglyphicRoundTrip, Encryption.AdvancedRoundTrip) |
