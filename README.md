# flux-core player core, modelled in Dafny

This project models the parts of the flux-core music library manager that hold
logic:

- the ID3v2 tag reader: the synchsafe tag size, the parsing of one frame header, and the walk over the frames of a tag;
- the mapping from tag frames to a `Song`;
- the grouping of the library's songs into albums;
- the player's selection state, together with the playlist lookups it uses;
- the byte copy from a Node buffer into an `ArrayBuffer`.

Modules follow the source files:

| module | file | source |
|---|---|---|
| `Js` | js.dfy | JavaScript bytes, dynamically typed values, truthiness and `??` |
| `Id3` | id3.dfy | src/audio/metadata/id3.ts |
| `Songs` | songs.dfy | src/store/models/audio/song.ts |
| `TagMapping` | tags.dfy | src/utils/audio.ts |
| `Playlists` | playlist.dfy | src/store/models/audio/playlist.ts |
| `Players` | player.dfy | src/audio/player.ts |
| `Library` | library.dfy | src/library/library.ts (the `albums` getter) |
| `Buffers` | buffer.dfy | src/extensions/buffer.ts |

Notes on the modelling:

- Song and frame fields hold a JavaScript value: `undefined`, a string, a number or a `Uint8Array`.
  `Js.Value` models this because the source stores decoded frame strings in fields typed `number`: TRCK and TPOS go to the two track numbers.
- A `Song` constructor argument that is missing or passed as `undefined` takes the field's default, as JavaScript default parameters do.
- `Song`, `Playlist` and `Player` are classes, because `indexOf` compares songs by identity and the player updates its fields in place.
- An `Album` is a value. The `albums` getter builds its albums afresh and no one else holds them, so an append to an album's `songs` becomes an update of the local sequence.
- Text decoding (`TextDecoder`) is a parameter of the reader: a function from an encoding label and bytes to a string.
  An encoding byte past `$03` gives the label `undefined`, which is `None` here.
- A `DataView` or `Uint8Array` that would reach past the buffer, or that has a negative length, throws a `RangeError`. Here that is the `RangeError` result.
- The tag size is synchsafe, as in section 6.2 of "ID3 tag version 2.4.0 – Main Structure".
  The frame size is a plain big-endian 32-bit number, as in section 3.3 of ID3v2.3.0.
  The encoding byte values `$00` to `$03` are those of section 4 of ID3v2.4.0.
- Reading a song's file and starting the audio output on it (`readFileAsArrayBuffer` and `AudioPlayer.play`) is one effect, "begin playback of file f".
  `Player.started` records these effects in order.

What the player's code does, and does not do:

- The player has no pause, resume, seek, next, stop, progress, play state or events. `bindToEvents` is empty.
- The code never sets `singlePlayMode` to true: `playSingle` leaves it alone. `Player.Valid` records this.
- A start song that is not in the playlist leaves that playlist current, with position -1 and no current song.
  So the position is not always inside the current playlist.
- The `repeat` field starts as "off", but the constructor's default argument sets it to "single".

## Model

| member | source | states |
|---|---|---|
| `Id3.EncodingName` | src/audio/metadata/id3.ts:39 | the encoding table gives a label exactly for the bytes $00 to $03 and `undefined` past it |
| `Id3.SyncToInt` | src/audio/metadata/id3.ts:53-62 | the result is below 2^28; its four 7-bit groups are the low 7 bits of the four bytes of the input, in order |
| `Id3.SyncToIntIgnoresBit7` | src/audio/metadata/id3.ts:54-59 | flipping bit 7 of any of the four bytes does not change the decoded size |
| `Id3.ToSynchsafe` | src/audio/metadata/id3.ts:47-61 | packing a 28-bit value as four 7-bit bytes leaves every bit 7 clear, and the decoder gives the value back |
| `Id3.ToSynchsafeOfSyncToInt` | src/audio/metadata/id3.ts:47-61 | the converse round trip: a 32-bit value with every bit 7 clear is recovered from its decoded size |
| `Id3.FrameAt` | src/audio/metadata/id3.ts:74-116 | a frame is padding (`null`) exactly when its 11 header bytes are in the buffer and its first byte is 0; a decoded frame is at least 11 bytes long, lies inside the buffer, and has a non-empty id and a truthy value |
| `Id3.DecodeFrame` | src/audio/metadata/id3.ts:74-116 | the step-by-step parse, with the content window moved past the language code, gives the frame or error that `FrameAt` describes |
| `Id3.FrameLayout` | src/audio/metadata/id3.ts:83-114 | the id is the first four bytes decoded as ASCII, and the size is the stored size plus 10; content starts at offset+11 and is stored size − 1 bytes long, 3 bytes later and 3 shorter for USLT/SYLT/COMM/USER, whose language code is those 3 bytes; APIC keeps raw bytes, and other frames decode with the label of the encoding byte |
| `Id3.EmptyFrameRejected` | src/audio/metadata/id3.ts:99-108 | a frame that fits in the buffer fails with "ID cannot be empty" exactly when its id decodes to "" or it is a non-APIC frame whose content decodes to "" |
| `Id3.Read` | src/audio/metadata/id3.ts:162-183 | the frame loop from offset 10 to 10 + synchsafe size returns exactly the frames of `FramesFrom`, or the first error |
| `Id3.FramesInFileOrder` | src/audio/metadata/id3.ts:165-182 | the frames read are those found at successive offsets, each starting below the tag end and each starting more than 10 bytes after the one before; the walk ends at the tag end or at padding |
| `Songs.WithDefaults` | src/store/models/audio/song.ts:74-86 | a field given as `undefined` takes its default ("" for the text fields, 0 for the two track numbers); any other value is kept |
| `Songs.Song.constructor` | src/store/models/audio/song.ts:74-100 | every field holds its argument, or the field's default when the argument is missing or `undefined` |
| `TagMapping.CreateSongFromTags` | src/utils/audio.ts:9-58 | the loop over the frames fills a fresh song whose fields are those of `TagsToSong` |
| `TagMapping.FileNameFromArgument` | src/utils/audio.ts:55 | the song's file name is the `filename` argument whatever the tags are; the other fields are those the frames set |
| `TagMapping.ApplyFrameChangesOneField` | src/utils/audio.ts:15-53 | a frame changes exactly the field its id maps to (TRCK to the track total, TPOS to the track number, APIC to the album art, which becomes "."), and an unknown id changes nothing |
| `TagMapping.UntouchedFieldKeepsDefault` | src/utils/audio.ts:13-54 | a field that no frame maps to keeps the `Song` constructor's default |
| `TagMapping.LastFrameWins` | src/utils/audio.ts:14-54 | when several frames map to one field, the last of them in list order decides its value |
| `Playlists.IndexOf` | src/store/models/audio/playlist.ts:44 | -1 exactly when the element is absent; otherwise the index holds it and no earlier index does |
| `Playlists.Playlist.constructor` | src/store/models/audio/playlist.ts:30-36 | name, creation time and songs are stored as given, in the given order |
| `Playlists.Playlist.GetSongPosition` | src/store/models/audio/playlist.ts:43-45 | -1 exactly when the song is not in the playlist; otherwise the first position that holds it |
| `Playlists.Playlist.GetAtPosition` | src/store/models/audio/playlist.ts:52-54 | the song at an index inside the playlist, absent outside it |
| `Playlists.Playlist.PositionRoundTrip` | src/store/models/audio/playlist.ts:43-54 | looking up a song's position and then the song there gives it back exactly when it is in the playlist, and nothing otherwise |
| `Players.Player.constructor` | src/audio/player.ts:17-52 | the repeat mode is the argument ("single" by default), the position is -1, single-song mode is off, and there is no current song or playlist |
| `Players.Player.Play` | src/audio/player.ts:60-71 | a song is played as a single song, ignoring any start song; a playlist is played from its start song, and an empty playlist changes nothing |
| `Players.Player.PlayPlaylist` | src/audio/player.ts:79-97 | an empty playlist changes nothing; otherwise the playlist becomes current, single-song mode is off, and the position is 0 without a start song or the first index of the start song; the current song is the one at that position, absent (and nothing starts) when the start song is not in the playlist |
| `Players.Player.PlaySingle` | src/audio/player.ts:104-110 | only the current song changes, and playback of its file begins |
| `Players.Player.BeginPlay` | src/audio/player.ts:116-124 | nothing happens without a current song; otherwise playback of exactly its file begins |
| `Players.Player.SetRepeatMode` | src/audio/player.ts:131-133 | the repeat mode is set and nothing else changes |
| `Library.FindAlbum` | src/library/library.ts:55-58 | `findIndex` by name and album artist: -1 exactly when no album matches, otherwise the first match |
| `Library.Grouped` | src/library/library.ts:33-41 | the first album is always "Unknown Album" by "Various Artists", year "Unknown Year", art "", and there is at most one album per song beyond it |
| `Library.Albums` | src/library/library.ts:29-78 | the loop over the library's songs builds exactly the albums of `Grouped` |
| `Library.GroupedIsWellGrouped` | src/library/library.ts:44-75 | album keys (name, artist) are pairwise distinct, the first album included; each album holds, in library order, exactly the songs whose key is its own (no album → the first album; otherwise album and `albumArtist ?? "Unknown Artist"`); every song's key has an album; every other album takes its year (`?? "Unknown Year"`) and art from its first song |
| `Library.EachSongInExactlyOneAlbum` | src/library/library.ts:44-75 | every library song is in one album, the one with its key, and in no other |
| `Library.NoAlbumGoesToFirst` | src/library/library.ts:47-49 | a song whose album is falsy is in the first album |
| `Library.TotalSongsOfGrouped` | src/library/library.ts:44-75 | the albums hold as many songs together as the library |
| `Library.AlbumsInFirstOccurrenceOrder` | src/library/library.ts:44-74 | the album keys are the distinct song keys in order of first occurrence, after the catch-all key |
| `Buffers.ToArrayBuffer` | src/extensions/buffer.ts:8-16 | a fresh buffer of the input's length holding the input's bytes in order; the loop keeps the copied prefix equal to the input and the rest zero |

## Left out

- The Web Audio wrapper (src/audio/audio.ts) and `readFileAsArrayBuffer`: they are foreign code. Beginning playback is the recorded effect `Player.started`, so decode and read failures are not modelled.
- `saveAlbumArt` (src/audio/metadata/id3.ts:118-145): it writes files under random names.
- `TextDecoder`: it is foreign code. The decoder is a parameter, and the decoding of each label is not modelled.
- Asynchrony: every `async` call and every un-awaited promise (`beginPlay`, `playPlaylist`) is treated as sequential, and the races between them are not modelled.
- The event broadcasting the player inherits: the player's code publishes nothing.
- The `audioPlayer` field and its `playing` flag are not modelled; see the first line.
- The scanner, the file and directory helpers, the persistence and collection schemas, the `Library` constructor and `onFirstRun`, and the random string helper: these are I/O, events, persistence and randomness.
- Pause, resume, seek, next, stop, progress ticking, play state and end-of-track handling: they are not in the code.
- Library.Grouped: album keys are compared by value. JavaScript compares a `Uint8Array` by reference, but a frame yields raw bytes only for APIC, which never sets a key field.
- Buffers.ToArrayBuffer: the `ArrayBuffer` and the `Uint8Array` view over it are one array here.
- Playlists.Playlist.GetAtPosition: the index is an integer. A fractional JavaScript index, which also yields `undefined`, is not modelled.
