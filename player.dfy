/** The player's selection state: which song and which playlist are current,
    where in the playlist it is, and the repeat mode. Reading a song's file and
    starting the audio output on it is one abstract effect, "begin playback of
    file f", recorded in `started`. */
module Players {
  import opened Js
  import opened Songs
  import opened Playlists

  datatype RepeatMode = All | Off | Single

  /** What `play` is handed: one song, or a playlist. */
  datatype Playable = OneSong(song: Song) | WholePlaylist(playlist: Playlist)

  class Player {
    var repeat: RepeatMode
    var currentSong: Song?
    /** Whether a single song rather than a playlist is playing. */
    var singlePlayMode: bool
    /** The position in the current playlist, -1 when there is none. */
    var currentPlaylistPosition: int
    var currentPlaylist: Playlist?
    /** The file names whose playback has begun, oldest first. */
    var started: seq<Value>

    /** The states the player's methods can reach: single-song mode is never
        switched on, the position is an `indexOf` result or 0, and there is no
        position without a playlist. */
    ghost predicate Valid()
      reads this
    {
      !singlePlayMode &&
      -1 <= currentPlaylistPosition &&
      (currentPlaylist == null ==> currentPlaylistPosition == -1)
    }

    constructor (repeatMode: RepeatMode := Single)
      ensures Valid()
      ensures repeat == repeatMode
      ensures currentSong == null && currentPlaylist == null
      ensures currentPlaylistPosition == -1 && !singlePlayMode
      ensures started == []
    {
      repeat := Off;
      currentSong := null;
      singlePlayMode := false;
      currentPlaylistPosition := -1;
      currentPlaylist := null;
      started := [];
      new;
      SetRepeatMode(repeatMode);
    }

    /** Plays a single song, or a playlist from `start` (from its first song
        when `start` is absent). A start song given with a single song is
        ignored. */
    method Play(item: Playable, start: Song? := null)
      requires Valid()
      modifies this
      ensures Valid()
      ensures repeat == old(repeat)
      ensures item.OneSong? ==>
        currentSong == item.song &&
        currentPlaylist == old(currentPlaylist) &&
        currentPlaylistPosition == old(currentPlaylistPosition) &&
        started == old(started) + [item.song.fileName]
      ensures item.WholePlaylist? && item.playlist.songs == [] ==> unchanged(this)
      ensures item.WholePlaylist? && item.playlist.songs != [] ==>
        currentPlaylist == item.playlist &&
        currentPlaylistPosition == (if start == null then 0 else item.playlist.GetSongPosition(start)) &&
        currentSong == item.playlist.GetAtPosition(currentPlaylistPosition) &&
        started == old(started) + (if currentSong == null then [] else [currentSong.fileName])
    {
      match item
      case OneSong(song) => PlaySingle(song);
      case WholePlaylist(playlist) => PlayPlaylist(playlist, start);
    }

    /** Makes `playlist` current and begins playback at `start` (the first
        occurrence of that song) or at position 0. An empty playlist is
        ignored. */
    method PlayPlaylist(playlist: Playlist, start: Song? := null)
      requires Valid()
      modifies this
      ensures Valid()
      ensures playlist.songs == [] ==> unchanged(this)
      ensures playlist.songs != [] ==>
        currentPlaylist == playlist && !singlePlayMode && repeat == old(repeat) &&
        currentPlaylistPosition == (if start == null then 0 else playlist.GetSongPosition(start)) &&
        currentSong == playlist.GetAtPosition(currentPlaylistPosition) &&
        started == old(started) + (if currentSong == null then [] else [currentSong.fileName])
      ensures playlist.songs != [] && start == null ==>
        currentPlaylistPosition == 0 && currentSong == playlist.songs[0] &&
        started == old(started) + [playlist.songs[0].fileName]
      ensures playlist.songs != [] && start != null && start in playlist.songs ==>
        currentSong == start && playlist.songs[currentPlaylistPosition] == start &&
        start !in playlist.songs[..currentPlaylistPosition] &&
        started == old(started) + [start.fileName]
      ensures playlist.songs != [] && start != null && start !in playlist.songs ==>
        currentPlaylistPosition == -1 && currentSong == null && started == old(started)
    {
      if |playlist.songs| == 0 {
        return;
      }
      currentPlaylistPosition := if start != null then playlist.GetSongPosition(start) else 0;
      singlePlayMode := false;
      currentPlaylist := playlist;
      currentSong := playlist.GetAtPosition(currentPlaylistPosition);
      BeginPlay();
    }

    /** Makes `song` current and begins its playback; the playlist, the
        position and the mode stay as they were. */
    method PlaySingle(song: Song)
      requires Valid()
      modifies this
      ensures Valid()
      ensures currentSong == song
      ensures currentPlaylist == old(currentPlaylist)
      ensures currentPlaylistPosition == old(currentPlaylistPosition)
      ensures singlePlayMode == old(singlePlayMode) && repeat == old(repeat)
      ensures started == old(started) + [song.fileName]
    {
      currentSong := song;
      BeginPlay();
    }

    /** Begins playback of the current song's file; without a current song,
        does nothing. */
    method BeginPlay()
      modifies this`started
      ensures currentSong == null ==> started == old(started)
      ensures currentSong != null ==> started == old(started) + [currentSong.fileName]
    {
      if currentSong == null {
        return;
      }
      started := started + [currentSong.fileName];
    }

    method SetRepeatMode(mode: RepeatMode)
      modifies this`repeat
      ensures repeat == mode
    {
      repeat := mode;
    }
  }
}
