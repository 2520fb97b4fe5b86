/** A named, timestamped, ordered list of songs, with the two lookups the
    player uses to move between songs and positions. */
module Playlists {
  import opened Songs

  /** `Array.prototype.indexOf` with `===`: the first position holding `x`, or -1. */
  function IndexOf<T(==)>(s: seq<T>, x: T): (i: int)
    ensures -1 <= i < |s|
    ensures i == -1 <==> x !in s
    ensures 0 <= i ==> i < |s| && s[i] == x && x !in s[..i]
  {
    if s == [] then -1
    else if s[0] == x then 0
    else
      var j := IndexOf(s[1..], x);
      assert j >= 0 ==> s[..j + 1] == [s[0]] + s[1..][..j];
      if j == -1 then -1 else j + 1
  }

  class Playlist {
    var name: string
    /** Unix time of creation. */
    var createdAt: int
    var songs: seq<Song>

    constructor (name: string, createdAt: int, songs: seq<Song>)
      ensures this.name == name && this.createdAt == createdAt && this.songs == songs
    {
      this.name := name;
      this.createdAt := createdAt;
      this.songs := songs;
    }

    /** The first position of `song` in the playlist (by identity), or -1. */
    function GetSongPosition(song: Song): (i: int)
      reads this
      ensures i == -1 <==> song !in songs
      ensures 0 <= i ==> i < |songs| && songs[i] == song && song !in songs[..i]
    {
      IndexOf(songs, song)
    }

    /** The song at `index`; absent (`undefined`) outside the playlist. */
    function GetAtPosition(index: int): (s: Song?)
      reads this
      ensures 0 <= index < |songs| ==> s == songs[index]
      ensures !(0 <= index < |songs|) ==> s == null
    {
      if 0 <= index < |songs| then songs[index] else null
    }

    /** Looking up the position of a song and then the song at that position
        gives the song back exactly when it is in the playlist; otherwise the
        lookup finds nothing. */
    lemma PositionRoundTrip(song: Song)
      ensures GetAtPosition(GetSongPosition(song)) == song <==> song in songs
      ensures song !in songs ==> GetAtPosition(GetSongPosition(song)) == null
    {
    }
  }
}
