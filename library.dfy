/** Grouping the library's songs into albums. The first album is always the
    catch-all "Unknown Album" by "Various Artists"; every other album is keyed
    by its name and album artist and is created by the first song that names
    it. */
module Library {
  import opened Js
  import opened Songs

  datatype Album = Album(name: Value, albumArtist: Value, songs: seq<Song>, releaseYear: Value, albumArt: Value)

  /** What an album is looked up by. */
  datatype AlbumKey = AlbumKey(name: Value, artist: Value)

  /** The album every grouping starts with, before any song is placed. */
  const UnknownAlbum: Album := Album(Text("Unknown Album"), Text("Various Artists"), [], Text("Unknown Year"), Text(""))

  const UnknownKey: AlbumKey := AlbumKey(Text("Unknown Album"), Text("Various Artists"))

  function KeyOf(a: Album): AlbumKey
  {
    AlbumKey(a.name, a.albumArtist)
  }

  /** The album artist a song is grouped under. */
  function ArtistOf(s: Song): Value
    reads s
  {
    NullishOr(s.albumArtist, Text("Unknown Artist"))
  }

  /** The key of the album a song ends up in: the catch-all album's when the
      song names no album, otherwise its album name and artist. */
  function BucketKey(s: Song): AlbumKey
    reads s
  {
    if !Truthy(s.album) then UnknownKey else AlbumKey(s.album, ArtistOf(s))
  }

  /** `findIndex` over the albums by name and artist: the first match, or -1. */
  function FindAlbum(albums: seq<Album>, key: AlbumKey): (i: int)
    ensures -1 <= i < |albums|
    ensures i == -1 <==> forall j :: 0 <= j < |albums| ==> KeyOf(albums[j]) != key
    ensures 0 <= i ==> KeyOf(albums[i]) == key && forall j :: 0 <= j < i ==> KeyOf(albums[j]) != key
  {
    if albums == [] then -1
    else if KeyOf(albums[0]) == key then 0
    else
      var i := FindAlbum(albums[1..], key);
      if i == -1 then -1 else i + 1
  }

  /** `albums` with `s` appended to the songs of album `i`. */
  function AppendTo(albums: seq<Album>, i: nat, s: Song): (r: seq<Album>)
    requires i < |albums|
  {
    albums[i := albums[i].(songs := albums[i].songs + [s])]
  }

  /** Places one song: into the catch-all album when it names no album, else
      into the album with its name and artist, creating that album (with the
      song's year and art) when there is none yet. */
  function AddSong(albums: seq<Album>, s: Song): seq<Album>
    requires albums != []
    reads s
  {
    if !Truthy(s.album) then AppendTo(albums, 0, s)
    else
      var artist := ArtistOf(s);
      var index := FindAlbum(albums, AlbumKey(s.album, artist));
      if index == -1 then albums + [Album(s.album, artist, [s], NullishOr(s.year, Text("Unknown Year")), s.albumArt)]
      else AppendTo(albums, index, s)
  }

  /** The albums of a library whose songs are `songs`, in library order. */
  function Grouped(songs: seq<Song>): (r: seq<Album>)
    reads songs
    ensures r != [] && r[0].(songs := []) == UnknownAlbum
    ensures |r| <= |songs| + 1
  {
    if songs == [] then [UnknownAlbum]
    else AddSong(Grouped(songs[..|songs| - 1]), songs[|songs| - 1])
  }

  method Albums(songs: seq<Song>) returns (output: seq<Album>)
    ensures output == Grouped(songs)
  {
    output := [UnknownAlbum];
    for i := 0 to |songs|
      invariant output == Grouped(songs[..i])
    {
      var song := songs[i];
      assert songs[..i + 1][..i] == songs[..i];
      if !Truthy(song.album) {
        output := output[0 := output[0].(songs := output[0].songs + [song])];
        continue;
      }
      var artist := NullishOr(song.albumArtist, Text("Unknown Artist"));
      var index := FindAlbum(output, AlbumKey(song.album, artist));
      if index == -1 {
        output := output + [Album(song.album, artist, [song], NullishOr(song.year, Text("Unknown Year")), song.albumArt)];
        continue;
      }
      output := output[index := output[index].(songs := output[index].songs + [song])];
    }
    assert songs[..|songs|] == songs;
  }

  /** The songs of `songs`, in order, whose bucket key is `k`. */
  function SongsWithKey(songs: seq<Song>, k: AlbumKey): seq<Song>
    reads songs
  {
    if songs == [] then []
    else SongsWithKey(songs[..|songs| - 1], k) + (if BucketKey(songs[|songs| - 1]) == k then [songs[|songs| - 1]] else [])
  }

  /** Number of songs over all albums. */
  function TotalSongs(albums: seq<Album>): nat
  {
    if albums == [] then 0 else |albums[0].songs| + TotalSongs(albums[1..])
  }

  /** What the grouping of `songs` into `albums` promises. */
  ghost predicate WellGrouped(songs: seq<Song>, albums: seq<Album>)
    reads *
  {
    |albums| >= 1 &&
    albums[0].(songs := []) == UnknownAlbum &&
    (forall i, j :: 0 <= i < j < |albums| ==> KeyOf(albums[i]) != KeyOf(albums[j])) &&
    (forall i :: 0 <= i < |albums| ==> albums[i].songs == SongsWithKey(songs, KeyOf(albums[i]))) &&
    (forall s :: s in songs ==> exists i :: 0 <= i < |albums| && KeyOf(albums[i]) == BucketKey(s)) &&
    (forall i :: 1 <= i < |albums| ==> CreatedBy(albums[i]))
  }

  /** A non-catch-all album takes its name, artist, year and art from the
      first of its songs, the one that created it. */
  ghost predicate CreatedBy(a: Album)
    reads a.songs
  {
    a.songs != [] && Truthy(a.name) &&
    KeyOf(a) == BucketKey(a.songs[0]) &&
    a.releaseYear == NullishOr(a.songs[0].year, Text("Unknown Year")) &&
    a.albumArt == a.songs[0].albumArt
  }

  /** The grouping places every song in the one album with its key, keeps
      library order within albums, keeps album keys distinct (the catch-all
      album included), leaves the catch-all album's fields fixed, and builds
      every other album from the song that created it. */
  lemma {:induction false} GroupedIsWellGrouped(songs: seq<Song>)
    ensures WellGrouped(songs, Grouped(songs))
  {
    if songs == [] {
    } else {
      var n := |songs| - 1;
      var init := songs[..n];
      var s := songs[n];
      GroupedIsWellGrouped(init);
      var r := Grouped(init);
      assert songs == init + [s];
      if !Truthy(s.album) {
        AppendKeepsWellGrouped(init, s, r, 0);
      } else {
        var index := FindAlbum(r, BucketKey(s));
        if index == -1 {
          NewAlbumKeepsWellGrouped(init, s, r);
        } else {
          AppendKeepsWellGrouped(init, s, r, index);
        }
      }
    }
  }

  lemma AppendKeepsWellGrouped(init: seq<Song>, s: Song, r: seq<Album>, index: nat)
    requires WellGrouped(init, r)
    requires index < |r| && KeyOf(r[index]) == BucketKey(s)
    ensures WellGrouped(init + [s], AppendTo(r, index, s))
  {
    var songs := init + [s];
    assert songs[..|songs| - 1] == init;
    var r' := AppendTo(r, index, s);
    forall i | 0 <= i < |r'|
      ensures r'[i].songs == SongsWithKey(songs, KeyOf(r'[i]))
    {
    }
    forall t | t in songs
      ensures exists i :: 0 <= i < |r'| && KeyOf(r'[i]) == BucketKey(t)
    {
      if t == s {
        assert KeyOf(r'[index]) == BucketKey(t);
      } else {
        assert t in init;
        var i :| 0 <= i < |r| && KeyOf(r[i]) == BucketKey(t);
        assert KeyOf(r'[i]) == BucketKey(t);
      }
    }
    forall i | 1 <= i < |r'|
      ensures CreatedBy(r'[i])
    {
      assert CreatedBy(r[i]);
      if i == index {
        assert r'[i].songs[0] == r[i].songs[0];
      }
    }
  }

  lemma NewAlbumKeepsWellGrouped(init: seq<Song>, s: Song, r: seq<Album>)
    requires WellGrouped(init, r)
    requires Truthy(s.album)
    requires forall j :: 0 <= j < |r| ==> KeyOf(r[j]) != BucketKey(s)
    ensures WellGrouped(init + [s], r + [Album(s.album, ArtistOf(s), [s], NullishOr(s.year, Text("Unknown Year")), s.albumArt)])
  {
    var songs := init + [s];
    assert songs[..|songs| - 1] == init;
    var a := Album(s.album, ArtistOf(s), [s], NullishOr(s.year, Text("Unknown Year")), s.albumArt);
    var r' := r + [a];
    NoSongsWithUnusedKey(init, r, BucketKey(s));
    forall i | 0 <= i < |r'|
      ensures r'[i].songs == SongsWithKey(songs, KeyOf(r'[i]))
    {
      if i < |r| {
        assert r'[i] == r[i];
      }
    }
    forall t | t in songs
      ensures exists i :: 0 <= i < |r'| && KeyOf(r'[i]) == BucketKey(t)
    {
      if t == s {
        assert KeyOf(r'[|r|]) == BucketKey(t);
      } else {
        assert t in init;
        var i :| 0 <= i < |r| && KeyOf(r[i]) == BucketKey(t);
        assert KeyOf(r'[i]) == BucketKey(t);
      }
    }
    forall i | 1 <= i < |r'|
      ensures CreatedBy(r'[i])
    {
      if i < |r| {
        assert r'[i] == r[i];
      }
    }
  }

  /** No song of `songs` has a key that no album has. */
  lemma NoSongsWithUnusedKey(songs: seq<Song>, r: seq<Album>, k: AlbumKey)
    requires forall t :: t in songs ==> exists i :: 0 <= i < |r| && KeyOf(r[i]) == BucketKey(t)
    requires forall j :: 0 <= j < |r| ==> KeyOf(r[j]) != k
    ensures SongsWithKey(songs, k) == []
  {
    if songs != [] {
      var n := |songs| - 1;
      assert forall t :: t in songs[..n] ==> t in songs;
      NoSongsWithUnusedKey(songs[..n], r, k);
      assert songs[n] in songs;
    }
  }

  lemma {:induction false} InKeyedSongs(songs: seq<Song>, k: AlbumKey, t: Song)
    ensures t in SongsWithKey(songs, k) <==> t in songs && BucketKey(t) == k
  {
    if songs != [] {
      var n := |songs| - 1;
      InKeyedSongs(songs[..n], k, t);
      assert songs == songs[..n] + [songs[n]];
    }
  }

  /** A song of the library is in exactly one album: the one with its key. */
  lemma EachSongInExactlyOneAlbum(songs: seq<Song>, t: Song)
    requires t in songs
    ensures exists i :: 0 <= i < |Grouped(songs)| && t in Grouped(songs)[i].songs && KeyOf(Grouped(songs)[i]) == BucketKey(t)
    ensures forall i, j :: 0 <= i < j < |Grouped(songs)| ==> !(t in Grouped(songs)[i].songs && t in Grouped(songs)[j].songs)
  {
    var r := Grouped(songs);
    GroupedIsWellGrouped(songs);
    var i :| 0 <= i < |r| && KeyOf(r[i]) == BucketKey(t);
    InKeyedSongs(songs, KeyOf(r[i]), t);
    forall i', j | 0 <= i' < j < |r| && t in r[i'].songs
      ensures t !in r[j].songs
    {
      InKeyedSongs(songs, KeyOf(r[i']), t);
      InKeyedSongs(songs, KeyOf(r[j]), t);
    }
  }

  /** A song that names no album lands in the catch-all first album. */
  lemma NoAlbumGoesToFirst(songs: seq<Song>, t: Song)
    requires t in songs && !Truthy(t.album)
    ensures t in Grouped(songs)[0].songs
  {
    GroupedIsWellGrouped(songs);
    InKeyedSongs(songs, UnknownKey, t);
  }

  lemma {:induction false} TotalSongsAppend(albums: seq<Album>, i: nat, s: Song)
    requires i < |albums|
    ensures TotalSongs(AppendTo(albums, i, s)) == TotalSongs(albums) + 1
  {
    if i > 0 {
      TotalSongsAppend(albums[1..], i - 1, s);
      assert AppendTo(albums, i, s)[1..] == AppendTo(albums[1..], i - 1, s);
    }
  }

  lemma {:induction false} TotalSongsConcat(albums: seq<Album>, a: Album)
    ensures TotalSongs(albums + [a]) == TotalSongs(albums) + |a.songs|
  {
    if albums != [] {
      TotalSongsConcat(albums[1..], a);
      assert (albums + [a])[1..] == albums[1..] + [a];
    }
  }

  /** The albums hold as many songs together as the library does. */
  lemma {:induction false} TotalSongsOfGrouped(songs: seq<Song>)
    ensures TotalSongs(Grouped(songs)) == |songs|
  {
    if songs != [] {
      var n := |songs| - 1;
      var r := Grouped(songs[..n]);
      var s := songs[n];
      TotalSongsOfGrouped(songs[..n]);
      if !Truthy(s.album) {
        TotalSongsAppend(r, 0, s);
      } else {
        var index := FindAlbum(r, AlbumKey(s.album, ArtistOf(s)));
        if index == -1 {
          TotalSongsConcat(r, Album(s.album, ArtistOf(s), [s], NullishOr(s.year, Text("Unknown Year")), s.albumArt));
        } else {
          TotalSongsAppend(r, index, s);
        }
      }
    }
  }

  /** The bucket keys of `songs` without repeats, in order of first
      occurrence, after the catch-all key. */
  function KeyOrder(songs: seq<Song>): seq<AlbumKey>
    reads songs
  {
    if songs == [] then [UnknownKey]
    else
      var ks := KeyOrder(songs[..|songs| - 1]);
      var k := BucketKey(songs[|songs| - 1]);
      if k in ks then ks else ks + [k]
  }

  /** Albums appear in the order in which their first songs appear in the
      library, after the catch-all album. */
  lemma {:induction false} AlbumsInFirstOccurrenceOrder(songs: seq<Song>)
    ensures |Grouped(songs)| == |KeyOrder(songs)|
    ensures forall i :: 0 <= i < |Grouped(songs)| ==> KeyOf(Grouped(songs)[i]) == KeyOrder(songs)[i]
  {
    if songs != [] {
      var n := |songs| - 1;
      var r := Grouped(songs[..n]);
      var s := songs[n];
      AlbumsInFirstOccurrenceOrder(songs[..n]);
      var ks := KeyOrder(songs[..n]);
      assert UnknownKey == ks[0] by {
        assert KeyOf(r[0]) == UnknownKey;
      }
      if Truthy(s.album) {
        var index := FindAlbum(r, BucketKey(s));
        assert index == -1 <==> BucketKey(s) !in ks by {
          if BucketKey(s) in ks {
            var j :| 0 <= j < |ks| && ks[j] == BucketKey(s);
            assert KeyOf(r[j]) == BucketKey(s);
          }
        }
      }
    }
  }
}
