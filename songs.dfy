/** A song of the library: a record of descriptive fields, created empty and
    filled in by the tag mapping. */
module Songs {
  import opened Js

  /** The fields of a song, in the order the constructor takes them. */
  datatype Field =
    | Title | Artist | AlbumName | AlbumArtist | TrackNumber | TrackTotal
    | AlbumArt | Genre | Year | Publisher | FileName

  /** The value of every field of a song at one moment. */
  datatype SongFields = SongFields(
    title: Value, artist: Value, album: Value, albumArtist: Value,
    trackNumber: Value, trackTotal: Value, albumArt: Value, genre: Value,
    year: Value, publisher: Value, fileName: Value)
  {
    function Get(fld: Field): Value
    {
      match fld
      case Title => title
      case Artist => artist
      case AlbumName => album
      case AlbumArtist => albumArtist
      case TrackNumber => trackNumber
      case TrackTotal => trackTotal
      case AlbumArt => albumArt
      case Genre => genre
      case Year => year
      case Publisher => publisher
      case FileName => fileName
    }

    /** The same fields with `fld` replaced by `v`. */
    function Set(fld: Field, v: Value): (r: SongFields)
      ensures r.Get(fld) == v
      ensures forall other :: other != fld ==> r.Get(other) == Get(other)
    {
      match fld
      case Title => this.(title := v)
      case Artist => this.(artist := v)
      case AlbumName => this.(album := v)
      case AlbumArtist => this.(albumArtist := v)
      case TrackNumber => this.(trackNumber := v)
      case TrackTotal => this.(trackTotal := v)
      case AlbumArt => this.(albumArt := v)
      case Genre => this.(genre := v)
      case Year => this.(year := v)
      case Publisher => this.(publisher := v)
      case FileName => this.(fileName := v)
    }
  }

  /** What a song constructed without arguments holds: empty strings, and 0
      for the two track numbers. */
  const DefaultFields: SongFields := SongFields(
    Text(""), Text(""), Text(""), Text(""), Number(0), Number(0),
    Text(""), Text(""), Text(""), Text(""), Text(""))

  /** The constructor's arguments after JavaScript's default parameters have
      applied: a field given as `undefined` takes its default, any other value
      is kept. (A default parameter replaces only `undefined`, which is the
      one nullish value a `Value` can be, so this is `??` field by field.) */
  function WithDefaults(given: SongFields): (r: SongFields)
    ensures forall fld :: given.Get(fld).Undefined? ==> r.Get(fld) == DefaultFields.Get(fld)
    ensures forall fld :: !given.Get(fld).Undefined? ==> r.Get(fld) == given.Get(fld)
  {
    SongFields(
      NullishOr(given.title, DefaultFields.title),
      NullishOr(given.artist, DefaultFields.artist),
      NullishOr(given.album, DefaultFields.album),
      NullishOr(given.albumArtist, DefaultFields.albumArtist),
      NullishOr(given.trackNumber, DefaultFields.trackNumber),
      NullishOr(given.trackTotal, DefaultFields.trackTotal),
      NullishOr(given.albumArt, DefaultFields.albumArt),
      NullishOr(given.genre, DefaultFields.genre),
      NullishOr(given.year, DefaultFields.year),
      NullishOr(given.publisher, DefaultFields.publisher),
      NullishOr(given.fileName, DefaultFields.fileName))
  }

  class Song {
    var title: Value
    var artist: Value
    var album: Value
    var albumArtist: Value
    var trackNumber: Value
    var trackTotal: Value
    var albumArt: Value
    var genre: Value
    var year: Value
    var publisher: Value
    var fileName: Value

    /** A missing argument, or one passed as `undefined`, takes the field's
        default; every other argument is stored as given. */
    constructor (title: Value := Undefined, artist: Value := Undefined, album: Value := Undefined,
                 albumArtist: Value := Undefined, trackNumber: Value := Undefined,
                 trackTotal: Value := Undefined, albumArt: Value := Undefined, genre: Value := Undefined,
                 year: Value := Undefined, publisher: Value := Undefined, fileName: Value := Undefined)
      ensures Fields() == WithDefaults(SongFields(title, artist, album, albumArtist, trackNumber,
                                                  trackTotal, albumArt, genre, year, publisher, fileName))
    {
      var f := WithDefaults(SongFields(title, artist, album, albumArtist, trackNumber,
                                       trackTotal, albumArt, genre, year, publisher, fileName));
      this.title := f.title;
      this.artist := f.artist;
      this.album := f.album;
      this.albumArtist := f.albumArtist;
      this.trackNumber := f.trackNumber;
      this.trackTotal := f.trackTotal;
      this.albumArt := f.albumArt;
      this.genre := f.genre;
      this.year := f.year;
      this.publisher := f.publisher;
      this.fileName := f.fileName;
    }

    function Fields(): SongFields
      reads this
    {
      SongFields(title, artist, album, albumArtist, trackNumber, trackTotal,
                 albumArt, genre, year, publisher, fileName)
    }
  }
}
