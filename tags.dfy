/** Building a song from the frames of its ID3 tag: each recognised frame id
    sets one field, later frames overwrite earlier ones, and the file name is
    set last. */
module TagMapping {
  import opened Js
  import opened Id3
  import opened Songs

  /** The field a frame id is written to, if any. TRCK goes to the track total
      and TPOS to the track number. */
  function FieldOf(id: string): Option<Field>
  {
    match id
    case "TIT2" => Some(Title)
    case "TPE1" => Some(Artist)
    case "TPE2" => Some(AlbumArtist)
    case "TALB" => Some(AlbumName)
    case "TCON" => Some(Genre)
    case "TYER" => Some(Year)
    case "TPUB" => Some(Publisher)
    case "TRCK" => Some(TrackTotal)
    case "TPOS" => Some(TrackNumber)
    case "APIC" => Some(AlbumArt)
    case _ => None
  }

  /** The value a frame writes: the album art is always the placeholder ".",
      whatever the picture frame holds. */
  function Assigned(f: Frame): Value
  {
    if f.id == "APIC" then Text(".") else f.value
  }

  function ApplyFrame(s: SongFields, f: Frame): SongFields
  {
    match FieldOf(f.id)
    case None => s
    case Some(fld) => s.Set(fld, Assigned(f))
  }

  /** A fresh song after the frames `tags` have been applied in list order. */
  function ApplyFrames(tags: seq<Frame>): SongFields
  {
    if tags == [] then DefaultFields
    else ApplyFrame(ApplyFrames(tags[..|tags| - 1]), tags[|tags| - 1])
  }

  /** The fields of the song made from `tags` for the file `filename`. */
  function TagsToSong(tags: seq<Frame>, filename: string): SongFields
  {
    ApplyFrames(tags).(fileName := Text(filename))
  }

  method CreateSongFromTags(tags: seq<Frame>, filename: string) returns (song: Song)
    ensures fresh(song)
    ensures song.Fields() == TagsToSong(tags, filename)
  {
    song := new Song();
    for i := 0 to |tags|
      invariant song.Fields() == ApplyFrames(tags[..i])
    {
      var frame := tags[i];
      assert tags[..i + 1][..i] == tags[..i];
      match frame.id {
        case "TIT2" => song.title := frame.value;
        case "TPE1" => song.artist := frame.value;
        case "TPE2" => song.albumArtist := frame.value;
        case "TALB" => song.album := frame.value;
        case "TCON" => song.genre := frame.value;
        case "TYER" => song.year := frame.value;
        case "TPUB" => song.publisher := frame.value;
        case "TRCK" => song.trackTotal := frame.value;
        case "TPOS" => song.trackNumber := frame.value;
        case "APIC" => song.albumArt := Text(".");
        case _ =>
      }
    }
    assert tags[..|tags|] == tags;
    song.fileName := Text(filename);
  }

  /** The file name of the song is the one given, whatever the tags hold. */
  lemma FileNameFromArgument(tags: seq<Frame>, filename: string)
    ensures TagsToSong(tags, filename).fileName == Text(filename)
    ensures forall fld :: fld != FileName ==> TagsToSong(tags, filename).Get(fld) == ApplyFrames(tags).Get(fld)
  {
  }

  /** A frame changes exactly the field its id maps to, and a frame whose id
      the mapping does not know changes nothing. */
  lemma ApplyFrameChangesOneField(s: SongFields, f: Frame, fld: Field)
    ensures FieldOf(f.id) == Some(fld) ==> ApplyFrame(s, f).Get(fld) == Assigned(f)
    ensures FieldOf(f.id) != Some(fld) ==> ApplyFrame(s, f).Get(fld) == s.Get(fld)
  {
  }

  /** A field that no frame is written to keeps its default. */
  lemma {:induction false} UntouchedFieldKeepsDefault(tags: seq<Frame>, fld: Field)
    requires forall k :: 0 <= k < |tags| ==> FieldOf(tags[k].id) != Some(fld)
    ensures ApplyFrames(tags).Get(fld) == DefaultFields.Get(fld)
  {
    if tags != [] {
      var n := |tags| - 1;
      UntouchedFieldKeepsDefault(tags[..n], fld);
      ApplyFrameChangesOneField(ApplyFrames(tags[..n]), tags[n], fld);
    }
  }

  /** When several frames are written to one field, the last of them in list
      order decides its value. */
  lemma {:induction false} LastFrameWins(tags: seq<Frame>, fld: Field, k: nat)
    requires k < |tags| && FieldOf(tags[k].id) == Some(fld)
    requires forall j :: k < j < |tags| ==> FieldOf(tags[j].id) != Some(fld)
    ensures ApplyFrames(tags).Get(fld) == Assigned(tags[k])
  {
    var n := |tags| - 1;
    ApplyFrameChangesOneField(ApplyFrames(tags[..n]), tags[n], fld);
    if k < n {
      LastFrameWins(tags[..n], fld, k);
    }
  }
}
