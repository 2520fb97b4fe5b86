/** The ID3v2 tag reader: the synchsafe tag size, one frame header at a time,
    and the walk over the frames of a tag. Text decoding is done by a decoder
    the caller supplies (the platform's TextDecoder), never interpreted here. */
module Id3 {
  import opened Js

  /** Size of the tag header and of every frame header. */
  const HeaderSize: nat := 10

  /** Labels handed to the text decoder for the encoding byte values $00 to $03. */
  const Id3Encodings: seq<string> := ["ascii", "utf-16", "utf-16be", "utf-8"]

  /** Frames whose content starts with a three-byte language code. */
  const LangFrames: seq<string> := ["USLT", "SYLT", "COMM", "USER"]

  /** `RangeError`: a DataView or Uint8Array reaching past the buffer, or with a
      negative length. `EmptyFrame`: the "ID cannot be empty" error. */
  datatype Error = RangeError | EmptyFrame

  datatype Result<+T> = Success(value: T) | Failure(error: Error)

  /** One decoded frame; `size` counts the frame header too. */
  datatype Frame = Frame(id: string, value: Value, lang: Value, size: nat)

  /** A text decoder: an encoding label (`None` for `undefined`) and bytes to a string. */
  type Decoder = (Option<string>, seq<byte>) -> string

  const Ascii: Option<string> := Some("ascii")

  /** `ID3_ENCODINGS[e]`: `undefined` past the end of the table. */
  function EncodingName(e: byte): (r: Option<string>)
    ensures r.Some? <==> e < 4
  {
    if e < |Id3Encodings| then Some(Id3Encodings[e]) else None
  }

  predicate IsLangFrame(id: string)
  {
    id in LangFrames
  }

  /** Bytes taken by the language code in front of a frame's content. */
  function LangBytes(id: string): nat
  {
    if IsLangFrame(id) then 3 else 0
  }

  /** Strips bit 7 of each of the four bytes of a synchsafe integer and joins the
      remaining 7-bit groups. */
  function SyncToInt(sync: bv32): (r: bv32)
    ensures r < 0x1000_0000
    ensures r & 0x7f == sync & 0x7f
    ensures (r >> 7) & 0x7f == (sync >> 8) & 0x7f
    ensures (r >> 14) & 0x7f == (sync >> 16) & 0x7f
    ensures r >> 21 == (sync >> 24) & 0x7f
  {
    var mask: bv32 := 0x7f;
    var b1 := sync & mask;
    var b2 := (sync >> 8) & mask;
    var b3 := (sync >> 16) & mask;
    var b4 := (sync >> 24) & mask;
    b1 | (b2 << 7) | (b3 << 14) | (b4 << 21)
  }

  /** `sync` with bit 7 of its byte `k` (counting from the least significant) inverted. */
  function FlipBit7(sync: bv32, k: nat): bv32
    requires k < 4
  {
    sync ^ ((0x80 as bv32) << (8 * k))
  }

  lemma SyncToIntIgnoresBit7(sync: bv32, k: nat)
    requires k < 4
    ensures SyncToInt(FlipBit7(sync, k)) == SyncToInt(sync)
  {
  }

  /** Spreads a 28-bit value over four bytes, seven bits per byte, bit 7 clear. */
  function ToSynchsafe(n: bv32): (r: bv32)
    requires n < 0x1000_0000
    ensures r & 0x8080_8080 == 0
    ensures SyncToInt(r) == n
  {
    (n & 0x7f) | (((n >> 7) & 0x7f) << 8) | (((n >> 14) & 0x7f) << 16) | (((n >> 21) & 0x7f) << 24)
  }

  lemma ToSynchsafeOfSyncToInt(sync: bv32)
    requires sync & 0x8080_8080 == 0
    ensures ToSynchsafe(SyncToInt(sync)) == sync
  {
  }

  /** `DataView.getUint32(o)`: four bytes, most significant first. */
  function Uint32At(buf: seq<byte>, o: nat): (r: nat)
    requires o + 4 <= |buf|
    ensures r < 0x1_0000_0000
  {
    ((buf[o] as int * 256 + buf[o + 1]) * 256 + buf[o + 2]) * 256 + buf[o + 3]
  }

  /** The frame whose header starts at `offset`: `None` for padding (a zero
      first byte), otherwise its id, its content decoded (raw bytes for APIC),
      its language code and its size. Content starts after the 10-byte header
      and the encoding byte, plus the language code for language frames, and
      runs for the stored size less those bytes. */
  function FrameAt(buf: seq<byte>, offset: nat, decode: Decoder): (r: Result<Option<Frame>>)
    ensures r == Success(None) <==> offset + HeaderSize + 1 <= |buf| && buf[offset] == 0
    ensures r.Success? ==> offset + HeaderSize + 1 <= |buf|
    ensures r.Success? && r.value.Some? ==>
      var f := r.value.value;
      HeaderSize + 1 <= f.size && offset + f.size <= |buf| && f.id != "" && Truthy(f.value)
  {
    if |buf| < offset + HeaderSize + 1 then Failure(RangeError)
    else if buf[offset] == 0 then Success(None)
    else
      var id := decode(Ascii, buf[offset..offset + 4]);
      var stored := Uint32At(buf, offset + 4);
      var start := offset + HeaderSize + 1 + LangBytes(id);
      var length := stored - 1 - LangBytes(id);
      if |buf| < start || length < 0 || |buf| < start + length then Failure(RangeError)
      else
        var content := buf[start..start + length];
        var value := if id != "APIC" then Text(decode(EncodingName(buf[offset + HeaderSize]), content))
                     else Bytes(content);
        var lang := if IsLangFrame(id) then Text(decode(Ascii, buf[offset + HeaderSize + 1..start])) else Undefined;
        if id == "" || !Truthy(value) then Failure(EmptyFrame)
        else Success(Some(Frame(id, value, lang, stored + HeaderSize)))
  }

  /** Parses one frame header, moving the content window past the language code
      when the frame has one. */
  method DecodeFrame(buf: seq<byte>, offset: nat, decode: Decoder) returns (r: Result<Option<Frame>>)
    ensures r == FrameAt(buf, offset, decode)
  {
    if |buf| < offset + HeaderSize + 1 {
      return Failure(RangeError);
    }
    if buf[offset] == 0 {
      return Success(None);
    }
    var id := decode(Ascii, buf[offset..offset + 4]);
    var size := Uint32At(buf, offset + 4);
    var contentSize := size - 1;
    var encoding := buf[offset + HeaderSize];
    var contentOffset := offset + HeaderSize + 1;
    var lang := Undefined;
    if IsLangFrame(id) {
      if |buf| < contentOffset + 3 {
        return Failure(RangeError);
      }
      lang := Text(decode(Ascii, buf[contentOffset..contentOffset + 3]));
      contentOffset := contentOffset + 3;
      contentSize := contentSize - 3;
    }
    if contentSize < 0 || |buf| < contentOffset + contentSize {
      return Failure(RangeError);
    }
    var value;
    if id != "APIC" {
      value := Text(decode(EncodingName(encoding), buf[contentOffset..contentOffset + contentSize]));
    } else {
      value := Bytes(buf[contentOffset..contentOffset + contentSize]);
    }
    if id == "" || !Truthy(value) {
      return Failure(EmptyFrame);
    }
    return Success(Some(Frame(id, value, lang, size + HeaderSize)));
  }

  /** Where a decoded frame's parts lie in the buffer. */
  lemma FrameLayout(buf: seq<byte>, offset: nat, decode: Decoder, f: Frame)
    requires FrameAt(buf, offset, decode) == Success(Some(f))
    ensures var stored := Uint32At(buf, offset + 4);
            var start := offset + HeaderSize + 1 + LangBytes(f.id);
            var length := stored - 1 - LangBytes(f.id);
            f.id == decode(Ascii, buf[offset..offset + 4]) &&
            f.size == stored + HeaderSize &&
            0 <= length && start + length == offset + f.size &&
            (IsLangFrame(f.id) ==> f.lang == Text(decode(Ascii, buf[offset + HeaderSize + 1..offset + HeaderSize + 4]))) &&
            (!IsLangFrame(f.id) ==> f.lang == Undefined) &&
            (f.id == "APIC" ==> f.value == Bytes(buf[start..start + length])) &&
            (f.id != "APIC" ==> f.value == Text(decode(EncodingName(buf[offset + HeaderSize]), buf[start..start + length])))
  {
  }

  /** A frame that lies within the buffer is rejected as empty exactly when its
      id decodes to the empty string, or when it is a text frame whose content
      decodes to the empty string. */
  lemma EmptyFrameRejected(buf: seq<byte>, offset: nat, decode: Decoder)
    requires offset + HeaderSize + 1 <= |buf| && buf[offset] != 0
    ensures var id := decode(Ascii, buf[offset..offset + 4]);
            var start := offset + HeaderSize + 1 + LangBytes(id);
            var length := Uint32At(buf, offset + 4) - 1 - LangBytes(id);
            0 <= length && start + length <= |buf| ==>
              (FrameAt(buf, offset, decode) == Failure(EmptyFrame) <==>
                id == "" ||
                (id != "APIC" && decode(EncodingName(buf[offset + HeaderSize]), buf[start..start + length]) == ""))
  {
  }

  /** Frames from `offset` on, until the tag end `end`, a padding byte, or an error. */
  function FramesFrom(buf: seq<byte>, offset: nat, end: int, decode: Decoder): (r: Result<seq<Frame>>)
    decreases end - offset
  {
    if end <= offset then Success([])
    else
      match FrameAt(buf, offset, decode)
      case Failure(e) => Failure(e)
      case Success(None) => Success([])
      case Success(Some(f)) => Prepend([f], FramesFrom(buf, offset + f.size, end, decode))
  }

  function Prepend(fs: seq<Frame>, r: Result<seq<Frame>>): Result<seq<Frame>>
  {
    match r
    case Success(rest) => Success(fs + rest)
    case Failure(e) => Failure(e)
  }

  lemma PrependNothing(r: Result<seq<Frame>>)
    ensures Prepend([], r) == r
  {
    if r.Success? {
      assert [] + r.value == r.value;
    }
  }

  lemma PrependTwice(a: seq<Frame>, b: seq<Frame>, r: Result<seq<Frame>>)
    ensures Prepend(a, Prepend(b, r)) == Prepend(a + b, r)
  {
    if r.Success? {
      assert a + (b + r.value) == (a + b) + r.value;
    }
  }

  /** The offset of frame `i` when frames `fs` are laid out back to back from `start`. */
  function FrameOffset(fs: seq<Frame>, start: nat, i: nat): nat
    requires i <= |fs|
    decreases i
  {
    if i == 0 then start else FrameOffset(fs[1..], start + fs[0].size, i - 1)
  }

  /** Where the tag ends: its header plus the synchsafe size at bytes 6 to 9. */
  function TagEnd(buf: seq<byte>): int
    requires HeaderSize <= |buf|
  {
    HeaderSize + SyncToInt(Uint32At(buf, 6) as bv32) as int
  }

  /** All frames of the tag at the start of `buf`. */
  function ReadTags(buf: seq<byte>, decode: Decoder): Result<seq<Frame>>
  {
    if |buf| < HeaderSize then Failure(RangeError)
    else FramesFrom(buf, HeaderSize, TagEnd(buf), decode)
  }

  /** Reads the tag's frames in file order. */
  method Read(buf: seq<byte>, decode: Decoder) returns (r: Result<seq<Frame>>)
    ensures r == ReadTags(buf, decode)
  {
    if |buf| < HeaderSize {
      return Failure(RangeError);
    }
    var size := SyncToInt(Uint32At(buf, 6) as bv32) as int;
    var offset := HeaderSize;
    var id3Size := HeaderSize + size;
    var data: seq<Frame> := [];
    PrependNothing(FramesFrom(buf, offset, id3Size, decode));
    while offset < id3Size
      invariant Prepend(data, FramesFrom(buf, offset, id3Size, decode)) == ReadTags(buf, decode)
      decreases id3Size - offset
    {
      var frame := DecodeFrame(buf, offset, decode);
      if frame.Failure? {
        return Failure(frame.error);
      }
      if frame.value.None? {
        break;
      }
      PrependTwice(data, [frame.value.value], FramesFrom(buf, offset + frame.value.value.size, id3Size, decode));
      data := data + [frame.value.value];
      offset := offset + frame.value.value.size;
    }
    assert data + [] == data;
    return Success(data);
  }

  /** The frames read are exactly the frames found at successive offsets from
      `start`, each below the tag end and each at least one header past the one
      before; the walk stopped at the tag end or at padding. */
  lemma {:induction false} FramesInFileOrder(buf: seq<byte>, start: nat, end: int, decode: Decoder, fs: seq<Frame>)
    requires FramesFrom(buf, start, end, decode) == Success(fs)
    ensures forall i :: 0 <= i < |fs| ==>
      FrameOffset(fs, start, i) < end &&
      FrameAt(buf, FrameOffset(fs, start, i), decode) == Success(Some(fs[i])) &&
      FrameOffset(fs, start, i) + HeaderSize < FrameOffset(fs, start, i + 1)
    ensures end <= FrameOffset(fs, start, |fs|) || FrameAt(buf, FrameOffset(fs, start, |fs|), decode) == Success(None)
    decreases end - start
  {
    if end <= start || FrameAt(buf, start, decode) == Success(None) {
      assert fs == [];
    } else {
      var f := FrameAt(buf, start, decode).value.value;
      var rest := FramesFrom(buf, start + f.size, end, decode);
      assert rest.Success? && fs == [f] + rest.value;
      FramesInFileOrder(buf, start + f.size, end, decode, rest.value);
      assert fs[1..] == rest.value;
      forall i | 0 < i <= |fs|
        ensures FrameOffset(fs, start, i) == FrameOffset(rest.value, start + f.size, i - 1)
      {
      }
    }
  }
}
