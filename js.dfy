/** The few pieces of JavaScript runtime behaviour the player's core relies on:
    bytes, the dynamically typed values stored in song and frame fields, truthiness
    and the nullish-coalescing operator `??`. */
module Js {

  /** One byte of an ArrayBuffer. */
  type byte = b: int | 0 <= b < 256

  datatype Option<+T> = None | Some(value: T)

  /** A JavaScript value as it can appear in a song, album or frame field:
      `undefined`, a string, a number, or a Uint8Array of raw bytes. */
  datatype Value = Undefined | Text(s: string) | Number(n: int) | Bytes(b: seq<byte>)

  /** JavaScript truthiness: `undefined`, `""` and `0` are falsy; every
      Uint8Array is an object and hence truthy, even an empty one. */
  predicate Truthy(v: Value)
  {
    match v
    case Undefined => false
    case Text(s) => s != ""
    case Number(n) => n != 0
    case Bytes(_) => true
  }

  /** `v ?? d`: the default only when `v` is nullish. */
  function NullishOr(v: Value, d: Value): Value
  {
    if v.Undefined? then d else v
  }
}
