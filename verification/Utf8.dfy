/** Byte strings, and UTF-8 text as far as cutting it is concerned. */
module Utf8 {

  newtype byte = x: int | 0 <= x < 256

  type Bytes = seq<byte>

  function Flatten(pieces: seq<Bytes>): Bytes {
    if pieces == [] then [] else pieces[0] + Flatten(pieces[1..])
  }

  predicate Continuation(b: byte) {
    0x80 <= b < 0xC0
  }

  /** `str::is_char_boundary`. */
  predicate IsBoundary(text: Bytes, at: nat) {
    at == 0 || at == |text| || (at < |text| && !Continuation(text[at]))
  }

  /** The last boundary at or before `at`. */
  function FloorBoundary(text: Bytes, at: nat): (end: nat)
    requires at <= |text|
    ensures end <= at && IsBoundary(text, end)
    ensures forall i :: end < i <= at ==> !IsBoundary(text, i)
    decreases at
  {
    if IsBoundary(text, at) then at else FloorBoundary(text, at - 1)
  }

  /** `truncate_utf8`: the longest prefix within the bound that ends between characters. */
  function Truncate(text: Bytes, max: nat): (r: Bytes)
    ensures r <= text && |r| <= max && IsBoundary(text, |r|)
    ensures |text| <= max ==> r == text
    ensures forall i :: |r| < i <= max && i <= |text| ==> !IsBoundary(text, i)
  {
    if |text| <= max then text else text[..FloorBoundary(text, max)]
  }

  /** The loop that backs up to a boundary. */
  method BackUp(text: Bytes, at: nat) returns (end: nat)
    requires at <= |text|
    ensures end == FloorBoundary(text, at)
  {
    end := at;
    while !IsBoundary(text, end)
      invariant end <= at && FloorBoundary(text, end) == FloorBoundary(text, at)
      decreases end
    {
      end := end - 1;
    }
  }
}
