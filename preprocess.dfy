/**
 * `preprocessImage`: the resized 640x640 RGB image arrives from the image library
 * as an interleaved (height, width, channel) byte buffer; it is rearranged into
 * the planar (channel, height, width) layout the detector takes, each byte
 * divided by 255.
 */
module Preprocess {
  import opened Pixels

  const Channels: int := 3
  const Height: int := 640
  const Width: int := 640
  const TensorSize: int := 3 * 640 * 640

  predicate InImage(c: int, h: int, w: int)
  {
    0 <= c < 3 && 0 <= h < 640 && 0 <= w < 640
  }

  /** `srcIdx`: channel `c` of pixel (h, w) in the interleaved buffer. */
  function HwcIndex(c: int, h: int, w: int): int
  {
    (h * 640 + w) * 3 + c
  }

  /** `dstIdx`: channel `c` of pixel (h, w) in the planar tensor. */
  function ChwIndex(c: int, h: int, w: int): int
  {
    c * 640 * 640 + h * 640 + w
  }

  lemma IndicesInRange(c: int, h: int, w: int)
    requires InImage(c, h, w)
    ensures 0 <= HwcIndex(c, h, w) < TensorSize
    ensures 0 <= ChwIndex(c, h, w) < TensorSize
  {
  }

  /** No two positions of the image share a tensor slot ... */
  lemma ChwIndexInjective(c: int, h: int, w: int, c': int, h': int, w': int)
    requires InImage(c, h, w) && InImage(c', h', w')
    requires ChwIndex(c, h, w) == ChwIndex(c', h', w')
    ensures c == c' && h == h' && w == w'
  {
    assert c * 409600 <= ChwIndex(c, h, w) < c * 409600 + 409600;
    assert c' * 409600 <= ChwIndex(c', h', w') < c' * 409600 + 409600;
    assert c == c';
    assert h * 640 <= h * 640 + w < h * 640 + 640;
    assert h' * 640 <= h' * 640 + w' < h' * 640 + 640;
  }

  /** ... and every slot belongs to one of them, so the loop writes each slot exactly once. */
  lemma ChwIndexOnto(i: int) returns (c: int, h: int, w: int)
    requires 0 <= i < TensorSize
    ensures InImage(c, h, w) && ChwIndex(c, h, w) == i
  {
    c := i / 409600;
    var rest := i % 409600;
    h := rest / 640;
    w := rest % 640;
    assert i == c * 409600 + rest;
    assert rest == h * 640 + w;
  }

  /** The same holds for the interleaved buffer: every byte of it is read exactly once. */
  lemma HwcIndexInjective(c: int, h: int, w: int, c': int, h': int, w': int)
    requires InImage(c, h, w) && InImage(c', h', w')
    requires HwcIndex(c, h, w) == HwcIndex(c', h', w')
    ensures c == c' && h == h' && w == w'
  {
    var p, p' := h * 640 + w, h' * 640 + w';
    assert p * 3 <= HwcIndex(c, h, w) < p * 3 + 3;
    assert p' * 3 <= HwcIndex(c', h', w') < p' * 3 + 3;
    assert p == p';
    assert h * 640 <= p < h * 640 + 640;
    assert h' * 640 <= p' < h' * 640 + 640;
  }

  /** One position has been written when it comes before (c, h, w) in loop order. */
  predicate Before(c': int, h': int, w': int, c: int, h: int, w: int)
  {
    c' < c || (c' == c && (h' < h || (h' == h && w' < w)))
  }

  /** The planar tensor is filled in loop order: an earlier position has a lower slot. */
  lemma ChwIndexOrder(c': int, h': int, w': int, c: int, h: int, w: int)
    requires InImage(c', h', w') && InImage(c, h, w) && Before(c', h', w', c, h, w)
    ensures ChwIndex(c', h', w') < ChwIndex(c, h, w)
  {
  }

  /** The triple loop of `preprocessImage`. The `Float32Array` keeps `real` values here. */
  method PreprocessImage(enhanced: seq<Byte>) returns (data: array<real>)
    requires |enhanced| == TensorSize
    ensures fresh(data)
    ensures data.Length == TensorSize
    ensures forall c, h, w :: InImage(c, h, w) ==>
      data[ChwIndex(c, h, w)] == Normalize(enhanced[HwcIndex(c, h, w)])
    ensures forall i :: 0 <= i < data.Length ==> 0.0 <= data[i] <= 1.0
  {
    data := new real[TensorSize];
    var c := 0;
    while c < Channels
      invariant 0 <= c <= Channels
      invariant forall c', h', w' :: InImage(c', h', w') && c' < c ==>
        data[ChwIndex(c', h', w')] == Normalize(enhanced[HwcIndex(c', h', w')])
    {
      var h := 0;
      while h < Height
        invariant 0 <= h <= Height
        invariant forall c', h', w' :: InImage(c', h', w') && Before(c', h', w', c, h, 0) ==>
          data[ChwIndex(c', h', w')] == Normalize(enhanced[HwcIndex(c', h', w')])
      {
        var w := 0;
        while w < Width
          invariant 0 <= w <= Width
          invariant forall c', h', w' :: InImage(c', h', w') && Before(c', h', w', c, h, w) ==>
            data[ChwIndex(c', h', w')] == Normalize(enhanced[HwcIndex(c', h', w')])
        {
          var srcIdx := HwcIndex(c, h, w);
          var dstIdx := ChwIndex(c, h, w);
          IndicesInRange(c, h, w);
          forall c', h', w' | InImage(c', h', w') && Before(c', h', w', c, h, w)
            ensures ChwIndex(c', h', w') < dstIdx
          {
            ChwIndexOrder(c', h', w', c, h, w);
          }
          data[dstIdx] := Normalize(enhanced[srcIdx]);
          w := w + 1;
        }
        h := h + 1;
      }
      c := c + 1;
    }
    forall i | 0 <= i < data.Length
      ensures 0.0 <= data[i] <= 1.0
    {
      var c', h', w' := ChwIndexOnto(i);
    }
  }
}
