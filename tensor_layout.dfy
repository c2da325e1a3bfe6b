/** The pixel layout conversions of the inference engine: a mapped
    B8G8R8A8 staging texture (rows of `pitch` bytes, four bytes per pixel in
    the order blue, green, red, alpha) to and from a planar tensor of three
    `height * width` planes in the order red, green, blue. Floats are
    modelled as reals. */
module TensorLayout {
  import opened Native

  /** `a * n + b` grows with `(a, b)` in lexicographic order when both
      digits are below `n`. */
  lemma {:induction false} RadixLess(a: nat, b: nat, a': nat, b': nat, n: nat)
    requires b < n && b' < n
    requires a < a' || (a == a' && b < b')
    ensures a * n + b < a' * n + b'
  {
    if a < a' {
      var d := a' - (a + 1);
      assert a' * n == (a + 1) * n + d * n;
      assert d * n >= 0;
      assert (a + 1) * n == a * n + n;
    }
  }

  /** The position of pixel `(y, x)` of a `width`-wide image in row-major
      order. */
  function PixelIndex(y: nat, x: nat, w: nat): nat
  {
    y * w + x
  }

  /** The position in the tensor of channel `c` (0 red, 1 green, 2 blue) of
      pixel `(y, x)`. */
  function PlaneIndex(c: nat, y: nat, x: nat, w: nat, h: nat): (i: nat)
    requires c < 3 && y < h && x < w
    ensures i < 3 * (h * w)
  {
    RadixLess(y, x, h, 0, w);
    RadixLess(c, PixelIndex(y, x, w), 3, 0, h * w);
    c * (h * w) + PixelIndex(y, x, w)
  }

  /** The position in the mapped texture of byte `k` of pixel `(y, x)`; with
      `x == 0` it is the `k`-th byte of row `y`. */
  function ByteIndex(y: nat, x: nat, k: nat, pitch: nat, h: nat): (i: nat)
    requires y < h && x * 4 + k < pitch
    ensures i < h * pitch
  {
    RadixLess(y, x * 4 + k, h, 0, pitch);
    y * pitch + (x * 4 + k)
  }

  /** Distinct pixels never share a tensor position. */
  lemma {:induction false} PlaneIndexDistinct(c: nat, y: nat, x: nat, c': nat, y': nat, x': nat, w: nat, h: nat)
    requires c < 3 && y < h && x < w && c' < 3 && y' < h && x' < w
    requires (c, y, x) != (c', y', x')
    ensures PlaneIndex(c, y, x, w, h) != PlaneIndex(c', y', x', w, h)
  {
    var p, p' := PixelIndex(y, x, w), PixelIndex(y', x', w);
    if y < y' || (y == y' && x < x') {
      RadixLess(y, x, y', x', w);
    } else if y' < y || (y == y' && x' < x) {
      RadixLess(y', x', y, x, w);
    }
    RadixLess(y, x, h, 0, w);
    RadixLess(y', x', h, 0, w);
    if c < c' || (c == c' && p < p') {
      RadixLess(c, p, c', p', h * w);
    } else if c' < c || (c == c' && p' < p) {
      RadixLess(c', p', c, p, h * w);
    }
  }

  /** Distinct (row, byte-in-row) pairs never share a texture position. */
  lemma {:induction false} ByteIndexDistinct(y: nat, j: nat, y': nat, j': nat, pitch: nat)
    requires j < pitch && j' < pitch && (y, j) != (y', j')
    ensures y * pitch + j != y' * pitch + j'
  {
    if y < y' || (y == y' && j < j') {
      RadixLess(y, j, y', j', pitch);
    } else {
      RadixLess(y', j', y, j, pitch);
    }
  }

  /** Every tensor position is the position of exactly one channel of one
      pixel. */
  lemma {:induction false} PlaneIndexOnto(i: nat, w: nat, h: nat)
    requires i < 3 * (h * w)
    ensures exists c: nat, y: nat, x: nat :: c < 3 && y < h && x < w && PlaneIndex(c, y, x, w, h) == i
  {
    var n := h * w;
    assert n > 0;
    var c, p := i / n, i % n;
    assert i == c * n + p;
    assert c < 3;
    assert w > 0;
    var y, x := p / w, p % w;
    assert p == y * w + x;
    assert y < h;
    assert PlaneIndex(c, y, x, w, h) == i;
  }

  /** A mapping of a `width` by `height` B8G8R8A8 texture: each row holds
      every pixel, and the data holds every row. */
  predicate FitsImage(size: nat, pitch: nat, w: nat, h: nat)
  {
    4 * w <= pitch && h * pitch <= size
  }

  /** `byte / 255.0f` */
  function Normalize(b: u8): real
  {
    b as real / 255.0
  }

  /** `static_cast<uint8_t>(std::min(255.0f, std::max(0.0f, v * 255.0f)))`:
      the largest byte not above `v * 255`, clamped to the byte range. */
  function Denormalize(v: real): (b: u8)
    ensures v <= 0.0 ==> b == 0
    ensures v >= 1.0 ==> b == 255
    ensures 0.0 <= v < 1.0 ==> b as real <= v * 255.0 < b as real + 1.0
  {
    var s := v * 255.0;
    if s <= 0.0 then 0
    else if s >= 255.0 then 255
    else s.Floor
  }

  /** Converting a byte to a tensor value and back gives the byte. */
  lemma {:induction false} DenormalizeNormalize(b: u8)
    ensures Denormalize(Normalize(b)) == b
  {
    assert Normalize(b) * 255.0 == b as real;
    if b == 255 {
      assert Normalize(b) == 1.0;
    } else {
      assert 0.0 <= Normalize(b) < 1.0;
    }
  }

  /** Larger tensor values never give smaller bytes. */
  lemma {:induction false} DenormalizeMonotone(v: real, v': real)
    requires v <= v'
    ensures Denormalize(v) <= Denormalize(v')
  {
    if 0.0 < v * 255.0 && v' * 255.0 < 255.0 {
      assert (v * 255.0).Floor <= (v' * 255.0).Floor;
    }
  }

  /** `t` is the planar tensor of the mapped texture `src`: each channel
      value is the normalised byte at the matching offset of the pixel
      (red at 2, green at 1, blue at 0). */
  ghost predicate IsPlanarOf(t: seq<real>, src: seq<u8>, pitch: nat, w: nat, h: nat)
    requires FitsImage(|src|, pitch, w, h)
  {
    && |t| >= 3 * (h * w)
    && forall c: nat, y: nat, x: nat | c < 3 && y < h && x < w ::
         t[PlaneIndex(c, y, x, w, h)] == Normalize(src[ByteIndex(y, x, 2 - c, pitch, h)])
  }

  /** `d` is `dst` with the pixels written from the planar tensor `t`:
      blue, green and red denormalised from their planes, alpha 255, and
      every byte outside the pixels (row padding, data past the last row)
      left as it was. */
  ghost predicate IsPackedOf(d: seq<u8>, dst: seq<u8>, t: seq<real>, pitch: nat, w: nat, h: nat)
    requires FitsImage(|dst|, pitch, w, h) && |t| >= 3 * (h * w)
  {
    && |d| == |dst|
    && (forall y: nat, x: nat, k: nat | y < h && x < w && k < 3 ::
          d[ByteIndex(y, x, k, pitch, h)] == Denormalize(t[PlaneIndex(2 - k, y, x, w, h)]))
    && (forall y: nat, x: nat | y < h && x < w :: d[ByteIndex(y, x, 3, pitch, h)] == 255)
    && (forall y: nat, j: nat | y < h && 4 * w <= j < pitch :: d[ByteIndex(y, 0, j, pitch, h)] == dst[ByteIndex(y, 0, j, pitch, h)])
    && (forall i | h * pitch <= i < |d| :: d[i] == dst[i])
  }

  /** The planar tensor of a texture is fully determined by it: any two
      agree on every position the conversion writes. */
  lemma {:induction false} PlanarUnique(t: seq<real>, t': seq<real>, src: seq<u8>, pitch: nat, w: nat, h: nat)
    requires FitsImage(|src|, pitch, w, h)
    requires IsPlanarOf(t, src, pitch, w, h) && IsPlanarOf(t', src, pitch, w, h)
    ensures t[..3 * (h * w)] == t'[..3 * (h * w)]
  {
    forall i | 0 <= i < 3 * (h * w)
      ensures t[i] == t'[i]
    {
      PlaneIndexOnto(i, w, h);
      var c: nat, y: nat, x: nat :| c < 3 && y < h && x < w && PlaneIndex(c, y, x, w, h) == i;
    }
  }

  /** Packing the planar tensor of a texture gives back its blue, green and
      red bytes, with an opaque alpha. */
  lemma {:induction false} PackUnpackRoundTrip(src: seq<u8>, t: seq<real>, dst: seq<u8>, d: seq<u8>, pitch: nat, w: nat, h: nat)
    requires FitsImage(|src|, pitch, w, h) && FitsImage(|dst|, pitch, w, h)
    requires IsPlanarOf(t, src, pitch, w, h)
    requires IsPackedOf(d, dst, t, pitch, w, h)
    ensures forall y: nat, x: nat, k: nat | y < h && x < w && k < 3 ::
              d[ByteIndex(y, x, k, pitch, h)] == src[ByteIndex(y, x, k, pitch, h)]
    ensures forall y: nat, x: nat | y < h && x < w :: d[ByteIndex(y, x, 3, pitch, h)] == 255
  {
    forall y: nat, x: nat, k: nat | y < h && x < w && k < 3
      ensures d[ByteIndex(y, x, k, pitch, h)] == src[ByteIndex(y, x, k, pitch, h)]
    {
      assert t[PlaneIndex(2 - k, y, x, w, h)] == Normalize(src[ByteIndex(y, x, 2 - (2 - k), pitch, h)]);
      DenormalizeNormalize(src[ByteIndex(y, x, k, pitch, h)]);
    }
  }

  /** The conversion loop of `TextureToTensor`: writes the three channel
      values of every pixel of the mapped texture `src` into `tensor`. */
  method UnpackBgra(src: seq<u8>, pitch: nat, w: nat, h: nat, tensor: seq<real>) returns (t: seq<real>)
    requires FitsImage(|src|, pitch, w, h)
    requires |tensor| >= 3 * (h * w)
    ensures |t| == |tensor|
    ensures IsPlanarOf(t, src, pitch, w, h)
    ensures t[3 * (h * w)..] == tensor[3 * (h * w)..]
  {
    t := tensor;
    for y := 0 to h
      invariant |t| == |tensor|
      invariant forall c: nat, y': nat, x: nat | c < 3 && y' < y && x < w ::
                  t[PlaneIndex(c, y', x, w, h)] == Normalize(src[ByteIndex(y', x, 2 - c, pitch, h)])
      invariant t[3 * (h * w)..] == tensor[3 * (h * w)..]
    {
      for x := 0 to w
        invariant |t| == |tensor|
        invariant forall c: nat, y': nat, x': nat | c < 3 && y' < y && x' < w ::
                    t[PlaneIndex(c, y', x', w, h)] == Normalize(src[ByteIndex(y', x', 2 - c, pitch, h)])
        invariant forall c: nat, x': nat | c < 3 && x' < x ::
                    t[PlaneIndex(c, y, x', w, h)] == Normalize(src[ByteIndex(y, x', 2 - c, pitch, h)])
        invariant t[3 * (h * w)..] == tensor[3 * (h * w)..]
      {
        t := UnpackPixel(src, pitch, w, h, t, y, x);
      }
    }
  }

  /** One iteration of the inner conversion loop: the red, green and blue
      values of pixel `(y, x)`, and nothing else. */
  method UnpackPixel(src: seq<u8>, pitch: nat, w: nat, h: nat, tensor: seq<real>, y: nat, x: nat) returns (t: seq<real>)
    requires FitsImage(|src|, pitch, w, h)
    requires |tensor| >= 3 * (h * w) && y < h && x < w
    ensures |t| == |tensor|
    ensures forall c: nat | c < 3 :: t[PlaneIndex(c, y, x, w, h)] == Normalize(src[ByteIndex(y, x, 2 - c, pitch, h)])
    ensures forall c: nat, y': nat, x': nat | c < 3 && y' < h && x' < w && (y', x') != (y, x) ::
              t[PlaneIndex(c, y', x', w, h)] == tensor[PlaneIndex(c, y', x', w, h)]
    ensures t[3 * (h * w)..] == tensor[3 * (h * w)..]
  {
    t := tensor[PlaneIndex(0, y, x, w, h) := Normalize(src[ByteIndex(y, x, 2, pitch, h)])];
    t := t[PlaneIndex(1, y, x, w, h) := Normalize(src[ByteIndex(y, x, 1, pitch, h)])];
    t := t[PlaneIndex(2, y, x, w, h) := Normalize(src[ByteIndex(y, x, 0, pitch, h)])];
    forall c: nat | c < 3 ensures t[PlaneIndex(c, y, x, w, h)] == Normalize(src[ByteIndex(y, x, 2 - c, pitch, h)]) {
      PlaneIndexDistinct(0, y, x, 1, y, x, w, h);
      PlaneIndexDistinct(0, y, x, 2, y, x, w, h);
      PlaneIndexDistinct(1, y, x, 2, y, x, w, h);
    }
    forall c: nat, y': nat, x': nat | c < 3 && y' < h && x' < w && (y', x') != (y, x)
      ensures t[PlaneIndex(c, y', x', w, h)] == tensor[PlaneIndex(c, y', x', w, h)]
    {
      PlaneIndexDistinct(c, y', x', 0, y, x, w, h);
      PlaneIndexDistinct(c, y', x', 1, y, x, w, h);
      PlaneIndexDistinct(c, y', x', 2, y, x, w, h);
    }
  }

  /** The conversion loop of `TensorToTexture`: writes every pixel of the
      mapped texture `dst` from the planar tensor `t`. */
  method PackBgra(t: seq<real>, w: nat, h: nat, dst: seq<u8>, pitch: nat) returns (d: seq<u8>)
    requires FitsImage(|dst|, pitch, w, h)
    requires |t| >= 3 * (h * w)
    ensures IsPackedOf(d, dst, t, pitch, w, h)
  {
    d := dst;
    for y := 0 to h
      invariant |d| == |dst|
      invariant forall y': nat, x: nat, k: nat | y' < y && x < w && k < 3 ::
                  d[ByteIndex(y', x, k, pitch, h)] == Denormalize(t[PlaneIndex(2 - k, y', x, w, h)])
      invariant forall y': nat, x: nat | y' < y && x < w :: d[ByteIndex(y', x, 3, pitch, h)] == 255
      invariant forall y': nat, j: nat | y' < h && 4 * w <= j < pitch ::
                  d[ByteIndex(y', 0, j, pitch, h)] == dst[ByteIndex(y', 0, j, pitch, h)]
      invariant forall y': nat, x: nat, k: nat | y <= y' < h && x < w && k < 4 ::
                  d[ByteIndex(y', x, k, pitch, h)] == dst[ByteIndex(y', x, k, pitch, h)]
      invariant d[h * pitch..] == dst[h * pitch..]
    {
      for x := 0 to w
        invariant |d| == |dst|
        invariant forall y': nat, x': nat, k: nat | y' < y && x' < w && k < 3 ::
                    d[ByteIndex(y', x', k, pitch, h)] == Denormalize(t[PlaneIndex(2 - k, y', x', w, h)])
        invariant forall y': nat, x': nat | y' < y && x' < w :: d[ByteIndex(y', x', 3, pitch, h)] == 255
        invariant forall x': nat, k: nat | x' < x && k < 3 ::
                    d[ByteIndex(y, x', k, pitch, h)] == Denormalize(t[PlaneIndex(2 - k, y, x', w, h)])
        invariant forall x': nat | x' < x :: d[ByteIndex(y, x', 3, pitch, h)] == 255
        invariant forall y': nat, j: nat | y' < h && 4 * w <= j < pitch ::
                    d[ByteIndex(y', 0, j, pitch, h)] == dst[ByteIndex(y', 0, j, pitch, h)]
        invariant forall x': nat, k: nat | x <= x' < w && k < 4 ::
                    d[ByteIndex(y, x', k, pitch, h)] == dst[ByteIndex(y, x', k, pitch, h)]
        invariant forall y': nat, x': nat, k: nat | y < y' < h && x' < w && k < 4 ::
                    d[ByteIndex(y', x', k, pitch, h)] == dst[ByteIndex(y', x', k, pitch, h)]
        invariant d[h * pitch..] == dst[h * pitch..]
      {
        d := PackPixel(t, w, h, d, pitch, y, x);
      }
    }
  }

  /** One iteration of the inner packing loop: the four bytes of pixel
      `(y, x)`, and nothing else. */
  method PackPixel(t: seq<real>, w: nat, h: nat, dst: seq<u8>, pitch: nat, y: nat, x: nat) returns (d: seq<u8>)
    requires FitsImage(|dst|, pitch, w, h)
    requires |t| >= 3 * (h * w) && y < h && x < w
    ensures |d| == |dst|
    ensures forall k: nat | k < 3 :: d[ByteIndex(y, x, k, pitch, h)] == Denormalize(t[PlaneIndex(2 - k, y, x, w, h)])
    ensures d[ByteIndex(y, x, 3, pitch, h)] == 255
    ensures forall y': nat, x': nat, k: nat | y' < h && x' < w && k < 4 && (y', x') != (y, x) ::
              d[ByteIndex(y', x', k, pitch, h)] == dst[ByteIndex(y', x', k, pitch, h)]
    ensures forall y': nat, j: nat | y' < h && 4 * w <= j < pitch ::
              d[ByteIndex(y', 0, j, pitch, h)] == dst[ByteIndex(y', 0, j, pitch, h)]
    ensures d[h * pitch..] == dst[h * pitch..]
  {
    var r := t[PlaneIndex(0, y, x, w, h)];
    var g := t[PlaneIndex(1, y, x, w, h)];
    var b := t[PlaneIndex(2, y, x, w, h)];
    d := dst[ByteIndex(y, x, 0, pitch, h) := Denormalize(b)];
    d := d[ByteIndex(y, x, 1, pitch, h) := Denormalize(g)];
    d := d[ByteIndex(y, x, 2, pitch, h) := Denormalize(r)];
    d := d[ByteIndex(y, x, 3, pitch, h) := 255];
    forall k: nat | k < 3 ensures d[ByteIndex(y, x, k, pitch, h)] == Denormalize(t[PlaneIndex(2 - k, y, x, w, h)]) {
      ByteIndexDistinct(y, x * 4 + k, y, x * 4 + 3, pitch);
      ByteIndexDistinct(y, x * 4 + k, y, x * 4 + (k + 1) % 3, pitch);
      ByteIndexDistinct(y, x * 4 + k, y, x * 4 + (k + 2) % 3, pitch);
    }
    forall y': nat, x': nat, k: nat | y' < h && x' < w && k < 4 && (y', x') != (y, x)
      ensures d[ByteIndex(y', x', k, pitch, h)] == dst[ByteIndex(y', x', k, pitch, h)]
    {
      forall k': nat | k' < 4 ensures ByteIndex(y', x', k, pitch, h) != ByteIndex(y, x, k', pitch, h) {
        ByteIndexDistinct(y', x' * 4 + k, y, x * 4 + k', pitch);
      }
    }
    forall y': nat, j: nat | y' < h && 4 * w <= j < pitch
      ensures d[ByteIndex(y', 0, j, pitch, h)] == dst[ByteIndex(y', 0, j, pitch, h)]
    {
      forall k': nat | k' < 4 ensures ByteIndex(y', 0, j, pitch, h) != ByteIndex(y, x, k', pitch, h) {
        ByteIndexDistinct(y', j, y, x * 4 + k', pitch);
      }
    }
  }
}
