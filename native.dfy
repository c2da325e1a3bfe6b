/** Value types shared by the capture, buffering, inference and presentation
    components: the fixed-width integers of the native interfaces, an Option
    type, and GPU textures seen as references to image content. */
module Native {

  const TWO_TO_THE_32: int := 0x1_0000_0000

  /** `uint32_t` */
  type u32 = x: int | 0 <= x < TWO_TO_THE_32
  /** `uint8_t` */
  type u8 = x: int | 0 <= x < 0x100
  /** `int32_t` and Win32 `LONG` */
  type i32 = x: int | -0x8000_0000 <= x < 0x8000_0000
  /** `int64_t` */
  type i64 = x: int | -0x8000_0000_0000_0000 <= x < 0x8000_0000_0000_0000
  /** `uint64_t` */
  type u64 = x: int | 0 <= x < 0x1_0000_0000_0000_0000

  /** `static_cast<uint32_t>` of a signed value: reduction modulo 2^32. */
  function Wrap32(x: int): (r: u32)
    ensures (x - r) % TWO_TO_THE_32 == 0
    ensures 0 <= x < TWO_TO_THE_32 ==> r == x
  {
    x % TWO_TO_THE_32
  }

  datatype Option<+T> = None | Some(value: T)

  /** An opaque identifier of the pixels a GPU texture holds. Copying one
      texture into another (`CopyResource`) copies its Image. */
  type Image = int

  /** The Image a freshly created texture holds before anything is copied
      into it. */
  const BlankImage: Image := 0

  /** A `ComPtr<ID3D11Texture2D>` / `ID3D11Texture2D*`: null, or a texture
      holding some image. */
  datatype Texture = NullTexture | Texture(image: Image)
}
