/** Images as the backend handles them, with the pixel work left symbolic.
    An `Image` carries its size and colour mode; its `pixels` record which
    operations produced it (a decoded raster, a mode conversion, a
    resampling, a paste), so a result says what was done without saying
    what the pixels are. Base64 and raster codecs are oracles in `Codec`. */
module Imaging {
  import opened Wrappers

  newtype byte = x: int | 0 <= x < 256
  type Bytes = seq<byte>

  datatype Mode = RGBA | OtherMode(name: string)

  datatype Pixels =
    | Raster(data: Bytes)
    | Converted(source: Pixels, mode: Mode)
    | Resampled(source: Pixels, width: nat, height: nat)
    | Pasted(base: Pixels, overlay: Pixels, x: int, y: int)

  datatype Image = Image(width: nat, height: nat, mode: Mode, pixels: Pixels)

  /** The library calls the backend makes on images and their text form:
      `base64.b64decode` / `b64encode`, `Image.open` of a byte buffer, and
      `save(format='PNG')`. Decoding and opening may raise. */
  datatype Codec = Codec(
    b64decode: string -> Attempt<Bytes>,
    b64encode: Bytes -> string,
    open: Bytes -> Attempt<Image>,
    savePng: Image -> Bytes)

  /** `img.convert('RGBA')` when the mode is not already RGBA. */
  function ToRGBA(img: Image): (r: Image)
    ensures r.mode == RGBA
    ensures r.width == img.width && r.height == img.height
    ensures img.mode == RGBA <==> r == img
  {
    if img.mode == RGBA then img
    else Image(img.width, img.height, RGBA, Converted(img.pixels, RGBA))
  }

  /** `img.resize((w, h), LANCZOS)`: the imaging library refuses a target
      size with a side below one pixel. */
  function Resize(img: Image, w: int, h: int): (r: Attempt<Image>)
    ensures r.Returned? <==> 1 <= w && 1 <= h
    ensures r.Returned? ==> r.value.width == w && r.value.height == h && r.value.mode == img.mode
  {
    if w < 1 || h < 1 then Raised("height and width must be > 0")
    else Returned(Image(w, h, img.mode, Resampled(img.pixels, w, h)))
  }

  /** `base.paste(overlay, (x, y), overlay)`: the base keeps its size and
      mode; parts of the overlay outside the base are clipped. */
  function Paste(base: Image, overlay: Image, x: int, y: int): (r: Image)
    ensures r.width == base.width && r.height == base.height && r.mode == base.mode
  {
    Image(base.width, base.height, base.mode, Pasted(base.pixels, overlay.pixels, x, y))
  }

  /** `Image.open(io.BytesIO(base64.b64decode(s)))`. */
  function DecodeImage(codec: Codec, s: string): (r: Attempt<Image>)
    ensures r.Returned? ==> codec.b64decode(s).Returned? && codec.open(codec.b64decode(s).value) == r
  {
    var data :- codec.b64decode(s);
    codec.open(data)
  }

  /** Base64 as section 4 of RFC 4648 defines it: decoding an encoding
      gives the bytes back. */
  ghost predicate Base64RoundTrips(codec: Codec) {
    forall b: Bytes :: codec.b64decode(codec.b64encode(b)) == Returned(b)
  }

  /** `base64.b64encode(<PNG bytes of img>).decode('utf-8')`: a text that
      decodes back to the image's PNG bytes. */
  function EncodePng(codec: Codec, img: Image): (text: string)
    ensures Base64RoundTrips(codec) ==> codec.b64decode(text) == Returned(codec.savePng(img))
  {
    codec.b64encode(codec.savePng(img))
  }
}
