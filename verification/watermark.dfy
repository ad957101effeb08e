/** `add_watermark_to_image`: the brand logo is scaled to 15% of the
    image's width, keeping its aspect ratio, and pasted with its
    bottom-right corner 20 px inside the image's bottom-right corner.
    Any fault on the way leaves the input text untouched (fail-open). */
module Watermark {
  import opened Wrappers
  import opened Imaging

  /** Gap between the logo and the right and bottom edges, in pixels. */
  const Padding: int := 20

  /** `int(width * 0.15)`: the floor of 15% of the width. */
  function LogoWidth(mainWidth: nat): (w: nat)
    ensures 100 * w <= 15 * mainWidth < 100 * w + 100
  {
    (15 * mainWidth) / 100
  }

  /** `int(logoHeight * (w / logoWidth))`: the height that keeps the logo's
      aspect ratio at width `w`, rounded down. */
  function LogoHeight(logoWidth: nat, logoHeight: nat, w: nat): (h: nat)
    requires logoWidth > 0
    ensures h * logoWidth <= logoHeight * w < h * logoWidth + logoWidth
  {
    (logoHeight * w) / logoWidth
  }

  /** Where the scaled logo goes: its size and its top-left corner. */
  datatype Placement = Placement(width: nat, height: nat, x: int, y: int)

  /** The geometry of lines 95-102; a logo of width zero makes the aspect
      ratio a division by zero. */
  function PlaceLogo(main: Image, logo: Image): (p: Attempt<Placement>)
    ensures p.Raised? <==> logo.width == 0
    ensures p.Returned? ==>
      && p.value.width == LogoWidth(main.width)
      && p.value.height == LogoHeight(logo.width, logo.height, p.value.width)
      && p.value.x + p.value.width + Padding == main.width
      && p.value.y + p.value.height + Padding == main.height
  {
    if logo.width == 0 then Raised("division by zero")
    else
      var w := LogoWidth(main.width);
      var h := LogoHeight(logo.width, logo.height, w);
      Returned(Placement(w, h, main.width - w - Padding, main.height - h - Padding))
  }

  /** The body of the `try` block: decode both images, normalise them to
      RGBA, scale the logo and paste it. */
  function Compose(codec: Codec, imageBase64: string, logoBase64: string): (r: Attempt<Image>)
    ensures r.Returned? ==>
      && DecodeImage(codec, imageBase64).Returned?
      && r.value.mode == RGBA
      && r.value.width == DecodeImage(codec, imageBase64).value.width
      && r.value.height == DecodeImage(codec, imageBase64).value.height
  {
    var imageData :- codec.b64decode(imageBase64);
    var logoData :- codec.b64decode(logoBase64);
    var main0 :- codec.open(imageData);
    var logo0 :- codec.open(logoData);
    var main := ToRGBA(main0);
    var logo := ToRGBA(logo0);
    var p :- PlaceLogo(main, logo);
    var scaled :- Resize(logo, p.width, p.height);
    Returned(Paste(main, scaled, p.x, p.y))
  }

  /** `add_watermark_to_image(image_base64, logo_base64)`: the result is
      the input itself, or the PNG encoding of an RGBA image of the
      input's size. */
  function AddWatermark(codec: Codec, imageBase64: string, logoBase64: string): (r: string)
    ensures r == imageBase64 || exists c: Image ::
      && c.mode == RGBA
      && DecodeImage(codec, imageBase64).Returned?
      && c.width == DecodeImage(codec, imageBase64).value.width
      && c.height == DecodeImage(codec, imageBase64).value.height
      && r == EncodePng(codec, c)
  {
    match Compose(codec, imageBase64, logoBase64)
    case Raised(_) => imageBase64
    case Returned(c) => EncodePng(codec, c)
  }

  /** The faults that make the watermark step give up, stated on the
      decoded inputs: an undecodable image or logo, a logo of width zero,
      or a scaled logo with a side of zero pixels. */
  predicate Faults(codec: Codec, imageBase64: string, logoBase64: string) {
    || DecodeImage(codec, imageBase64).Raised?
    || DecodeImage(codec, logoBase64).Raised?
    || (var main := DecodeImage(codec, imageBase64).value;
        var logo := DecodeImage(codec, logoBase64).value;
        || logo.width == 0
        || LogoWidth(main.width) == 0
        || LogoHeight(logo.width, logo.height, LogoWidth(main.width)) == 0)
  }

  /** The whole behaviour of the watermark step: on a fault the input comes
      back unchanged; otherwise the output is the PNG of the RGBA image
      with the RGBA logo, resampled to 15% width, pasted 20 px in from the
      bottom-right corner. */
  lemma AddWatermarkSpec(codec: Codec, imageBase64: string, logoBase64: string)
    ensures Faults(codec, imageBase64, logoBase64) ==>
      AddWatermark(codec, imageBase64, logoBase64) == imageBase64
    ensures !Faults(codec, imageBase64, logoBase64) ==>
      var main := DecodeImage(codec, imageBase64).value;
      var logo := DecodeImage(codec, logoBase64).value;
      var w := LogoWidth(main.width);
      var h := LogoHeight(logo.width, logo.height, w);
      AddWatermark(codec, imageBase64, logoBase64) ==
        EncodePng(codec, Image(main.width, main.height, RGBA,
          Pasted(ToRGBA(main).pixels, Resampled(ToRGBA(logo).pixels, w, h),
                 main.width - w - Padding, main.height - h - Padding)))
  {
  }

  /** Images narrower than 7 px get a logo of width zero, which cannot be
      resized, so they are never watermarked. */
  lemma NarrowImageUnchanged(codec: Codec, imageBase64: string, logoBase64: string)
    requires DecodeImage(codec, imageBase64).Returned?
    requires DecodeImage(codec, imageBase64).value.width < 7
    ensures AddWatermark(codec, imageBase64, logoBase64) == imageBase64
  {
  }

  /** The paste origin is inside the image exactly when the image is at
      least 23 px wide; narrower images get a negative x, which the code
      does not check. */
  lemma OriginInsideIff(main: Image, logo: Image)
    requires logo.width > 0
    ensures PlaceLogo(main, logo).value.x >= 0 <==> main.width >= 23
  {
  }

  /** A 10x10 image with a square logo: the logo is 1x1 and is pasted at
      (-11, -11), outside the canvas, yet the step reports no fault. */
  lemma NegativeOriginExample(codec: Codec, imageBase64: string, logoBase64: string)
    requires DecodeImage(codec, imageBase64).Returned?
    requires DecodeImage(codec, logoBase64).Returned?
    requires DecodeImage(codec, imageBase64).value.width == 10
    requires DecodeImage(codec, imageBase64).value.height == 10
    requires DecodeImage(codec, logoBase64).value.width == 100
    requires DecodeImage(codec, logoBase64).value.height == 100
    ensures Compose(codec, imageBase64, logoBase64).Returned?
    ensures Compose(codec, imageBase64, logoBase64).value.pixels.Pasted?
    ensures Compose(codec, imageBase64, logoBase64).value.pixels.x == -11
    ensures Compose(codec, imageBase64, logoBase64).value.pixels.y == -11
  {
  }

}
