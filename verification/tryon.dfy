/** `create_tryon` and `get_tryon_result`. The orchestrator looks the outfit
    up, decodes both images, asks the image editor for a composite, adds
    the watermark when a logo was downloaded, files one result record and
    replies with its id and image. Both handlers catch every exception,
    their own `HTTPException(404)` included, and answer 500. */
module Tryon {
  import opened Wrappers
  import opened Decimal
  import opened Imaging
  import opened Records
  import opened Watermark

  /** The arguments of `image_gen.edit_images(...)`. */
  datatype EditRequest = EditRequest(
    images: seq<Bytes>,
    prompt: string,
    model: string,
    size: string,
    quality: string)

  /** The remote image editor: the generated images, or the exception it raised. */
  type ImageEditor = EditRequest -> Attempt<seq<Bytes>>

  /** The instruction sent with the two images, whitespace included. */
  const Prompt: string :=
    "\n        Create a photorealistic image of a dog wearing the outfit from the reference image. "
    + "\n        The dog should look natural and happy wearing the clothing. "
    + "\n        Ensure the outfit fits properly on the dog's body and maintains the style and colors from the reference."
    + "\n        The background should remain similar to the original dog photo."
    + "\n        Make it look professional and appealing for a pet spa business."
    + "\n        "

  const EditModel := "gpt-image-1"
  const EditSize := "1024x1536"
  const EditQuality := "high"
  const DoneMessage := "Virtual try-on completed successfully!"
  const TryonFailure := "Error generating try-on: "
  const FetchFailure := "Error fetching try-on result"

  /** `str(HTTPException(status, detail))`, which Starlette renders as the
      status in decimal, a colon and a space, then the detail. */
  function ExceptionText(status: nat, detail: string): (text: string)
    ensures |detail| + 2 < |text|
    ensures EndsWith(text, ": " + detail)
    ensures var code := text[..|text| - |detail| - 2];
      AllDigits(code) && ParseDigits(code) == status && (|code| > 1 ==> code[0] != '0')
  {
    var code := NatToString(status);
    ParseNatToString(status);
    var text := code + ": " + detail;
    assert text[..|text| - |detail| - 2] == code;
    text
  }

  /** The request the handler sends for these decoded images: the dog
      first, then the outfit, with the fixed prompt and options. */
  function EditFor(dogBytes: Bytes, outfitBytes: Bytes): (edit: EditRequest)
    ensures edit.images == [dogBytes, outfitBytes]
    ensures edit.prompt == Prompt
    ensures edit.model == "gpt-image-1" && edit.size == "1024x1536" && edit.quality == "high"
  {
    EditRequest([dogBytes, outfitBytes], Prompt, EditModel, EditSize, EditQuality)
  }

  /** Lines 203-226: decode both images, call the editor, keep the first
      image; the text of whatever was raised on the way. */
  function Generate(codec: Codec, editor: ImageEditor, dogImageBase64: string, outfit: OutfitItem): (r: Attempt<Bytes>)
    ensures r.Returned? ==>
      && codec.b64decode(dogImageBase64).Returned?
      && codec.b64decode(outfit.imageBase64).Returned?
      && var answer := editor(EditFor(codec.b64decode(dogImageBase64).value, codec.b64decode(outfit.imageBase64).value));
      && answer.Returned? && |answer.value| > 0 && r.value == answer.value[0]
  {
    var dogBytes :- codec.b64decode(dogImageBase64);
    var outfitBytes :- codec.b64decode(outfit.imageBase64);
    var images :- editor(EditFor(dogBytes, outfitBytes));
    if |images| == 0 then Raised(ExceptionText(500, "No image was generated"))
    else Returned(images[0])
  }

  /** `if logo_base64:`: Python treats both `None` and the empty text as
      false, so only a download that produced some text counts. */
  function HasLogo(logo: Option<string>): (present: bool)
    ensures !present <==> logo == None || logo == Some("")
  {
    logo.Some? && |logo.value| > 0
  }

  /** `create_tryon(request)`. `logo` is what `download_logo()` returned,
      `freshId` stands for `uuid4` and `now` for `datetime.utcnow()`. */
  function CreateTryon(s: Store, req: TryonRequest, codec: Codec, editor: ImageEditor,
                       logo: Option<string>, freshId: set<string> -> string, now: int): (r: Handled)
    requires FreshIds(freshId)
    ensures WellFormed(s) ==> WellFormed(r.store)
    ensures r.store.outfits == s.outfits
    ensures r.response.Err? ==> r.store == s && r.response.status == 500
    ensures r.response.Ok? ==>
      && r.response.payload.TryonDone?
      && r.response.payload.message == DoneMessage
      && var id := r.response.payload.id;
      && id !in s.results
      && r.store.results == s.results[id := TryonResult(id, req.dogImageBase64, req.outfitId,
                                           r.response.payload.resultImageBase64, req.customerName, false, now)]
  {
    if req.outfitId !in s.outfits then
      Handled(s, Err(500, TryonFailure + ExceptionText(404, "Outfit not found")))
    else match Generate(codec, editor, req.dogImageBase64, s.outfits[req.outfitId])
      case Raised(m) => Handled(s, Err(500, TryonFailure + m))
      case Returned(generated) =>
        var plain := codec.b64encode(generated);
        var image := if HasLogo(logo) then AddWatermark(codec, plain, logo.value) else plain;
        var id := freshId(s.results.Keys);
        var record := TryonResult(id, req.dogImageBase64, req.outfitId, image, req.customerName, false, now);
        Handled(Store(s.outfits, s.results[id := record]), Ok(TryonDone(id, image, DoneMessage)))
  }

  /** `get_tryon_result(tryon_id)`: the stored image, else 500. */
  function GetTryonResult(s: Store, tryonId: string): (r: Response)
    ensures r.Ok? <==> tryonId in s.results
    ensures r.Ok? ==> r.payload == ImageData(s.results[tryonId].resultImageBase64)
    ensures r.Err? ==> r == Err(500, FetchFailure)
  {
    if tryonId !in s.results then Err(500, FetchFailure)
    else Ok(ImageData(s.results[tryonId].resultImageBase64))
  }

  /** A try-on succeeds exactly when the outfit exists, both images decode
      and the editor returns at least one image. */
  lemma CreateTryonOkIff(s: Store, req: TryonRequest, codec: Codec, editor: ImageEditor,
                         logo: Option<string>, freshId: set<string> -> string, now: int)
    requires FreshIds(freshId)
    ensures CreateTryon(s, req, codec, editor, logo, freshId, now).response.Ok? <==>
      && req.outfitId in s.outfits
      && codec.b64decode(req.dogImageBase64).Returned?
      && codec.b64decode(s.outfits[req.outfitId].imageBase64).Returned?
      && var answer := editor(EditFor(codec.b64decode(req.dogImageBase64).value,
                                      codec.b64decode(s.outfits[req.outfitId].imageBase64).value));
      && answer.Returned? && |answer.value| > 0
  {
  }

  /** An unknown outfit stops the handler before anything is generated:
      neither the editor nor the logo matters, nothing is filed, and the
      404 raised inside the `try` reaches the client as a 500. */
  lemma UnknownOutfitIs500(s: Store, req: TryonRequest, codec: Codec,
                           editor1: ImageEditor, editor2: ImageEditor,
                           logo1: Option<string>, logo2: Option<string>,
                           freshId: set<string> -> string, now: int)
    requires FreshIds(freshId)
    requires req.outfitId !in s.outfits
    ensures CreateTryon(s, req, codec, editor1, logo1, freshId, now)
         == CreateTryon(s, req, codec, editor2, logo2, freshId, now)
    ensures CreateTryon(s, req, codec, editor1, logo1, freshId, now)
         == Handled(s, Err(500, "Error generating try-on: 404: Outfit not found"))
  {
    NotFoundText();
  }

  /** The text of the 404 the handler raises for an unknown outfit. */
  lemma NotFoundText()
    ensures TryonFailure + ExceptionText(404, "Outfit not found")
         == "Error generating try-on: 404: Outfit not found"
  {
    Render404("Outfit not found");
  }

  /** `str(HTTPException(404, detail))` is "404: " and the detail. */
  lemma Render404(detail: string)
    ensures ExceptionText(404, detail) == "404: " + detail
  {
    assert NatToString(4) == "4";
    assert NatToString(40) == "40";
  }

  /** The stored and returned image is the editor's first image, encoded,
      and watermarked exactly when a non-empty logo was downloaded. */
  lemma TryonImage(s: Store, req: TryonRequest, codec: Codec, editor: ImageEditor,
                   logo: Option<string>, freshId: set<string> -> string, now: int)
    requires FreshIds(freshId)
    requires CreateTryon(s, req, codec, editor, logo, freshId, now).response.Ok?
    ensures var first := Generate(codec, editor, req.dogImageBase64, s.outfits[req.outfitId]).value;
      var plain := codec.b64encode(first);
      CreateTryon(s, req, codec, editor, logo, freshId, now).response.payload.resultImageBase64
        == (if HasLogo(logo) then AddWatermark(codec, plain, logo.value) else plain)
  {
  }

  /** Reading back the result of a successful try-on gives the image the
      try-on replied with. */
  lemma TryonReadBack(s: Store, req: TryonRequest, codec: Codec, editor: ImageEditor,
                      logo: Option<string>, freshId: set<string> -> string, now: int)
    requires FreshIds(freshId)
    requires CreateTryon(s, req, codec, editor, logo, freshId, now).response.Ok?
    ensures var r := CreateTryon(s, req, codec, editor, logo, freshId, now);
      GetTryonResult(r.store, r.response.payload.id) == Ok(ImageData(r.response.payload.resultImageBase64))
  {
  }

  /** A fetch of an unknown result raises 404 inside the `try`, which the
      broad handler turns into 500. */
  lemma UnknownResultFetchIs500(s: Store, tryonId: string)
    requires tryonId !in s.results
    ensures GetTryonResult(s, tryonId).Err?
    ensures GetTryonResult(s, tryonId).status == 500
  {
  }
}
