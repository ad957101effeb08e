# Gummy Pet Spa virtual try-on backend: a Dafny model

This project models the request-handling rules of the try-on backend in
`backend/server.py`. The backend has two document collections: `outfits`, the
catalog, and `tryon_results`, the generated try-ons. The model treats each one
as a map from record id to record (`Records.Store`). A handler that writes
(`upload_catalog`, `create_tryon`, `generate_whatsapp_link`) is a pure
function that takes the store and the request and returns
`Handled(store', response)`. A read-only handler (`get_outfit_image`,
`get_tryon_result`) returns only the response. `get_all_results` is a method,
because it selects the newest results with a loop; it too returns only the
response. A response is either `Ok(payload)`, a 200 with its JSON body, or
`Err(status, detail)`, an `HTTPException`.

Everything outside the program's own logic is passed in as a parameter:

- **Codecs.** `base64` encode and decode, `Image.open` and PNG saving are the
  `Imaging.Codec` record. Decoding and opening may raise. That base64 decoding
  inverts encoding is a hypothesis (`Imaging.Base64RoundTrips`), not an
  assumption built into the record.
- **Image editor.** The remote `edit_images` call is `Tryon.ImageEditor`. It
  returns a list of images or the exception it raised.
- **PDF extraction.** `convert_from_bytes` is `Catalog.PageExtractor`.
- **Logo.** The result of `download_logo()` is an `Option<string>`.
- **Ids.** `uuid4` is a `freshId` function that never returns an id already
  in use (`Records.FreshIds`).
- **Time.** `datetime.utcnow()` is a plain integer: `now`, or `clock(i)` for
  the i-th page of a catalog.

Images are opaque. An `Imaging.Image` has a width, a height, a colour mode and
a symbolic record of the operations that produced its pixels: decode,
conversion, resampling and paste. So the model can say which logo was pasted
where without computing any pixels.

Modules follow the source's parts:

- `Wrappers`: `Option`, and `Attempt`, a call that returns or raises.
- `Decimal`: Python's `str(n)` and its inverse.
- `Records`: the records declared at lines 46-64.
- `Imaging`: the image library calls.
- `Watermark`: `add_watermark_to_image`.
- `Catalog`: `upload_catalog` and `get_outfit_image`.
- `Tryon`: `create_tryon` and `get_tryon_result`.
- `Share`: `generate_whatsapp_link`.
- `Listing`: `get_all_results`.

Where the code differs from its tests, the model follows the code:

- **Missing records give 500, not 404.** `create_tryon`, `get_tryon_result`
  and `generate_whatsapp_link` have no `except HTTPException: raise` clause.
  Their broad `except Exception` catches their own 404 and answers 500. For
  `create_tryon` the detail embeds `str(e)` of that 404. The model takes
  Starlette's `HTTPException.__str__` to render `"{status_code}: {detail}"`
  (`Tryon.ExceptionText`), which makes the detail
  `"Error generating try-on: 404: Outfit not found"`.
  `backend_test.py:109` and `backend_test.py:123` expect 404. Lemmas
  `Tryon.UnknownOutfitIs500`, `Tryon.UnknownResultFetchIs500` and
  `Share.UnknownResultShareIs500` state what the code does. `upload_catalog`
  and `get_outfit_image` re-raise, so their 400 and 404 reach the client.
- **No placeholder image.** `test_tryon_demo.py` expects a demo image when the
  editor is unavailable. That fallback belongs to another server variant;
  `server.py` has none. An empty answer, a raising editor or an undecodable
  base64 payload all answer 500 and file nothing.
- **Outfit lookup by id only.** Lookup by catalog position does not exist in
  this file.
- **Logo placement is not checked.** For images narrower than 23 px the paste
  origin is negative (`Watermark.OriginInsideIff`,
  `Watermark.NegativeOriginExample`).

## Model

| member | source | states |
|---|---|---|
| Wrappers.EndsWith | backend/server.py:124 | `str.endswith`: true exactly when the suffix fits and each of its characters matches the tail of the text |
| Decimal.NatToString | backend/server.py:151 | `{i+1}` renders as a non-empty digit string with no leading zero |
| Decimal.ParseNatToString | backend/server.py:151 | parsing the rendered digits gives the number back, so the rendering loses nothing |
| Decimal.NatToStringInjective | backend/server.py:151 | distinct numbers render differently |
| Imaging.ToRGBA | backend/server.py:89-93 | conversion yields mode RGBA with the same size, and leaves an RGBA image as it is |
| Imaging.Resize | backend/server.py:98 | resizing succeeds exactly when both target sides are at least 1, and then has the requested size and the source's mode |
| Imaging.Paste | backend/server.py:105 | pasting keeps the base image's size and mode |
| Imaging.EncodePng | backend/server.py:108-110 | when base64 decoding inverts encoding (RFC 4648), the stored text decodes back to the image's PNG bytes |
| Imaging.DecodeImage | backend/server.py:82-87 | a decoded image comes from a successful base64 decode followed by a successful open |
| Watermark.LogoWidth | backend/server.py:96 | the logo width is the floor of 15% of the image width: `100*w <= 15*W < 100*w + 100` |
| Watermark.LogoHeight | backend/server.py:97 | the logo height keeps the logo's aspect ratio, rounded down |
| Watermark.PlaceLogo | backend/server.py:95-102 | fails exactly for a logo of width 0; otherwise the logo's right and bottom edges sit exactly 20 px inside the image |
| Watermark.Compose | backend/server.py:80-105 | a composed image is RGBA and has the decoded input's width and height |
| Watermark.AddWatermark | backend/server.py:78-113 | the output is the input text itself, or the PNG encoding of an RGBA image of the input's size |
| Watermark.AddWatermarkSpec | backend/server.py:78-113 | any fault returns the input byte for byte; otherwise the output is the PNG of the RGBA image with the RGBA logo scaled to 15% width, pasted at `(W - lw - 20, H - lh - 20)` |
| Watermark.NarrowImageUnchanged | backend/server.py:96-98 | images narrower than 7 px are returned unchanged, because the logo width is 0 and the resize fails |
| Watermark.OriginInsideIff | backend/server.py:100-105 | the paste origin is non-negative exactly when the image is at least 23 px wide |
| Watermark.NegativeOriginExample | backend/server.py:100-105 | a 10x10 image with a square logo composes without fault, with the 1x1 logo pasted at (-11, -11) |
| Catalog.PageName | backend/server.py:151 | the name starts with "Outfit " and ends with " - " and the file name, and the text between is the page's 1-based number in decimal with no leading zero |
| Catalog.ReportMessage | backend/server.py:159 | the report reads "Successfully extracted ", the count, " outfits from catalog", and the middle is the count in decimal with no leading zero |
| Catalog.ReportMessageInjective | backend/server.py:159 | different counts give different report messages |
| Catalog.PageOutfit | backend/server.py:150-153 | the outfit built for page i has a new, non-empty id, the page's name, the page's PNG and the time stamp `clock(i)` |
| Catalog.PageNamesDistinct | backend/server.py:150-153 | two pages of one file never get the same outfit name |
| Catalog.IngestFrom | backend/server.py:142-157 | the page loop builds one outfit per page, in page order, with its name, PNG image and time stamp; ids are new and distinct; earlier outfits are kept |
| Catalog.UploadCatalog | backend/server.py:120-164 | results are untouched; on error nothing changes; on success the reply reports n pages in both count and message, and exactly n outfits are added to the untouched old ones |
| Catalog.StorePages | backend/server.py:142-159 | the success path adds exactly one outfit per page and reports the page count |
| Catalog.UploadCatalogChecks | backend/server.py:124-140 | the checks run in order (suffix `.pdf`, size 0, empty content, extraction fault, no pages) with the source's statuses and details; success happens exactly when all pass |
| Catalog.UploadedPagesBecomeOutfits | backend/server.py:143-156 | page i of an accepted catalog is a new outfit named "Outfit {i+1} - {filename}", holding that page as PNG and stamped `clock(i)` |
| Catalog.UploadedOutfitImage | backend/server.py:176-192 | after an accepted upload, fetching page i's new outfit by its id returns that page's PNG |
| Catalog.GetOutfitImage | backend/server.py:176-192 | an empty id gives 400, an unknown id gives 404, otherwise the stored image is returned |
| Tryon.ExceptionText | backend/server.py:252-254 | `str(e)` of an `HTTPException`, as Starlette renders it: ends with ": " and the detail, and the text before is the status code in decimal with no leading zero |
| Tryon.HasLogo | backend/server.py:232-233 | `if logo_base64:` is false exactly for `None` and the empty text |
| Tryon.EditFor | backend/server.py:217-223 | the editor gets the dog image first and the outfit image second, the fixed prompt, model "gpt-image-1", size "1024x1536" and quality "high" |
| Tryon.Generate | backend/server.py:203-226 | generation yields the editor's first image only when both images decoded and the editor returned at least one image |
| Tryon.CreateTryon | backend/server.py:194-254 | every failure is a 500 that files nothing; a success files exactly one new record with the request's dog image, outfit id and customer name, `whatsapp_shared = false`, and the id and image of the reply; outfits never change |
| Tryon.GetTryonResult | backend/server.py:256-267 | a stored id gives its result image; any other id gives 500 |
| Tryon.CreateTryonOkIff | backend/server.py:197-229 | a try-on succeeds exactly when the outfit exists, both images decode and the editor returns at least one image |
| Tryon.UnknownOutfitIs500 | backend/server.py:197-254 | an unknown outfit answers 500 "Error generating try-on: 404: Outfit not found", files nothing, and does not depend on the editor or the logo |
| Tryon.TryonImage | backend/server.py:228-234 | the result image is the editor's first image, base64-encoded, and is watermarked exactly when a non-empty logo was downloaded |
| Tryon.TryonReadBack | backend/server.py:244-264 | fetching a new result by its id returns the image the try-on replied with |
| Tryon.UnknownResultFetchIs500 | backend/server.py:259-267 | fetching an unknown result answers 500 |
| Share.OutfitName | backend/server.py:278-279 | the outfit's name, or "Outfit" when the outfit no longer exists |
| Share.ShareMessage | backend/server.py:282 | the outfit name can be read back out of the share text, so the text carries the name unchanged |
| Share.ShareUrl | backend/server.py:284-288 | the link starts with `https://wa.me/` and the share text can be read back out of it, unencoded |
| Share.NameInMessage | backend/server.py:282 | a name recovered from a text is framed by the fixed head and tail and so rebuilds that text |
| Share.MessageInUrl | backend/server.py:288 | a text recovered from a link follows the fixed link head and so rebuilds that link |
| Share.GenerateWhatsappLink | backend/server.py:269-300 | an unknown id answers 500 and changes nothing; otherwise only that result's `whatsapp_shared` becomes true, and every other field and record is unchanged |
| Share.ShareLinkContents | backend/server.py:277-296 | the reply's link starts with `https://wa.me/`, carries the reply's message, and the message names the outfit or "Outfit" |
| Share.ShareIdempotent | backend/server.py:290-296 | a second share call gives the same reply and leaves the store as the first left it |
| Share.UnknownResultShareIs500 | backend/server.py:272-300 | an unknown result id answers 500 "Error generating WhatsApp link" |
| Listing.Newest | backend/server.py:306 | picks a result no older than any other candidate |
| Listing.AllResults | backend/server.py:302-310 | replies 200 with a list of results; it lists min(n, 1000) stored results, each once, newest first, and none left out is newer than a listed one |

## Left out

- The frontend and the test scripts are not modelled: they are the user interface and HTTP clients of this server.
- `root` and `get_outfits`: a constant message, and the collection's natural order, which the map model does not have.
- Storage faults: a failing `find_one`, `insert_one` or `update_one` would answer 500. A fault in the middle of the page loop would leave the earlier pages inserted. Database calls always succeed in the model.
- Pixel work: decoding, Lanczos resampling, alpha compositing, PNG encoding and PDF rasterisation. They are symbolic in `Imaging.Pixels`.
- Exception texts: the text of an exception raised by a library or by the editor (`str(e)`) is whatever the oracle supplies.
- Imaging.Resize: the failure condition (a side below one pixel) is the imaging library's own rule for `resize`, not something the backend checks.
- Watermark.LogoWidth: the source computes `int(W * 0.15)` in double precision. This equals `(15*W) div 100` for every width below 2^50, because the rounding error is far smaller than the 0.05 gap to the next integer.
- Watermark.LogoHeight: the source computes `int(h * (lw / w))` in double precision. It can be one less than the exact floor `(h*lw) div w` when the product lands just below an integer.
- `download_logo`: the remote fetch is a parameter. Its text decides whether the watermark step runs at all. When it runs, the decoded logo sets the logo's height and decides whether the step faults.
- Time stamps and ids: `datetime.utcnow()` and `uuid4()` are parameters. Ids are assumed never to collide with an id in use.
- Listing.AllResults: results with equal `created_at` come in an arbitrary order. The model does not say which order the database picks.
- Async execution, CORS middleware and `.env` loading: infrastructure with no effect on a single request's outcome.
