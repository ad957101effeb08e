/** `upload_catalog` and `get_outfit_image`: catalog ingestion turns every
    page of an uploaded PDF into an outfit named after its position and
    the file; the image lookup answers 400, 404 or the stored image. Both
    handlers let their own `HTTPException`s through unchanged. */
module Catalog {
  import opened Wrappers
  import opened Decimal
  import opened Imaging
  import opened Records

  /** The uploaded file: its name, the size the multipart parser reported
      (possibly unknown), and the bytes `await file.read()` yields. */
  datatype Upload = Upload(filename: string, size: Option<nat>, content: Bytes)

  /** `convert_from_bytes(content, dpi=200)`: the pages of a PDF as images. */
  type PageExtractor = Bytes -> Attempt<seq<Image>>

  const PdfSuffix := ".pdf"
  const CatalogFault := "Internal server error processing catalog"

  /** `f"Outfit {i+1} - {filename}"` for the page at index `i`: the page's
      1-based number in decimal between "Outfit " and " - " plus the file
      name. */
  function PageName(i: nat, filename: string): (name: string)
    ensures 10 + |filename| < |name|
    ensures StartsWith(name, "Outfit ") && EndsWith(name, " - " + filename)
    ensures var number := name[7..|name| - |filename| - 3];
      AllDigits(number) && ParseDigits(number) == i + 1 && (|number| > 1 ==> number[0] != '0')
  {
    var number := NatToString(i + 1);
    ParseNatToString(i + 1);
    var name := "Outfit " + number + " - " + filename;
    assert name[7..|name| - |filename| - 3] == number;
    name
  }

  /** Two pages of one file never get the same name. */
  lemma PageNamesDistinct(i: nat, j: nat, filename: string)
    requires i != j
    ensures PageName(i, filename) != PageName(j, filename)
  {
  }

  const ReportHead := "Successfully extracted "
  const ReportTail := " outfits from catalog"

  /** `f"Successfully extracted {n} outfits from catalog"`: the count in
      decimal between the two fixed phrases. */
  function ReportMessage(n: nat): (message: string)
    ensures |ReportHead| + |ReportTail| < |message|
    ensures StartsWith(message, ReportHead) && EndsWith(message, ReportTail)
    ensures var number := message[|ReportHead|..|message| - |ReportTail|];
      AllDigits(number) && ParseDigits(number) == n && (|number| > 1 ==> number[0] != '0')
  {
    var number := NatToString(n);
    ParseNatToString(n);
    var message := ReportHead + number + ReportTail;
    assert message[|ReportHead|..|message| - |ReportTail|] == number;
    message
  }

  /** The report names the count unambiguously: different counts give
      different messages. */
  lemma ReportMessageInjective(a: nat, b: nat)
    requires ReportMessage(a) == ReportMessage(b)
    ensures a == b
  {
  }

  /** The outfit the loop body builds for page `i`. */
  function PageOutfit(codec: Codec, freshId: set<string> -> string, clock: nat -> int,
                      outfits: map<string, OutfitItem>, pages: seq<Image>, i: nat, filename: string): (item: OutfitItem)
    requires FreshIds(freshId)
    requires i < |pages|
    ensures item.id != "" && item.id !in outfits
    ensures BuiltFor(codec, clock, item, pages, i, filename)
  {
    OutfitItem(freshId(outfits.Keys), PageName(i, filename), EncodePng(codec, pages[i]), clock(i))
  }

  /** `item` is the outfit built for page `i`: its name, its image and its
      time stamp. */
  predicate BuiltFor(codec: Codec, clock: nat -> int, item: OutfitItem, pages: seq<Image>, i: nat, filename: string)
    requires i < |pages|
  {
    && item.name == PageName(i, filename)
    && item.imageBase64 == EncodePng(codec, pages[i])
    && item.createdAt == clock(i)
  }

  /** `added` holds one outfit for each page from `i` on, in page order. */
  predicate PagesBuilt(codec: Codec, clock: nat -> int, pages: seq<Image>, i: nat, filename: string,
                       added: seq<OutfitItem>)
    requires i <= |pages|
  {
    && |added| == |pages| - i
    && forall j | 0 <= j < |added| :: BuiltFor(codec, clock, added[j], pages, i + j, filename)
  }

  /** The outfits of `added` have non-empty ids that are new to `before`
      and distinct. */
  predicate FreshAndDistinct(before: map<string, OutfitItem>, added: seq<OutfitItem>) {
    && (forall j | 0 <= j < |added| :: added[j].id != "" && added[j].id !in before)
    && (forall j, k | 0 <= j < k < |added| :: added[j].id != added[k].id)
  }

  /** `after` is `before` with the outfits of `added` filed under their ids
      and nothing else: every old entry is kept, every new one is present,
      and the size grew by exactly the number of new outfits. */
  predicate FiledIn(before: map<string, OutfitItem>, after: map<string, OutfitItem>, added: seq<OutfitItem>) {
    && (forall key | key in before :: key in after && after[key] == before[key])
    && (forall j | 0 <= j < |added| :: added[j].id in after && after[added[j].id] == added[j])
    && |after| == |before| + |added|
    && (FiledById(before) ==> FiledById(after))
  }

  /** The `for i, image in enumerate(images)` loop from page `i` on:
      one fresh outfit per page, inserted in page order. Returns the
      collection afterwards and the outfits built, in page order. */
  function IngestFrom(codec: Codec, freshId: set<string> -> string, clock: nat -> int,
                      outfits: map<string, OutfitItem>, pages: seq<Image>, i: nat,
                      filename: string): (r: (map<string, OutfitItem>, seq<OutfitItem>))
    requires FreshIds(freshId)
    requires i <= |pages|
    ensures PagesBuilt(codec, clock, pages, i, filename, r.1)
    ensures FreshAndDistinct(outfits, r.1)
    ensures FiledIn(outfits, r.0, r.1)
    decreases |pages| - i
  {
    if i == |pages| then (outfits, [])
    else
      var item := PageOutfit(codec, freshId, clock, outfits, pages, i, filename);
      var rest := IngestFrom(codec, freshId, clock, outfits[item.id := item], pages, i + 1, filename);
      BuiltCons(codec, clock, pages, i, filename, item, rest.1);
      FreshCons(outfits, item, rest.1);
      FiledCons(outfits, item, rest.0, rest.1);
      (rest.0, [item] + rest.1)
  }

  /** Page `i`'s outfit in front of those for the later pages covers the
      pages from `i` on. */
  lemma BuiltCons(codec: Codec, clock: nat -> int, pages: seq<Image>, i: nat, filename: string,
                  item: OutfitItem, rest: seq<OutfitItem>)
    requires i < |pages|
    requires BuiltFor(codec, clock, item, pages, i, filename)
    requires PagesBuilt(codec, clock, pages, i + 1, filename, rest)
    ensures PagesBuilt(codec, clock, pages, i, filename, [item] + rest)
  {
  }

  /** An outfit with an id new to `before`, in front of outfits whose ids
      are new even once it is filed: all ids are new and distinct. */
  lemma FreshCons(before: map<string, OutfitItem>, item: OutfitItem, rest: seq<OutfitItem>)
    requires item.id != "" && item.id !in before
    requires FreshAndDistinct(before[item.id := item], rest)
    ensures FreshAndDistinct(before, [item] + rest)
  {
  }

  /** Filing an outfit under a new id and then the rest files them all. */
  lemma FiledCons(before: map<string, OutfitItem>, item: OutfitItem,
                  after: map<string, OutfitItem>, rest: seq<OutfitItem>)
    requires item.id !in before
    requires FiledIn(before[item.id := item], after, rest)
    ensures FiledIn(before, after, [item] + rest)
  {
  }

  /** `upload_catalog(file)`: the validation chain (suffix, reported size,
      content, page count), each step answering 400; a fault while
      rasterising answers 500; otherwise one outfit per page. */
  function UploadCatalog(s: Store, u: Upload, codec: Codec, extract: PageExtractor,
                         freshId: set<string> -> string, clock: nat -> int): (r: Handled)
    requires FreshIds(freshId)
    ensures WellFormed(s) ==> WellFormed(r.store)
    ensures r.store.results == s.results
    ensures r.response.Err? ==> r.store == s
    ensures r.response.Ok? ==>
      && extract(u.content).Returned?
      && var n := |extract(u.content).value|;
      && r.response.payload == CatalogReport(ReportMessage(n), n)
      && |r.store.outfits| == |s.outfits| + n
      && (forall key | key in s.outfits :: key in r.store.outfits && r.store.outfits[key] == s.outfits[key])
  {
    if !EndsWith(u.filename, PdfSuffix) then Handled(s, Err(400, "Only PDF files are allowed"))
    else if u.size == Some(0) then Handled(s, Err(400, "File is empty"))
    else if |u.content| == 0 then Handled(s, Err(400, "PDF file is empty"))
    else match extract(u.content)
      case Raised(_) => Handled(s, Err(500, CatalogFault))
      case Returned(pages) =>
        if |pages| == 0 then Handled(s, Err(400, "No images found in PDF"))
        else StorePages(s, pages, u.filename, codec, freshId, clock)
  }

  /** The success path of `upload_catalog`: every page becomes an outfit
      and the reply reports how many. */
  function StorePages(s: Store, pages: seq<Image>, filename: string, codec: Codec,
                      freshId: set<string> -> string, clock: nat -> int): (r: Handled)
    requires FreshIds(freshId)
    ensures WellFormed(s) ==> WellFormed(r.store)
    ensures r.store.results == s.results
    ensures r.response == Ok(CatalogReport(ReportMessage(|pages|), |pages|))
    ensures |r.store.outfits| == |s.outfits| + |pages|
    ensures forall key | key in s.outfits :: key in r.store.outfits && r.store.outfits[key] == s.outfits[key]
  {
    var ingested := IngestFrom(codec, freshId, clock, s.outfits, pages, 0, filename);
    Handled(Store(ingested.0, s.results), Ok(CatalogReport(ReportMessage(|pages|), |pages|)))
  }

  /** The failure chain of `upload_catalog`, in the order the checks run;
      every validation failure is a 400 and leaves the store alone. */
  lemma UploadCatalogChecks(s: Store, u: Upload, codec: Codec, extract: PageExtractor,
                            freshId: set<string> -> string, clock: nat -> int)
    requires FreshIds(freshId)
    ensures var r := UploadCatalog(s, u, codec, extract, freshId, clock);
      && (!EndsWith(u.filename, ".pdf") ==> r == Handled(s, Err(400, "Only PDF files are allowed")))
      && (EndsWith(u.filename, ".pdf") && u.size == Some(0) ==>
            r == Handled(s, Err(400, "File is empty")))
      && (EndsWith(u.filename, ".pdf") && u.size != Some(0) && |u.content| == 0 ==>
            r == Handled(s, Err(400, "PDF file is empty")))
      && (EndsWith(u.filename, ".pdf") && u.size != Some(0) && |u.content| > 0 &&
          extract(u.content).Raised? ==>
            r == Handled(s, Err(500, "Internal server error processing catalog")))
      && (EndsWith(u.filename, ".pdf") && u.size != Some(0) && |u.content| > 0 &&
          extract(u.content) == Returned([]) ==>
            r == Handled(s, Err(400, "No images found in PDF")))
      && (r.response.Ok? <==>
            && EndsWith(u.filename, ".pdf") && u.size != Some(0) && |u.content| > 0
            && extract(u.content).Returned? && |extract(u.content).value| > 0)
  {
  }

  /** Page `i` of an accepted catalog becomes a new outfit named
      "Outfit {i+1} - {filename}", holding that page as PNG, stamped
      `clock(i)`. */
  lemma UploadedPagesBecomeOutfits(s: Store, u: Upload, codec: Codec, extract: PageExtractor,
                                   freshId: set<string> -> string, clock: nat -> int, i: nat)
    requires FreshIds(freshId)
    requires EndsWith(u.filename, ".pdf") && u.size != Some(0) && |u.content| > 0
    requires extract(u.content).Returned?
    requires i < |extract(u.content).value|
    ensures var r := UploadCatalog(s, u, codec, extract, freshId, clock);
      exists key | key in r.store.outfits && key !in s.outfits ::
        && key != ""
        && r.store.outfits[key] == OutfitItem(key, PageName(i, u.filename),
                                              EncodePng(codec, extract(u.content).value[i]), clock(i))
  {
    var pages := extract(u.content).value;
    var ingested := IngestFrom(codec, freshId, clock, s.outfits, pages, 0, u.filename);
    var r := UploadCatalog(s, u, codec, extract, freshId, clock);
    assert r.store.outfits == ingested.0;
    var item := ingested.1[i];
    assert BuiltFor(codec, clock, item, pages, 0 + i, u.filename);
    assert item.id in r.store.outfits && item.id !in s.outfits && item.id != "";
  }

  /** After an accepted upload, fetching the image of page `i`'s new outfit
      by its id returns that page as PNG. */
  lemma UploadedOutfitImage(s: Store, u: Upload, codec: Codec, extract: PageExtractor,
                            freshId: set<string> -> string, clock: nat -> int, i: nat)
    requires FreshIds(freshId)
    requires EndsWith(u.filename, ".pdf") && u.size != Some(0) && |u.content| > 0
    requires extract(u.content).Returned?
    requires i < |extract(u.content).value|
    ensures var r := UploadCatalog(s, u, codec, extract, freshId, clock);
      exists key | key in r.store.outfits && key !in s.outfits ::
        GetOutfitImage(r.store, key) == Ok(ImageData(EncodePng(codec, extract(u.content).value[i])))
  {
    UploadedPagesBecomeOutfits(s, u, codec, extract, freshId, clock, i);
  }

  /** `get_outfit_image(outfit_id)`: 400 for an empty id, 404 for an
      unknown one, else the stored image. */
  function GetOutfitImage(s: Store, outfitId: string): (r: Response)
    ensures r.Ok? <==> outfitId != "" && outfitId in s.outfits
    ensures r.Ok? ==> r.payload == ImageData(s.outfits[outfitId].imageBase64)
    ensures outfitId == "" ==> r == Err(400, "Outfit ID is required")
    ensures outfitId != "" && outfitId !in s.outfits ==> r == Err(404, "Outfit not found")
  {
    if outfitId == "" then Err(400, "Outfit ID is required")
    else if outfitId !in s.outfits then Err(404, "Outfit not found")
    else Ok(ImageData(s.outfits[outfitId].imageBase64))
  }
}
