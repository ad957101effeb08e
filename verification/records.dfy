/** The persisted records of the try-on backend (backend/server.py:46-64),
    the two document collections they live in, and the shape of an HTTP
    reply. A collection is a map from the record's `id` to the record;
    `find_one({"id": k})` becomes a map lookup. */
module Records {
  import opened Wrappers

  /** An outfit extracted from a catalog page. `createdAt` stands for the
      `datetime` the record was built at (any totally ordered clock). */
  datatype OutfitItem = OutfitItem(
    id: string,
    name: string,
    imageBase64: string,
    createdAt: int)

  /** The body of `POST /api/tryon`. */
  datatype TryonRequest = TryonRequest(
    dogImageBase64: string,
    outfitId: string,
    customerName: Option<string>)

  /** A persisted try-on result; `whatsappShared` defaults to false. */
  datatype TryonResult = TryonResult(
    id: string,
    dogImageBase64: string,
    outfitId: string,
    resultImageBase64: string,
    customerName: Option<string>,
    whatsappShared: bool,
    createdAt: int)

  /** The `outfits` and `tryon_results` collections. */
  datatype Store = Store(
    outfits: map<string, OutfitItem>,
    results: map<string, TryonResult>)

  /** Every outfit is filed under its own id. */
  predicate FiledById(outfits: map<string, OutfitItem>) {
    forall k | k in outfits :: outfits[k].id == k
  }

  /** Every try-on result is filed under its own id. */
  predicate ResultsFiledById(results: map<string, TryonResult>) {
    forall k | k in results :: results[k].id == k
  }

  /** Every record is filed under its own id. */
  predicate WellFormed(s: Store) {
    FiledById(s.outfits) && ResultsFiledById(s.results)
  }

  /** The JSON bodies the handlers return on success. */
  datatype Payload =
    | CatalogReport(message: string, outfits: nat)
    | ImageData(imageBase64: string)
    | TryonDone(id: string, resultImageBase64: string, message: string)
    | ShareLink(whatsappUrl: string, message: string)
    | ResultList(results: seq<TryonResult>)

  /** A reply: a 200 with a payload, or an `HTTPException(status, detail)`. */
  datatype Response = Ok(payload: Payload) | Err(status: nat, detail: string)

  /** What a handler leaves behind: the store after the call and the reply. */
  datatype Handled = Handled(store: Store, response: Response)

  /** A source of `uuid4` ids: never empty, never one already in use. */
  ghost predicate FreshIds(freshId: set<string> -> string) {
    forall used: set<string> :: freshId(used) != "" && freshId(used) !in used
  }
}
