/** Market records as the provider sends them, the Asset records the store keeps, the
    normaliser between the two, and the outcome of the fetch thunk
    (src/features/crypto/cryptoSlice.js). Nullable provider fields are `Option`s; `None`
    stands for `null`. */
module Assets {
  import opened Common
  import Text

  /** One raw record of the provider's market listing. */
  datatype RawRecord = RawRecord(
    id: string,
    marketCapRank: int,
    name: string,
    symbol: string,
    image: string,
    currentPrice: real,
    change1h: Option<real>,
    change24h: Option<real>,
    change7d: Option<real>,
    marketCap: real,
    totalVolume: real,
    circulatingSupply: real,
    maxSupply: Option<real>,
    sparkline: Option<seq<real>>)

  /** One tracked instrument in the store's snapshot. */
  datatype Asset = Asset(
    id: string,
    rank: int,
    name: string,
    symbol: string,
    logo: string,
    price: real,
    percentChange1h: Option<real>,
    percentChange24h: Option<real>,
    percentChange7d: Option<real>,
    marketCap: real,
    volume24h: real,
    circulatingSupply: real,
    maxSupply: Option<real>,
    sparklineData: seq<real>)

  /** The record-to-asset mapping of the fulfilled reducer: fields are copied, the symbol is
      upper-cased and a missing sparkline becomes the empty sequence. */
  function Normalize(c: RawRecord): (a: Asset)
    ensures a.id == c.id && a.rank == c.marketCapRank && a.name == c.name && a.logo == c.image
    ensures a.symbol == Text.ToUpper(c.symbol)
    ensures a.price == c.currentPrice && a.marketCap == c.marketCap && a.volume24h == c.totalVolume
    ensures a.percentChange1h == c.change1h && a.percentChange24h == c.change24h
    ensures a.percentChange7d == c.change7d
    ensures a.circulatingSupply == c.circulatingSupply && a.maxSupply == c.maxSupply
    ensures a.sparklineData == c.sparkline.GetOr([])
  {
    Asset(c.id, c.marketCapRank, c.name, Text.ToUpper(c.symbol), c.image, c.currentPrice,
          c.change1h, c.change24h, c.change7d, c.marketCap, c.totalVolume,
          c.circulatingSupply, c.maxSupply, c.sparkline.GetOr([]))
  }

  /** `data.map(...)`: one asset per record, in the records' order. */
  function NormalizeAll(data: seq<RawRecord>): (assets: seq<Asset>)
    ensures |assets| == |data|
    ensures forall i :: 0 <= i < |data| ==> assets[i] == Normalize(data[i])
  {
    if data == [] then [] else [Normalize(data[0])] + NormalizeAll(data[1..])
  }

  /** The symbol the table's search compares against: lower-casing the stored (upper-cased)
      symbol gives the same text as lower-casing the provider's symbol. */
  lemma NormalizedSymbolSearch(c: RawRecord)
    ensures Text.ToLower(Normalize(c).symbol) == Text.ToLower(c.symbol)
  {
    Text.LowerOfUpper(c.symbol);
  }

  /** The text of the error the thunk throws on a non-OK HTTP status. */
  const NotOkMessage: string := "Network response was not ok"

  /** What the HTTP layer hands the thunk: a response with its status flag and the result of
      decoding its JSON body, or a transport failure with its message. */
  datatype HttpResult =
    | Response(ok: bool, body: Result<seq<RawRecord>, string>)
    | TransportError(message: string)

  /** How a dispatched fetch settles: fulfilled with the records and the requested
      pagination, or rejected with an error message. */
  datatype FetchOutcome =
    | Fulfilled(data: seq<RawRecord>, page: int, perPage: int)
    | Rejected(message: string)

  /** The page and page size a fetch asks for. */
  datatype FetchRequest = FetchRequest(page: int, perPage: int)

  /** The thunk's argument defaults: page 1 and 5 per page when not given. */
  function RequestOf(page: Option<int>, perPage: Option<int>): (r: FetchRequest)
    ensures page.None? ==> r.page == 1
    ensures perPage.None? ==> r.perPage == 5
    ensures page.Some? ==> r.page == page.value
    ensures perPage.Some? ==> r.perPage == perPage.value
  {
    FetchRequest(page.GetOr(1), perPage.GetOr(5))
  }

  /** The thunk body after the HTTP call: a non-OK status throws `NotOkMessage`, any other
      failure propagates its own message, and success carries the data with the pagination. */
  function ThunkOutcome(request: FetchRequest, response: HttpResult): (o: FetchOutcome)
    ensures o.Fulfilled? <==> response.Response? && response.ok && response.body.Success?
    ensures o.Fulfilled? ==> o.data == response.body.value && o.page == request.page
                             && o.perPage == request.perPage
    ensures response.Response? && !response.ok ==> o == Rejected(NotOkMessage)
    ensures response.TransportError? ==> o == Rejected(response.message)
    ensures response.Response? && response.ok && response.body.Failure? ==>
              o == Rejected(response.body.error)
  {
    match response
    case TransportError(m) => Rejected(m)
    case Response(ok, body) =>
      if !ok then Rejected(NotOkMessage)
      else
        match body
        case Failure(m) => Rejected(m)
        case Success(data) => Fulfilled(data, request.page, request.perPage)
  }
}
