/** The row formatters' decisions (src/Components/CryptoRow.jsx): which magnitude bracket
    and suffix a number gets, when "N/A" is shown, the price's fraction digits, and the arrow
    of a percent change. The rendering of digits (`toFixed(2)`) is a parameter. */
module CryptoRow {
  import opened Common
  import opened Assets

  /** A magnitude bracket and the suffix that names it. */
  datatype Bracket = Trillions | Billions | Millions | Thousands | Units {
    function Suffix(): string {
      match this
      case Trillions => "T"
      case Billions => "B"
      case Millions => "M"
      case Thousands => "K"
      case Units => ""
    }

    function Scale(): (f: real)
      ensures f >= 1.0
    {
      match this
      case Trillions => 1000000000000.0
      case Billions => 1000000000.0
      case Millions => 1000000.0
      case Thousands => 1000.0
      case Units => 1.0
    }

    /** Brackets from the smallest (0) to the largest (4). */
    function Level(): nat {
      match this
      case Units => 0
      case Thousands => 1
      case Millions => 2
      case Billions => 3
      case Trillions => 4
    }
  }

  /** A scaled amount: the number divided by the bracket's scale. */
  datatype Scaled = Scaled(value: real, bracket: Bracket)

  /** The bracket choice of `formatLargeNumber`: the first threshold the number reaches. */
  function LargeNumber(num: real): (r: Scaled)
    ensures r.value * r.bracket.Scale() == num
    ensures r.bracket == Trillions <==> num >= 1000000000000.0
    ensures r.bracket == Billions <==> 1000000000.0 <= num < 1000000000000.0
    ensures r.bracket == Millions <==> 1000000.0 <= num < 1000000000.0
    ensures r.bracket == Thousands <==> 1000.0 <= num < 1000000.0
    ensures r.bracket == Units <==> num < 1000.0
  {
    if num >= 1000000000000.0 then Scaled(num / 1000000000000.0, Trillions)
    else if num >= 1000000000.0 then Scaled(num / 1000000000.0, Billions)
    else if num >= 1000000.0 then Scaled(num / 1000000.0, Millions)
    else if num >= 1000.0 then Scaled(num / 1000.0, Thousands)
    else Scaled(num, Units)
  }

  /** A scaled amount of at least a thousand reads between 1 and 1000 before its suffix,
      except that trillions are not capped. */
  lemma LargeNumberScaledRange(num: real)
    requires num >= 1000.0
    ensures 1.0 <= LargeNumber(num).value
    ensures LargeNumber(num).bracket != Trillions ==> LargeNumber(num).value < 1000.0
  {
  }

  /** A larger number never gets a smaller bracket. */
  lemma LargeNumberMonotone(x: real, y: real)
    requires x <= y
    ensures LargeNumber(x).bracket.Level() <= LargeNumber(y).bracket.Level()
  {
  }

  /** `formatLargeNumber` with the digits rendered by `fixed2`: "$", digits, suffix. */
  function FormatLargeNumber(num: real, fixed2: real -> string): (text: string)
    ensures |text| >= 1 && text[0] == '$'
    ensures text == "$" + fixed2(LargeNumber(num).value) + LargeNumber(num).bracket.Suffix()
  {
    var s := LargeNumber(num);
    "$" + fixed2(s.value) + s.bracket.Suffix()
  }

  /** JavaScript truthiness of a nullable number: `null` and 0 are falsy. */
  predicate Truthy(x: Option<real>) {
    x.Some? && x.value != 0.0
  }

  /** What `formatSupply` shows: "N/A", or an amount in a bracket with the symbol. */
  datatype SupplyText = NotAvailable | Amount(scaled: Scaled, symbol: string)

  /** The decisions of `formatSupply`: "N/A" for a falsy supply, otherwise the billions,
      millions or thousands bracket (no trillions), followed by the symbol. */
  function Supply(supply: Option<real>, symbol: string): (r: SupplyText)
    ensures r.NotAvailable? <==> !Truthy(supply)
    ensures r.Amount? ==> r.symbol == symbol && r.scaled.bracket != Trillions
    ensures r.Amount? ==> r.scaled.value * r.scaled.bracket.Scale() == supply.value
    ensures r.Amount? ==> (r.scaled.bracket == Billions <==> supply.value >= 1000000000.0)
    ensures r.Amount? ==> (r.scaled.bracket == Units <==> supply.value < 1000.0)
  {
    if !Truthy(supply) then NotAvailable
    else
      var n := supply.value;
      if n >= 1000000000.0 then Amount(Scaled(n / 1000000000.0, Billions), symbol)
      else if n >= 1000000.0 then Amount(Scaled(n / 1000000.0, Millions), symbol)
      else if n >= 1000.0 then Amount(Scaled(n / 1000.0, Thousands), symbol)
      else Amount(Scaled(n, Units), symbol)
  }

  /** Below a billion, the supply brackets agree with the market-value brackets. */
  lemma SupplyMatchesLargeNumber(n: real, symbol: string)
    requires n != 0.0 && n < 1000000000.0
    ensures Supply(Some(n), symbol) == Amount(LargeNumber(n), symbol)
  {
  }

  /** `formatSupply` with the digits rendered by `fixed2`. */
  function FormatSupply(supply: Option<real>, symbol: string, fixed2: real -> string): (text: string)
    ensures !Truthy(supply) ==> text == "N/A"
    ensures Truthy(supply) ==> |text| > |symbol| && text[|text| - |symbol| - 1..] == " " + symbol
    ensures Truthy(supply) ==>
              var s := Supply(supply, symbol).scaled;
              text == fixed2(s.value) + s.bracket.Suffix() + " " + symbol
  {
    match Supply(supply, symbol)
    case NotAvailable => "N/A"
    case Amount(s, sym) =>
      var text := fixed2(s.value) + s.bracket.Suffix() + " " + sym;
      assert text == (fixed2(s.value) + s.bracket.Suffix()) + (" " + sym);
      text
  }

  /** The max-supply line appears only for a truthy maximum supply. */
  function ShowsMaxSupply(asset: Asset): (shown: bool)
    ensures shown <==> asset.maxSupply.Some? && asset.maxSupply.value != 0.0
  {
    Truthy(asset.maxSupply)
  }

  /** `formatPrice`'s fraction digits: four to six below one dollar, exactly two otherwise. */
  function PriceFractionDigits(price: real): (digits: (nat, nat))
    ensures price < 1.0 ==> digits == (4, 6)
    ensures price >= 1.0 ==> digits == (2, 2)
    ensures digits.0 <= digits.1
  {
    if price < 1.0 then (4, 6) else (2, 2)
  }

  /** A rendered percent change: "N/A", or an arrow, a colour and a magnitude. */
  datatype PercentText = NoChange | Change(up: bool, arrow: string, color: string, magnitude: real)

  /** `renderPercentChange`. */
  function RenderPercentChange(value: Option<real>): (r: PercentText)
    ensures r.NoChange? <==> value.None?
    ensures r.Change? ==> r.magnitude >= 0.0
    ensures r.Change? ==> (r.up <==> value.value >= 0.0)
    ensures r.Change? ==> (r.arrow == "▲" <==> r.up) && (r.color == "text-green-500" <==> r.up)
    ensures r.Change? && !r.up ==> r.arrow == "▼" && r.color == "text-red-500"
  {
    match value
    case None => NoChange
    case Some(v) =>
      var up := v >= 0.0;
      Change(up, if up then "▲" else "▼", if up then "text-green-500" else "text-red-500",
             if v < 0.0 then -v else v)
  }

  /** The arrow and the magnitude together give back the value exactly. */
  lemma PercentChangeRecoversValue(v: real)
    ensures var r := RenderPercentChange(Some(v));
            (if r.up then r.magnitude else -r.magnitude) == v
  {
  }

  /** `isFavorite`: the row is starred exactly when its id is in the favorites list. */
  function IsFavorite(favorites: seq<string>, asset: Asset): (starred: bool)
    ensures starred <==> exists i :: 0 <= i < |favorites| && favorites[i] == asset.id
  {
    asset.id in favorites
  }
}
