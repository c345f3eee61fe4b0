/** The Grand Exchange item parser (`GrandExchangeAPI.getItemInfo` and its
    three trend sub-parsers), on the token stream of the service's answer.

    Each reader takes the tokens not yet consumed, the first of which is the
    one the next `nextToken()` returns, and hands back what it read together
    with the tokens left after it.
 */
module GrandExchangeParser {
  import opened Results
  import opened Numbers
  import opened Text
  import opened Tokens
  import opened Trends
  import Categories
  import opened TrendRecords
  import opened ItemInfos
  import opened Prices
  import GrandExchangeRequests

  /** `Trend.fromName(text).get()`: an unknown name is fatal. */
  function ReadTrend(text: string): (r: Result<Trend>)
    ensures r.Success? <==> exists t :: Trends.Name(t) == text
    ensures r.Success? ==> Trends.Name(r.value) == text
    ensures r.Failure? ==> r.error == UnknownName(text)
  {
    match FromName(text)
    case None => Failure(UnknownName(text))
    case Some(t) => Success(t)
  }

  /** `Category.fromName(text).get()`: an unknown name is fatal. */
  function ReadCategory(text: string): (r: Result<Categories.Category>)
    ensures r.Success? <==> exists c :: Categories.Name(c) == text
    ensures r.Success? ==> Categories.Name(r.value) == text
    ensures r.Failure? ==> r.error == UnknownName(text)
  {
    match Categories.FromName(text)
    case None => Failure(UnknownName(text))
    case Some(c) => Success(c)
  }

  /** The fields of a trend object read so far. */
  datatype TrendFields<V> = TrendFields(trend: Option<Trend>, value: V)

  /** The loop the three trend sub-parsers share: fields are read up to the
      end of the object; "trend" sets the trend, `valueField` sets the value
      through `readValue`, and every other field is skipped. A later field
      overwrites an earlier one of the same name. */
  function TrendObject<V>(ts: seq<Token>, valueField: string, readValue: string -> Result<V>,
                          fields: TrendFields<V>): (r: Result<(TrendFields<V>, seq<Token>)>)
    requires valueField != "trend"
    ensures r.Success? ==> ClosesObject(ts, r.value.1)
    ensures r.Success? && r.value.0.trend.None? ==> fields.trend.None?
    decreases |ts|
  {
    if |ts| == 0 then Failure(Truncated)
    else match ts[0]
      case EndObject => Success((fields, ts[1..]))
      case FieldName(name) =>
        if |ts| < 2 then Failure(Truncated)
        else
          var text := TextOf(ts[1]);
          if name == "trend" then
            var t :- ReadTrend(text);
            TrendObject(ts[2..], valueField, readValue, fields.(trend := Some(t)))
          else if name == valueField then
            var v :- readValue(text);
            TrendObject(ts[2..], valueField, readValue, fields.(value := v))
          else
            TrendObject(ts[2..], valueField, readValue, fields)
      case _ => Failure(Malformed)
  }

  /** `getPriceTrend`: trend and price, then `new PriceTrend`, which rejects
      a missing trend and a price that is not positive (a missing price
      stays 0). */
  function PriceTrendObject(ts: seq<Token>): (r: Result<(PriceTrend, seq<Token>)>)
    ensures r.Success? ==> ClosesObject(ts, r.value.1) && ValidPriceTrend(r.value.0)
  {
    var (fields, rest) :- TrendObject(ts, "price", GetPrice, TrendFields(None, 0));
    var p :- NewPriceTrend(fields.trend, fields.value);
    Success((p, rest))
  }

  /** `getPriceChangeTrend`: as `getPriceTrend`, also reading the field
      "price", but any change is accepted. */
  function PriceChangeTrendObject(ts: seq<Token>): (r: Result<(PriceChangeTrend, seq<Token>)>)
    ensures r.Success? ==> ClosesObject(ts, r.value.1)
  {
    var (fields, rest) :- TrendObject(ts, "price", GetPrice, TrendFields(None, 0));
    var c :- NewPriceChangeTrend(fields.trend, fields.value);
    Success((c, rest))
  }

  /** `getPercentChangeTrend`: trend and "change", the latter read as a
      percentage and divided by 100. */
  function PercentChangeTrendObject(ts: seq<Token>): (r: Result<(PercentChangeTrend, seq<Token>)>)
    ensures r.Success? ==> ClosesObject(ts, r.value.1)
  {
    var (fields, rest) :- TrendObject(ts, "change", ParsePercentChange, TrendFields(None, 0.0));
    var c :- NewPercentChangeTrend(fields.trend, fields.value);
    Success((c, rest))
  }

  /** The local variables of `getItemInfo` while the fields are read. */
  datatype Draft = Draft(
    id: Int32,
    name: Option<string>,
    category: Option<Categories.Category>,
    description: Option<string>,
    membersOnly: bool,
    iconUrl: Option<string>,
    largeIconUrl: Option<string>,
    typeIconUrl: Option<string>,
    current: Option<PriceTrend>,
    today: Option<PriceChangeTrend>,
    day30: Option<PercentChangeTrend>,
    day90: Option<PercentChangeTrend>,
    day180: Option<PercentChangeTrend>)

  /** The values the variables start with. */
  const EmptyDraft: Draft := Draft(0, None, None, None, false, None, None, None, None, None, None, None, None)

  /** A price trend held in a draft came from `new PriceTrend`, so it is valid. */
  predicate DraftOk(d: Draft) {
    d.current.Some? ==> ValidPriceTrend(d.current.value)
  }

  /** `getValueAsInt()` on a scalar: its text read as an `int`, and 0 when
      the text is not one. */
  function ValueAsInt(t: Token): (v: Int32)
    ensures ParseInt(TextOf(t)).Success? ==> v == ParseInt(TextOf(t)).value
    ensures ParseInt(TextOf(t)).Failure? ==> v == 0
  {
    match ParseInt(TextOf(t))
    case Success(v) => v
    case Failure(_) => 0
  }

  /** An `int` written by `Integer.toString` is read back by `getValueAsInt`. */
  lemma ValueAsIntOfInt(i: Int32)
    ensures ValueAsInt(Scalar(IntToString(i))) == i
  {
    ParseIntRoundTrip(i);
  }

  /** A text that is not a signed run of digits reads as 0. */
  lemma ValueAsIntOfNonNumber(s: string)
    requires !IsIntText(s)
    ensures ValueAsInt(Scalar(s)) == 0
  {
  }

  /** The case labels of the field switch in `getItemInfo`. */
  datatype FieldKind =
    | IconKind | LargeIconKind | IdKind | TypeKind | TypeIconKind | NameKind | DescriptionKind
    | CurrentKind | TodayKind | Day30Kind | Day90Kind | Day180Kind | MembersKind | OtherKind

  /** The label of each case. */
  function KindName(k: FieldKind): string
    requires k != OtherKind
  {
    match k
    case IconKind => "icon"
    case LargeIconKind => "icon_large"
    case IdKind => "id"
    case TypeKind => "type"
    case TypeIconKind => "typeIcon"
    case NameKind => "name"
    case DescriptionKind => "description"
    case CurrentKind => "current"
    case TodayKind => "today"
    case Day30Kind => "day30"
    case Day90Kind => "day90"
    case Day180Kind => "day180"
    case MembersKind => "members"
  }

  /** The case a field name selects; `OtherKind` is the `default` case. */
  function KindOf(name: string): (k: FieldKind)
    ensures k != OtherKind ==> KindName(k) == name
  {
    if name == "icon" then IconKind
    else if name == "icon_large" then LargeIconKind
    else if name == "id" then IdKind
    else if name == "type" then TypeKind
    else if name == "typeIcon" then TypeIconKind
    else if name == "name" then NameKind
    else if name == "description" then DescriptionKind
    else if name == "current" then CurrentKind
    else if name == "today" then TodayKind
    else if name == "day30" then Day30Kind
    else if name == "day90" then Day90Kind
    else if name == "day180" then Day180Kind
    else if name == "members" then MembersKind
    else OtherKind
  }

  /** Each label selects its own case, so no two cases share a label. */
  lemma KindOfKindName(k: FieldKind)
    requires k != OtherKind
    ensures KindOf(KindName(k)) == k
  {
    match k
    case IconKind =>
    case LargeIconKind =>
    case IdKind =>
    case TypeKind =>
    case TypeIconKind =>
    case NameKind =>
    case DescriptionKind =>
    case CurrentKind =>
    case TodayKind =>
    case Day30Kind =>
    case Day90Kind =>
    case Day180Kind =>
    case MembersKind =>
  }

  /** The fields whose value is a trend object. */
  predicate IsTrendKind(kind: FieldKind) {
    kind.CurrentKind? || kind.TodayKind? || kind.Day30Kind? || kind.Day90Kind? || kind.Day180Kind?
  }

  /** One case of the field switch in `getItemInfo`: `value` is the token
      after the field name and `rest` the tokens after that. A scalar field
      takes its value's text; a trend field hands `rest` to its sub-parser,
      which reads the object up to its end. Gives the updated variables and
      the tokens left after the field. */
  function ReadField(kind: FieldKind, value: Token, rest: seq<Token>, d: Draft): (r: Result<(Draft, seq<Token>)>)
    requires DraftOk(d)
    ensures r.Success? ==> DraftOk(r.value.0) && |r.value.1| <= |rest|
    ensures r.Failure? ==> kind == TypeKind || IsTrendKind(kind)
    ensures r.Success? && !IsTrendKind(kind) ==> r.value.1 == rest
    ensures r.Success? && IsTrendKind(kind) ==> ClosesObject(rest, r.value.1)
  {
    var text := TextOf(value);
    match kind
    case IconKind => Success((d.(iconUrl := Some(text)), rest))
    case LargeIconKind => Success((d.(largeIconUrl := Some(text)), rest))
    case IdKind => Success((d.(id := ValueAsInt(value)), rest))
    case TypeKind =>
      var c :- ReadCategory(text);
      Success((d.(category := Some(c)), rest))
    case TypeIconKind => Success((d.(typeIconUrl := Some(text)), rest))
    case NameKind => Success((d.(name := Some(text)), rest))
    case DescriptionKind => Success((d.(description := Some(text)), rest))
    case CurrentKind =>
      var (p, after) :- PriceTrendObject(rest);
      Success((d.(current := Some(p)), after))
    case TodayKind =>
      var (c, after) :- PriceChangeTrendObject(rest);
      Success((d.(today := Some(c)), after))
    case Day30Kind =>
      var (c, after) :- PercentChangeTrendObject(rest);
      Success((d.(day30 := Some(c)), after))
    case Day90Kind =>
      var (c, after) :- PercentChangeTrendObject(rest);
      Success((d.(day90 := Some(c)), after))
    case Day180Kind =>
      var (c, after) :- PercentChangeTrendObject(rest);
      Success((d.(day180 := Some(c)), after))
    case MembersKind => Success((d.(membersOnly := ParseBoolean(text)), rest))
    case OtherKind => Success((d, rest))
  }

  /** The field loop of `getItemInfo`. The current token names a field, and
      the case its name selects reads the value. Unknown fields are skipped,
      and a later field overwrites an earlier one. The loop ends where there
      is no field name: at the end of the item object or of the tokens. */
  function ItemFields(ts: seq<Token>, d: Draft): (r: Result<Draft>)
    requires DraftOk(d)
    ensures r.Success? ==> DraftOk(r.value)
    decreases |ts|
  {
    if |ts| == 0 || !ts[0].FieldName? then Success(d)
    else if |ts| < 2 then Failure(Truncated)
    else
      var (d', rest) :- ReadField(KindOf(ts[0].name), ts[1], ts[2..], d);
      ItemFields(rest, d')
  }

  /** `new GEItemInfo(...)` on the variables of a finished draft. */
  function Finish(d: Draft, isUrl: string -> bool): (r: Result<GEItemInfo>)
    requires DraftOk(d)
    ensures r.Success? ==> ValidGE(r.value, isUrl) && r.value.id == d.id
    ensures r.Success? ==> Some(r.value.name) == d.name && Some(r.value.category) == d.category
  {
    NewGEItemInfo(d.id, d.name, d.category, d.description, d.membersOnly, d.iconUrl, d.largeIconUrl,
      d.typeIconUrl, d.current, d.today, d.day30, d.day90, d.day180, isUrl)
  }

  /** The document an item's details address answers with, read into an
      item: four tokens (the outer object, its "item" field and the start of
      the item object) are passed over and the fields follow. */
  function ParseItemDocument(ts: seq<Token>, isUrl: string -> bool): (r: Result<GEItemInfo>)
    ensures r.Success? ==> ValidGE(r.value, isUrl)
  {
    var d :- ItemFields(if |ts| < 3 then [] else ts[3..], EmptyDraft);
    Finish(d, isUrl)
  }

  /** `getItemInfo(jsonFactory, itemId)`, with `fetch` standing for opening
      the address: an absent item when the service has nothing there, and
      otherwise the item its document describes. */
  function GetItemInfo(itemId: Int32, fetch: string -> Response, isUrl: string -> bool)
    : (r: Result<Option<GEItemInfo>>)
    ensures itemId < 0 ==> r == Failure(IllegalArgument(Reason("invalid itemId", itemId)))
    ensures itemId >= 0 && fetch(GrandExchangeRequests.ItemInfoUrl(itemId).value).NotFound? ==> r == Success(None)
    ensures r.Success? && r.value.Some? ==> ValidGE(r.value.value, isUrl)
  {
    var url :- GrandExchangeRequests.ItemInfoUrl(itemId);
    match fetch(url)
    case NotFound => Success(None)
    case Document(ts) =>
      var info :- ParseItemDocument(ts, isUrl);
      Success(Some(info))
  }
}
