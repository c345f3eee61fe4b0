/** The item records: the `ItemInfo` interface (`item/ItemInfo.java`), its
    plain implementation `DefaultItemInfo` (`item/DefaultItemInfo.java`),
    filled from the catalogue search service, and `GEItemInfo`
    (`item/GEItemInfo.java`), filled from the Grand Exchange item service.
 */
module ItemInfos {
  import opened Results
  import opened Numbers
  import opened Categories
  import opened TrendRecords

  /** `DefaultItemInfo`. */
  datatype DefaultItemInfo = DefaultItemInfo(id: Int32, name: string, price: Int32, description: string)

  /** `GEItemInfo`. The three addresses are kept as the text they were
      built from; `new URL` only checks that text. */
  datatype GEItemInfo = GEItemInfo(
    id: Int32,
    name: string,
    category: Category,
    description: string,
    membersOnly: bool,
    iconUrl: string,
    largeIconUrl: string,
    typeIconUrl: string,
    currentPriceTrend: PriceTrend,
    todaysChangeTrend: PriceChangeTrend,
    day30ChangeTrend: PercentChangeTrend,
    day90ChangeTrend: PercentChangeTrend,
    day180ChangeTrend: PercentChangeTrend)

  /** What the `DefaultItemInfo` constructor guarantees of every instance. */
  predicate ValidDefault(i: DefaultItemInfo) {
    i.id >= 0 && |i.name| > 0 && i.price > 0 && |i.description| > 0
  }

  /** What the `GEItemInfo` constructor guarantees of every instance, given
      the test `isUrl` that `new URL` applies to an address. The price trend
      is valid because every `PriceTrend` instance is. */
  predicate ValidGE(i: GEItemInfo, isUrl: string -> bool) {
    && i.id >= 0 && |i.name| > 0 && |i.description| > 0
    && |i.iconUrl| > 0 && |i.largeIconUrl| > 0 && |i.typeIconUrl| > 0
    && isUrl(i.iconUrl) && isUrl(i.largeIconUrl) && isUrl(i.typeIconUrl)
    && ValidPriceTrend(i.currentPriceTrend)
  }

  /** `new DefaultItemInfo(id, name, price, description)`: the checks run in
      the order id, name, price, description, and the first that fails
      decides the exception. */
  function NewDefaultItemInfo(id: Int32, name: Option<string>, price: Int32, description: Option<string>)
    : (r: Result<DefaultItemInfo>)
    ensures r.Success? <==> id >= 0 && name.Some? && |name.value| > 0 && price > 0
                            && description.Some? && |description.value| > 0
    ensures r.Success? ==> r.value == DefaultItemInfo(id, name.value, price, description.value) && ValidDefault(r.value)
    ensures id < 0 ==> r == Failure(IllegalArgument(Reason("invalid id", id)))
    ensures id >= 0 && name.None? ==> r == Failure(NullValue("name null"))
    ensures id >= 0 && name == Some("") ==> r == Failure(IllegalArgument("name empty"))
    ensures id >= 0 && name.Some? && |name.value| > 0 && price <= 0
            ==> r == Failure(IllegalArgument(Reason("invalid price", price)))
    ensures id >= 0 && name.Some? && |name.value| > 0 && price > 0 && description.None?
            ==> r == Failure(NullValue("description null"))
    ensures id >= 0 && name.Some? && |name.value| > 0 && price > 0 && description == Some("")
            ==> r == Failure(IllegalArgument("description empty"))
  {
    if id < 0 then Failure(IllegalArgument(Reason("invalid id", id)))
    else if name.None? then Failure(NullValue("name null"))
    else if |name.value| == 0 then Failure(IllegalArgument("name empty"))
    else if price <= 0 then Failure(IllegalArgument(Reason("invalid price", price)))
    else if description.None? then Failure(NullValue("description null"))
    else if |description.value| == 0 then Failure(IllegalArgument("description empty"))
    else Success(DefaultItemInfo(id, name.value, price, description.value))
  }

  /** A text that must be present and non-empty: `checkNotNull` followed by
      `checkArgument(!s.isEmpty())`, with the messages the source uses. */
  function RequireText(s: Option<string>, nullMessage: string, emptyMessage: string): (r: Result<string>)
    ensures r.Success? <==> s.Some? && |s.value| > 0
    ensures r.Success? ==> r.value == s.value
    ensures s.None? ==> r == Failure(NullValue(nullMessage))
    ensures s == Some("") ==> r == Failure(IllegalArgument(emptyMessage))
  {
    if s.None? then Failure(NullValue(nullMessage))
    else if |s.value| == 0 then Failure(IllegalArgument(emptyMessage))
    else Success(s.value)
  }

  /** A reference that must be present: `checkNotNull`. */
  function Require<T>(x: Option<T>, nullMessage: string): (r: Result<T>)
    ensures r.Success? <==> x.Some?
    ensures r.Success? ==> r.value == x.value
    ensures x.None? ==> r == Failure(NullValue(nullMessage))
  {
    if x.None? then Failure(NullValue(nullMessage)) else Success(x.value)
  }

  /** `new URL(s)`, with the address test supplied by the caller. */
  function ParseUrl(s: string, isUrl: string -> bool): (r: Result<string>)
    ensures r.Success? <==> isUrl(s)
    ensures r.Success? ==> r.value == s
    ensures r.Failure? ==> r.error == MalformedUrl(s)
  {
    if isUrl(s) then Success(s) else Failure(MalformedUrl(s))
  }

  /** The texts and the category given to `new GEItemInfo` are present, and
      the texts are not empty. */
  predicate GETextsPass(name: Option<string>, category: Option<Category>, description: Option<string>,
                        iconUrl: Option<string>, largeIconUrl: Option<string>, typeIconUrl: Option<string>) {
    && name.Some? && |name.value| > 0 && category.Some?
    && description.Some? && |description.value| > 0
    && iconUrl.Some? && |iconUrl.value| > 0 && largeIconUrl.Some? && |largeIconUrl.value| > 0
    && typeIconUrl.Some? && |typeIconUrl.value| > 0
  }

  /** The five trends given to `new GEItemInfo` are present. */
  predicate GETrendsPresent(currentPriceTrend: Option<PriceTrend>, todaysChangeTrend: Option<PriceChangeTrend>,
                            day30ChangeTrend: Option<PercentChangeTrend>, day90ChangeTrend: Option<PercentChangeTrend>,
                            day180ChangeTrend: Option<PercentChangeTrend>) {
    currentPriceTrend.Some? && todaysChangeTrend.Some?
    && day30ChangeTrend.Some? && day90ChangeTrend.Some? && day180ChangeTrend.Some?
  }

  /** Some reference given to `new GEItemInfo` is `null`. */
  predicate GESomeMissing(name: Option<string>, category: Option<Category>, description: Option<string>,
                          iconUrl: Option<string>, largeIconUrl: Option<string>, typeIconUrl: Option<string>,
                          currentPriceTrend: Option<PriceTrend>, todaysChangeTrend: Option<PriceChangeTrend>,
                          day30ChangeTrend: Option<PercentChangeTrend>, day90ChangeTrend: Option<PercentChangeTrend>,
                          day180ChangeTrend: Option<PercentChangeTrend>) {
    || name.None? || category.None? || description.None?
    || iconUrl.None? || largeIconUrl.None? || typeIconUrl.None?
    || currentPriceTrend.None? || todaysChangeTrend.None?
    || day30ChangeTrend.None? || day90ChangeTrend.None? || day180ChangeTrend.None?
  }

  /** Some text given to `new GEItemInfo` is present but empty. */
  predicate GESomeEmpty(name: Option<string>, description: Option<string>,
                        iconUrl: Option<string>, largeIconUrl: Option<string>, typeIconUrl: Option<string>) {
    name == Some("") || description == Some("") || iconUrl == Some("") || largeIconUrl == Some("") || typeIconUrl == Some("")
  }

  /** The presence and emptiness checks on the texts and the category, in
      the order of the parameters. */
  function CheckGETexts(name: Option<string>, category: Option<Category>, description: Option<string>,
                        iconUrl: Option<string>, largeIconUrl: Option<string>, typeIconUrl: Option<string>)
    : (r: Result<(string, Category, string, string, string, string)>)
    ensures r.Success? <==> GETextsPass(name, category, description, iconUrl, largeIconUrl, typeIconUrl)
    ensures r.Success? ==> r.value == (name.value, category.value, description.value,
                                       iconUrl.value, largeIconUrl.value, typeIconUrl.value)
    ensures name.None? ==> r == Failure(NullValue("name null"))
    ensures r.Failure? && r.error.NullValue? ==>
      name.None? || category.None? || description.None? || iconUrl.None? || largeIconUrl.None? || typeIconUrl.None?
    ensures r.Failure? && !r.error.NullValue? ==>
      r.error.IllegalArgument? && GESomeEmpty(name, description, iconUrl, largeIconUrl, typeIconUrl)
  {
    var n :- RequireText(name, "name null", "name empty");
    var c :- Require(category, "type null");
    var d :- RequireText(description, "description null", "description empty");
    var icon :- RequireText(iconUrl, "iconUrl null", "iconUrl empty");
    var large :- RequireText(largeIconUrl, "largeIconUrl null", "largeIconUrl empty");
    var typeIcon :- RequireText(typeIconUrl, "typeIconUrl null", "typeIconUrl empty");
    Success((n, c, d, icon, large, typeIcon))
  }

  /** The presence checks on the five trends, in the order of the parameters. */
  function CheckGETrends(currentPriceTrend: Option<PriceTrend>, todaysChangeTrend: Option<PriceChangeTrend>,
                         day30ChangeTrend: Option<PercentChangeTrend>, day90ChangeTrend: Option<PercentChangeTrend>,
                         day180ChangeTrend: Option<PercentChangeTrend>)
    : (r: Result<(PriceTrend, PriceChangeTrend, PercentChangeTrend, PercentChangeTrend, PercentChangeTrend)>)
    ensures r.Success? <==> GETrendsPresent(currentPriceTrend, todaysChangeTrend, day30ChangeTrend, day90ChangeTrend, day180ChangeTrend)
    ensures r.Success? ==> r.value == (currentPriceTrend.value, todaysChangeTrend.value,
                                       day30ChangeTrend.value, day90ChangeTrend.value, day180ChangeTrend.value)
    ensures r.Failure? ==> r.error.NullValue?
  {
    var current :- Require(currentPriceTrend, "currentPriceTrend null");
    var todays :- Require(todaysChangeTrend, "todaysChangeTrend null");
    var day30 :- Require(day30ChangeTrend, "day30ChangeTrend null");
    var day90 :- Require(day90ChangeTrend, "day90ChangeTrend null");
    var day180 :- Require(day180ChangeTrend, "day180ChangeTrend null");
    Success((current, todays, day30, day90, day180))
  }

  /** The three `new URL` calls, in order: the first address that is not
      one decides the exception. */
  function ParseAddresses(i: GEItemInfo, isUrl: string -> bool): (r: Result<GEItemInfo>)
    ensures r.Success? <==> isUrl(i.iconUrl) && isUrl(i.largeIconUrl) && isUrl(i.typeIconUrl)
    ensures r.Success? ==> r.value == i
    ensures !isUrl(i.iconUrl) ==> r == Failure(MalformedUrl(i.iconUrl))
    ensures isUrl(i.iconUrl) && !isUrl(i.largeIconUrl) ==> r == Failure(MalformedUrl(i.largeIconUrl))
    ensures isUrl(i.iconUrl) && isUrl(i.largeIconUrl) && !isUrl(i.typeIconUrl) ==> r == Failure(MalformedUrl(i.typeIconUrl))
  {
    var icon :- ParseUrl(i.iconUrl, isUrl);
    var largeIcon :- ParseUrl(i.largeIconUrl, isUrl);
    var typeIcon :- ParseUrl(i.typeIconUrl, isUrl);
    Success(i)
  }

  /** `new GEItemInfo(...)`: the presence and emptiness checks run in the
      order of the parameters, and only when all have passed are the three
      addresses turned into URLs. A `null` reference fails with a
      `NullPointerException`, a negative id or an empty text with an
      `IllegalArgumentException`, and an address that is not one with a
      `MalformedURLException`. The current price trend, being a
      `PriceTrend` instance, is valid. */
  function NewGEItemInfo(
    id: Int32, name: Option<string>, category: Option<Category>, description: Option<string>,
    membersOnly: bool, iconUrl: Option<string>, largeIconUrl: Option<string>, typeIconUrl: Option<string>,
    currentPriceTrend: Option<PriceTrend>, todaysChangeTrend: Option<PriceChangeTrend>,
    day30ChangeTrend: Option<PercentChangeTrend>, day90ChangeTrend: Option<PercentChangeTrend>,
    day180ChangeTrend: Option<PercentChangeTrend>, isUrl: string -> bool): (r: Result<GEItemInfo>)
    requires currentPriceTrend.Some? ==> ValidPriceTrend(currentPriceTrend.value)
    ensures r.Success? <==>
      && id >= 0 && name.Some? && |name.value| > 0 && category.Some?
      && description.Some? && |description.value| > 0
      && iconUrl.Some? && |iconUrl.value| > 0 && largeIconUrl.Some? && |largeIconUrl.value| > 0
      && typeIconUrl.Some? && |typeIconUrl.value| > 0
      && currentPriceTrend.Some? && todaysChangeTrend.Some?
      && day30ChangeTrend.Some? && day90ChangeTrend.Some? && day180ChangeTrend.Some?
      && isUrl(iconUrl.value) && isUrl(largeIconUrl.value) && isUrl(typeIconUrl.value)
    ensures r.Success? ==> ValidGE(r.value, isUrl)
    ensures r.Success? ==> r.value == GEItemInfo(id, name.value, category.value, description.value, membersOnly,
      iconUrl.value, largeIconUrl.value, typeIconUrl.value, currentPriceTrend.value, todaysChangeTrend.value,
      day30ChangeTrend.value, day90ChangeTrend.value, day180ChangeTrend.value)
    ensures id < 0 ==> r == Failure(IllegalArgument(Reason("invalid id", id)))
    ensures id >= 0 && name.None? ==> r == Failure(NullValue("name null"))
    ensures r.Failure? ==> r.error.NullValue? || r.error.IllegalArgument? || r.error.MalformedUrl?
    ensures r.Failure? && r.error.NullValue? ==>
      id >= 0 && GESomeMissing(name, category, description, iconUrl, largeIconUrl, typeIconUrl,
                               currentPriceTrend, todaysChangeTrend, day30ChangeTrend, day90ChangeTrend, day180ChangeTrend)
    ensures r.Failure? && r.error.IllegalArgument? ==>
      id < 0 || GESomeEmpty(name, description, iconUrl, largeIconUrl, typeIconUrl)
    ensures r.Failure? && r.error.MalformedUrl? ==>
      id >= 0 && GETextsPass(name, category, description, iconUrl, largeIconUrl, typeIconUrl)
      && GETrendsPresent(currentPriceTrend, todaysChangeTrend, day30ChangeTrend, day90ChangeTrend, day180ChangeTrend)
      && r.error.url in [iconUrl.value, largeIconUrl.value, typeIconUrl.value]
      && !isUrl(r.error.url)
    ensures id >= 0 && GETextsPass(name, category, description, iconUrl, largeIconUrl, typeIconUrl)
            && GETrendsPresent(currentPriceTrend, todaysChangeTrend, day30ChangeTrend, day90ChangeTrend, day180ChangeTrend)
            ==> (!isUrl(iconUrl.value) ==> r == Failure(MalformedUrl(iconUrl.value)))
                && (isUrl(iconUrl.value) && !isUrl(largeIconUrl.value) ==> r == Failure(MalformedUrl(largeIconUrl.value)))
                && (isUrl(iconUrl.value) && isUrl(largeIconUrl.value) && !isUrl(typeIconUrl.value)
                    ==> r == Failure(MalformedUrl(typeIconUrl.value)))
  {
    if id < 0 then Failure(IllegalArgument(Reason("invalid id", id)))
    else
      var (n, c, d, icon, large, typeIcon) :- CheckGETexts(name, category, description, iconUrl, largeIconUrl, typeIconUrl);
      var (current, todays, day30, day90, day180) :-
        CheckGETrends(currentPriceTrend, todaysChangeTrend, day30ChangeTrend, day90ChangeTrend, day180ChangeTrend);
      ParseAddresses(GEItemInfo(id, n, c, d, membersOnly, icon, large, typeIcon, current, todays, day30, day90, day180), isUrl)
  }

  /** `GEItemInfo.getPrice`: the price of the current price trend. */
  function GEPrice(i: GEItemInfo): Int32 {
    i.currentPriceTrend.price
  }

  /** `GEItemInfo.getPriceChange`: the change of today's trend. */
  function GEPriceChange(i: GEItemInfo): Int32 {
    i.todaysChangeTrend.priceChange
  }

  /** An `ItemInfo`: either implementation, seen through the interface. */
  datatype ItemInfo = Basic(basic: DefaultItemInfo) | Detailed(detailed: GEItemInfo)

  function Id(i: ItemInfo): Int32 {
    match i
    case Basic(b) => b.id
    case Detailed(g) => g.id
  }

  function Name(i: ItemInfo): string {
    match i
    case Basic(b) => b.name
    case Detailed(g) => g.name
  }

  function Price(i: ItemInfo): Int32 {
    match i
    case Basic(b) => b.price
    case Detailed(g) => GEPrice(g)
  }

  function Description(i: ItemInfo): string {
    match i
    case Basic(b) => b.description
    case Detailed(g) => g.description
  }

  /** Each implementation's own constructor invariant. */
  predicate Valid(i: ItemInfo, isUrl: string -> bool) {
    match i
    case Basic(b) => ValidDefault(b)
    case Detailed(g) => ValidGE(g, isUrl)
  }

  /** The promises the `ItemInfo` interface makes: an identification value
      of at least zero, a non-empty name and description, and a price
      strictly greater than zero. */
  predicate MeetsInterface(i: ItemInfo) {
    Id(i) >= 0 && |Name(i)| > 0 && Price(i) > 0 && |Description(i)| > 0
  }

  /** Both implementations keep the interface's promises. */
  lemma ImplementationsMeetInterface(i: ItemInfo, isUrl: string -> bool)
    requires Valid(i, isUrl)
    ensures MeetsInterface(i)
  {
  }

  /** The `DefaultItemInfo` constructor builds exactly the valid records,
      each from its own fields. */
  lemma DefaultConstructible(i: DefaultItemInfo)
    ensures NewDefaultItemInfo(i.id, Some(i.name), i.price, Some(i.description)) == Success(i) <==> ValidDefault(i)
  {
  }

  /** The `GEItemInfo` constructor builds exactly the valid records, each
      from its own fields. */
  lemma GEConstructible(i: GEItemInfo, isUrl: string -> bool)
    requires ValidPriceTrend(i.currentPriceTrend)
    ensures
      var built := NewGEItemInfo(i.id, Some(i.name), Some(i.category), Some(i.description), i.membersOnly,
        Some(i.iconUrl), Some(i.largeIconUrl), Some(i.typeIconUrl), Some(i.currentPriceTrend),
        Some(i.todaysChangeTrend), Some(i.day30ChangeTrend), Some(i.day90ChangeTrend),
        Some(i.day180ChangeTrend), isUrl);
      built == Success(i) <==> ValidGE(i, isUrl)
  {
  }

  /** `DefaultItemInfo.equals`: all four fields equal. */
  function DefaultEquals(a: DefaultItemInfo, b: DefaultItemInfo): (eq: bool)
    ensures eq <==> a == b
  {
    a.id == b.id && a.price == b.price && a.name == b.name && a.description == b.description
  }

  /** `GEItemInfo.equals`: all thirteen fields equal, the trends compared
      with their own `equals`. */
  function GEEquals(a: GEItemInfo, b: GEItemInfo): (eq: bool)
    ensures eq <==> a == b
  {
    && a.id == b.id && a.name == b.name && a.category == b.category && a.description == b.description
    && a.membersOnly == b.membersOnly && a.iconUrl == b.iconUrl && a.largeIconUrl == b.largeIconUrl
    && a.typeIconUrl == b.typeIconUrl
    && PriceTrendEquals(a.currentPriceTrend, b.currentPriceTrend)
    && PriceChangeTrendEquals(a.todaysChangeTrend, b.todaysChangeTrend)
    && PercentChangeTrendEquals(a.day30ChangeTrend, b.day30ChangeTrend)
    && PercentChangeTrendEquals(a.day90ChangeTrend, b.day90ChangeTrend)
    && PercentChangeTrendEquals(a.day180ChangeTrend, b.day180ChangeTrend)
  }
}
