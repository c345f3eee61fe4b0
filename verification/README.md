# Grand Exchange item data, modelled in Dafny

This project models the Grand Exchange library of the rsbot API. The library turns the loosely typed answers of two web services into validated values:

- the official item database of services.runescape.com;
- the unofficial item service at rsapi.net.

It also builds the addresses those services are asked at. The model covers:

- **Enums.**
  - The three price trends (`Trends`), each with a signum and a wire name.
  - The 37 item categories (`Categories`), each with an identification value and a name.
  - The lookups of both by name, and of categories by id.
- **Validated records.**
  - `PriceTrend`, `PriceChangeTrend` and `PercentChangeTrend` (`TrendRecords`).
  - `DefaultItemInfo` and `GEItemInfo`, together with the `ItemInfo` interface they implement (`ItemInfos`).
  - Each constructor is modelled with its checks in source order and with the message of the first check that fails.
- **Address builders.**
  - The official service: item details, graph data, category information and category prices (`GrandExchangeRequests`).
  - The unofficial service (`RunescapeRequests`): search, the three item-list overloads and the thumbnail.
  - The search path is quoted the way `java.net.URI` quotes a path (`UriQuoting`).
- **Number readers.**
  - `getPrice`, which reads texts such as "250k", "1.5m" and "3b" (`Prices`).
  - The percent-change reading (`Prices`).
  - Both rely on an exact decimal number type (`Decimals`).
- **Response parsers.**
  - The three trend sub-parsers and the single-item parser of the official service (`GrandExchangeParser`).
  - `parseItems` of the unofficial service, with its four public callers (`RunescapeParser`).
  - Both work on an idealised token stream (`Tokens`): field names, scalars, and the starts and ends of objects and arrays.

Modelling choices:

- Java `int` is `Numbers.Int32`. The narrowing cast of a `double` saturates and truncates toward zero (`Numbers.Clamp`).
- Nullable references passed to a constructor are `Option`s. Exceptions are the `Failure` cases of `Results.Result`:
  - `checkNotNull` fails as `NullValue(message)`;
  - `checkArgument` fails as `IllegalArgument(message)`, with the `%s` placeholders filled in;
  - `NumberFormatException` is `NumberFormat(text)`;
  - `StringIndexOutOfBoundsException` is `IndexOutOfRange(index)`;
  - a failed `Optional.get()` is `UnknownName(text)`;
  - an `error` answer is `RemoteError(text)`;
  - `MalformedURLException` is `MalformedUrl(text)`;
  - `FileNotFoundException` is `NotFound`.
- Opening an address is a parameter `fetch: string -> Response`. Its result is either `NotFound` or the token stream of the answer.
- Whether `new URL(s)` accepts a text is a parameter `isUrl: string -> bool`.

The two lookup tables of each enum are modelled as Guava's `ImmutableMap.Builder` builds them (`Tables.Build`): a build with a repeated key fails. The model proves that the keys are distinct, so the builds succeed. For speed, `FromName` is a recogniser that switches on the length and on one distinguishing character. `FromNameIsTableLookup` proves it equal to the table lookup on every text.

Each parser is written over the tokens not yet consumed. A call of `nextToken()` past the last token gives nothing, as Jackson's returns `null`. Each parser has a reference document writer, and a round-trip lemma proves that the parser reads the written document back.

## Model

All paths are under `src/org/powerbot/game/api/methods/web/ge/`, written out in full.

| member | source | states |
|---|---|---|
| Trends.Signum | src/org/powerbot/game/api/methods/web/ge/trend/Trend.java:31-37 | The signum is -1, 0 or 1. It is negative exactly for the negative trend and positive exactly for the positive trend. |
| Trends.Name | src/org/powerbot/game/api/methods/web/ge/trend/Trend.java:82-88 | Every trend's name is non-empty, as the constructor asserts. |
| Trends.TrendConstants | src/org/powerbot/game/api/methods/web/ge/trend/Trend.java:31-37 | There are exactly three trends, all distinct, with the (signum, name) pairs (-1, "negative"), (0, "neutral") and (1, "positive"). |
| Trends.NameEntriesDistinct | src/org/powerbot/game/api/methods/web/ge/trend/Trend.java:43-48 | The entries put into the name-map builder have distinct keys, so building the map cannot fail. |
| Trends.NameTable | src/org/powerbot/game/api/methods/web/ge/trend/Trend.java:40-48 | The built map holds every trend under its name, and every key in it is the name of the trend it maps to. |
| Trends.FromName | src/org/powerbot/game/api/methods/web/ge/trend/Trend.java:62-64 | A found trend has exactly the given name. Nothing is found if and only if no trend has that name. |
| Trends.FromNameIsTableLookup | src/org/powerbot/game/api/methods/web/ge/trend/Trend.java:62-64 | The lookup equals the `MAP_FROM_NAME` map lookup on every text. |
| Trends.FromNameRoundTrip | src/org/powerbot/game/api/methods/web/ge/trend/Trend.java:62-64 | Looking up a trend's name gives that trend back. |
| Trends.NamesUnique | src/org/powerbot/game/api/methods/web/ge/trend/Trend.java:31-37 | Two trends with the same name are the same trend. |
| Trends.FromNameIsExact | src/org/powerbot/game/api/methods/web/ge/trend/Trend.java:62-64 | Matching is exact: "Positive", "NEGATIVE", " neutral" and "" find nothing. |
| Categories.Id | src/org/powerbot/game/api/methods/web/ge/item/Category.java:207-213 | Every identification value is at most 36, as the constructor asserts. |
| Categories.IdsAreIndices | src/org/powerbot/game/api/methods/web/ge/item/Category.java:30-138 | `values()` has 37 constants, and the constant at position i has identification value i. |
| Categories.EveryCategoryListed | src/org/powerbot/game/api/methods/web/ge/item/Category.java:30-138 | Every category appears in `values()`, at the position of its identification value, which lies in 0..36. |
| Categories.IdsUnique | src/org/powerbot/game/api/methods/web/ge/item/Category.java:30-138 | Two categories with the same identification value are the same category. |
| Categories.NamesNonEmpty | src/org/powerbot/game/api/methods/web/ge/item/Category.java:207-209 | Every category name is non-empty. |
| Categories.NamesUnique | src/org/powerbot/game/api/methods/web/ge/item/Category.java:153-156 | Two categories with the same name are the same category. |
| Categories.NameToCategoryOfName | src/org/powerbot/game/api/methods/web/ge/item/Category.java:187-189 | The name recogniser finds every category under its own name. |
| Categories.IdEntriesDistinct | src/org/powerbot/game/api/methods/web/ge/item/Category.java:147-151 | The entries put into the id-map builder have distinct keys, so the build succeeds. |
| Categories.NameEntriesDistinct | src/org/powerbot/game/api/methods/web/ge/item/Category.java:153-156 | The entries put into the name-map builder have distinct keys, so the build succeeds. |
| Categories.IdTable | src/org/powerbot/game/api/methods/web/ge/item/Category.java:147-151 | The id map holds every category under its id, and nothing under another key. |
| Categories.NameTable | src/org/powerbot/game/api/methods/web/ge/item/Category.java:153-156 | The name map holds every category under its name, and nothing under another key. |
| Categories.FromId | src/org/powerbot/game/api/methods/web/ge/item/Category.java:171-173 | A category is found exactly when 0 <= id <= 36, and the one found has that identification value. |
| Categories.FromName | src/org/powerbot/game/api/methods/web/ge/item/Category.java:187-189 | A found category has exactly the given name. Nothing is found if and only if no category has that name. |
| Categories.FromNameIsTableLookup | src/org/powerbot/game/api/methods/web/ge/item/Category.java:187-189 | The recogniser equals the `MAP_FROM_NAME` lookup on every text. |
| Categories.FromIdRoundTrip | src/org/powerbot/game/api/methods/web/ge/item/Category.java:171-173 | Looking up a category's identification value gives that category back. |
| Categories.FromNameRoundTrip | src/org/powerbot/game/api/methods/web/ge/item/Category.java:187-189 | Looking up a category's name gives that category back. |
| Categories.FromNameIsCaseSensitive | src/org/powerbot/game/api/methods/web/ge/item/Category.java:187-189 | "potions" finds nothing: the lookup is case-sensitive. |
| Categories.FromNameDoesNotTrim | src/org/powerbot/game/api/methods/web/ge/item/Category.java:187-189 | " Potions" finds nothing: the lookup does not trim. |
| Categories.FromNameEmpty | src/org/powerbot/game/api/methods/web/ge/item/Category.java:187-189 | The empty text finds nothing. |
| Categories.FromIdBounds | src/org/powerbot/game/api/methods/web/ge/item/Category.java:171-173 | -1 and 37 find nothing, and 32 finds "Runes, Spells and Teleports". |
| TrendRecords.NewPriceTrend | src/org/powerbot/game/api/methods/web/ge/trend/PriceTrend.java:56-61 | Construction succeeds exactly with a trend and a positive price, and the record keeps both. A missing trend fails with "trend null". A price <= 0 fails with "invalid price (p)". |
| TrendRecords.NewPriceChangeTrend | src/org/powerbot/game/api/methods/web/ge/trend/PriceChangeTrend.java:55-59 | Construction succeeds exactly when a trend is given, and any change is accepted. The accessors return the arguments. A missing trend fails with "trend null". |
| TrendRecords.NewPercentChangeTrend | src/org/powerbot/game/api/methods/web/ge/trend/PercentChangeTrend.java:56-60 | Construction succeeds exactly when a trend is given, and any fraction is accepted unbounded. The accessors return the arguments. A missing trend fails with "trend null". |
| TrendRecords.PriceTrendConstructible | src/org/powerbot/game/api/methods/web/ge/trend/PriceTrend.java:56-85 | A price trend is rebuilt from its own accessors if and only if it satisfies the constructor's invariant. |
| TrendRecords.ChangeTrendsConstructible | src/org/powerbot/game/api/methods/web/ge/trend/PriceChangeTrend.java:55-82 | Every price change trend and every percent change trend is rebuilt from its own accessors. |
| TrendRecords.PriceTrendEquals | src/org/powerbot/game/api/methods/web/ge/trend/PriceTrend.java:88-96 | Two price trends are equal if and only if their trends and prices are. |
| TrendRecords.PriceChangeTrendEquals | src/org/powerbot/game/api/methods/web/ge/trend/PriceChangeTrend.java:85-93 | Two price change trends are equal if and only if their trends and changes are. |
| TrendRecords.PercentChangeTrendEquals | src/org/powerbot/game/api/methods/web/ge/trend/PercentChangeTrend.java:85-93 | Two percent change trends are equal if and only if their trends and fractions are. |
| ItemInfos.NewDefaultItemInfo | src/org/powerbot/game/api/methods/web/ge/item/DefaultItemInfo.java:59-74 | Construction succeeds exactly for id >= 0, a non-empty name, a price > 0 and a non-empty description, and keeps all four. Otherwise the first failing check's error is returned, in the order id, name, price, description. |
| ItemInfos.NewGEItemInfo | src/org/powerbot/game/api/methods/web/ge/item/GEItemInfo.java:111-160 | Construction succeeds exactly when all thirteen checks pass and the three icon texts are addresses, and keeps every argument. A negative id and a missing name give their messages. Every failure is a `NullPointerException` (id not negative, and some argument missing), an `IllegalArgumentException` (negative id or some text empty) or a `MalformedURLException`. The last comes only once every other check has passed, and it names the first of the three icon texts, in order, that is not an address. |
| ItemInfos.CheckGETexts | src/org/powerbot/game/api/methods/web/ge/item/GEItemInfo.java:124-139 | The name, type, description and three icon texts pass exactly when all are present and the texts are non-empty. A missing name is reported first. A failure is a missing argument or an empty text. |
| ItemInfos.CheckGETrends | src/org/powerbot/game/api/methods/web/ge/item/GEItemInfo.java:141-145 | The five trends pass exactly when all are present. Otherwise the failure is a `NullPointerException`. |
| ItemInfos.ParseAddresses | src/org/powerbot/game/api/methods/web/ge/item/GEItemInfo.java:152-154 | The three icon texts are turned into URLs in order. The first one that is not an address is the one reported, and the item is kept when all three are addresses. |
| ItemInfos.ImplementationsMeetInterface | src/org/powerbot/game/api/methods/web/ge/item/ItemInfo.java:27-73 | Every constructed `DefaultItemInfo` and `GEItemInfo` has id >= 0, a non-empty name and description, and a price > 0. For a `GEItemInfo` the price is the current trend's price. |
| ItemInfos.DefaultConstructible | src/org/powerbot/game/api/methods/web/ge/item/DefaultItemInfo.java:59-94 | An item is rebuilt from its own accessors if and only if it satisfies the constructor's checks. |
| ItemInfos.GEConstructible | src/org/powerbot/game/api/methods/web/ge/item/GEItemInfo.java:116-160 | A detailed item is rebuilt from its own accessors if and only if it satisfies the constructor's checks. |
| ItemInfos.DefaultEquals | src/org/powerbot/game/api/methods/web/ge/item/DefaultItemInfo.java:97-106 | Equality is field-wise on id, price, name and description. |
| ItemInfos.GEEquals | src/org/powerbot/game/api/methods/web/ge/item/GEItemInfo.java:335-347 | Equality is field-wise over all thirteen fields. |
| Numbers.IntToString | src/org/powerbot/game/api/methods/web/ge/api/RunescapeAPI.java:151-152 | The decimal text of an `int`: the digits of its magnitude without a leading zero, preceded by a '-' exactly when it is negative. |
| Numbers.NatToStringOfCanonical | src/org/powerbot/game/api/methods/web/ge/api/GrandExchangeAPI.java:111 | Digits without a leading zero are the text of their own value, so the text of a number is its only such spelling. |
| Numbers.ParseInt | src/org/powerbot/game/api/methods/web/ge/api/GrandExchangeAPI.java:225 | `Integer.parseInt` succeeds exactly on an optional sign followed by at least one digit, whose value lies in the `int` range. It then gives that value, and otherwise fails naming the text. |
| Numbers.ParseIntRoundTrip | src/org/powerbot/game/api/methods/web/ge/api/GrandExchangeAPI.java:225 | Every `int` written as decimal text is read back by `Integer.parseInt`. |
| Numbers.ClampIsNearest | src/org/powerbot/game/api/methods/web/ge/api/GrandExchangeAPI.java:228 | The `(int)` cast gives the `int` nearest to the exact value, and it keeps the order of values. |
| Text.KeepIdempotent | src/org/powerbot/game/api/methods/web/ge/api/GrandExchangeAPI.java:218 | Deleting the characters outside a class a second time changes nothing. |
| Text.KeepAppend | src/org/powerbot/game/api/methods/web/ge/api/GrandExchangeAPI.java:218 | Deleting characters works on each part of a text separately. |
| Text.KeepMembers | src/org/powerbot/game/api/methods/web/ge/api/GrandExchangeAPI.java:218 | What is left consists of exactly the characters of the text that are in the class. |
| Text.Keep | src/org/powerbot/game/api/methods/web/ge/api/GrandExchangeAPI.java:218 | What is left is no longer than the text, and every character of it is in the class. |
| Text.ParseBoolean | src/org/powerbot/game/api/methods/web/ge/api/GrandExchangeAPI.java:378 | `Boolean.valueOf` is true exactly for "true" in any mix of case. |
| Decimals.ParseDecimal | src/org/powerbot/game/api/methods/web/ge/api/GrandExchangeAPI.java:228 | The decimal reading succeeds exactly on an optional '-' followed by digits with at most one '.'. The sign is kept, and a text of only digits reads as its value. |
| Decimals.ParseDecimalValue | src/org/powerbot/game/api/methods/web/ge/api/GrandExchangeAPI.java:228 | An accepted text reads as its part-by-part value (`DecimalTextValue`): the digits before the point, plus the digits after it over ten to the power of their count, negated after a '-'. |
| Decimals.ParseUnsigned | src/org/powerbot/game/api/methods/web/ge/api/GrandExchangeAPI.java:228 | Reading succeeds exactly on digits with at most one '.' and at least one digit, and the scale is the number of digits after the point. |
| Decimals.ParseUnsignedValue | src/org/powerbot/game/api/methods/web/ge/api/GrandExchangeAPI.java:228 | The integer read, over ten to the power of the scale, is the part-by-part value of the text. |
| Decimals.ParseDecimalOfParts | src/org/powerbot/game/api/methods/web/ge/api/GrandExchangeAPI.java:228 | Digits, a point and digits (either side may be empty, but not both) read as the whole part plus the fraction digits over ten to the power of their count, negated after a '-'. |
| Decimals.ParseDecimalEmptyWhole | src/org/powerbot/game/api/methods/web/ge/api/GrandExchangeAPI.java:228 | ".5" reads as 0.5 and "-.5" as -0.5. |
| Decimals.ParseDecimalEmptyFraction | src/org/powerbot/game/api/methods/web/ge/api/GrandExchangeAPI.java:228 | "5." reads as 5. |
| Decimals.ParseDecimalLeadingZero | src/org/powerbot/game/api/methods/web/ge/api/GrandExchangeAPI.java:228 | "01.5" reads as 1.5. |
| Decimals.ParseRender | src/org/powerbot/game/api/methods/web/ge/api/GrandExchangeAPI.java:228 | Every decimal number written out is read back exactly. |
| Decimals.TruncTimes | src/org/powerbot/game/api/methods/web/ge/api/GrandExchangeAPI.java:228 | The product of a decimal and a multiplier is truncated toward zero. It lies within 1 of the exact product, on the side of zero. |
| Prices.Multiplier | src/org/powerbot/game/api/methods/web/ge/api/GrandExchangeAPI.java:221-224 | 'k' stands for 1000, 'm' for 1000000 and 'b' for 1000000000. |
| Prices.GetPrice | src/org/powerbot/game/api/methods/web/ge/api/GrandExchangeAPI.java:216-229 | A text with nothing left after cleaning fails, and only it, with the index error of `substring(-1)`; every other failure is a number-format error. A cleaned text that does not end in a suffix is read by `Integer.parseInt`, so one of digits only reads as its value. One that ends in a suffix is read exactly when the rest is a decimal. |
| Prices.GetPriceRejectsEmbeddedSuffix | src/org/powerbot/game/api/methods/web/ge/api/GrandExchangeAPI.java:218-226 | A 'k', 'm' or 'b' kept anywhere before the last character makes the price fail. |
| Prices.GetPriceIgnoresOtherCharacters | src/org/powerbot/game/api/methods/web/ge/api/GrandExchangeAPI.java:218 | The price read depends only on the kept characters `0-9 - . k m b`. |
| Prices.GetPriceIgnoresCharacter | src/org/powerbot/game/api/methods/web/ge/api/GrandExchangeAPI.java:218 | Inserting any character outside the kept class anywhere leaves the price unchanged. |
| Prices.GetPriceOfInt | src/org/powerbot/game/api/methods/web/ge/api/GrandExchangeAPI.java:225 | Every `int` written as decimal text is read back as itself. |
| Prices.GetPriceOfSuffixed | src/org/powerbot/game/api/methods/web/ge/api/GrandExchangeAPI.java:221-228 | A decimal followed by k, m or b reads as the decimal times 10^3, 10^6 or 10^9, truncated toward zero and saturated to the `int` range. |
| Prices.GetPriceThousands | src/org/powerbot/game/api/methods/web/ge/api/GrandExchangeAPI.java:222 | "250k" is 250000. |
| Prices.GetPriceFractionalMillions | src/org/powerbot/game/api/methods/web/ge/api/GrandExchangeAPI.java:223 | "1.5m" is 1500000. |
| Prices.GetPriceSaturates | src/org/powerbot/game/api/methods/web/ge/api/GrandExchangeAPI.java:224-228 | "3b" saturates at 2147483647. |
| Prices.GetPriceRejectsBareFraction | src/org/powerbot/game/api/methods/web/ge/api/GrandExchangeAPI.java:225 | "1.5" without a suffix fails. |
| Prices.GetPriceRejectsEmpty | src/org/powerbot/game/api/methods/web/ge/api/GrandExchangeAPI.java:218-221 | "n/a" has nothing left after cleaning, and fails with the index error of `substring(-1)`. |
| Prices.ParsePercentChange | src/org/powerbot/game/api/methods/web/ge/api/GrandExchangeAPI.java:311 | The change is read exactly when the cleaned text is a decimal, and 100 times the result is that decimal. Otherwise the error names the cleaned text. |
| Prices.ParsePercentChangeOfRendered | src/org/powerbot/game/api/methods/web/ge/api/GrandExchangeAPI.java:311 | A decimal followed by '%' reads as the decimal divided by 100. |
| Prices.ParsePercentChangeExample | src/org/powerbot/game/api/methods/web/ge/api/GrandExchangeAPI.java:311 | "+5.1%" reads as 0.051. |
| GrandExchangeRequests.ItemInfoUrl | src/org/powerbot/game/api/methods/web/ge/api/GrandExchangeAPI.java:107-115 | An address is built exactly for itemId >= 0, and otherwise the failure is "invalid itemId (n)". The address is the detail prefix followed by the id as `Integer.toString` writes it, which `parseInt` reads back. |
| GrandExchangeRequests.ItemGraphDataUrl | src/org/powerbot/game/api/methods/web/ge/api/GrandExchangeAPI.java:130-138 | An address is built exactly for itemId >= 0, with the same message otherwise. It is the graph prefix, the id as `Integer.toString` writes it, and ".json". |
| GrandExchangeRequests.CategoryInfoUrl | src/org/powerbot/game/api/methods/web/ge/api/GrandExchangeAPI.java:151-159 | A missing category fails with "category null". Otherwise the address is the category prefix followed by the category's id as `Integer.toString` writes it. |
| GrandExchangeRequests.CategoryPriceUrl | src/org/powerbot/game/api/methods/web/ge/api/GrandExchangeAPI.java:182-193 | An address is built exactly with a category, a letter and page > 0. The checks run in that order, with their messages. The address is the items prefix, the category id, "&alpha=", the letter, "&page=" and the page. |
| GrandExchangeRequests.ItemUrlsInjective | src/org/powerbot/game/api/methods/web/ge/api/GrandExchangeAPI.java:107-138 | Different ids give different detail addresses and different graph addresses. |
| GrandExchangeRequests.CategoryInfoUrlInjective | src/org/powerbot/game/api/methods/web/ge/api/GrandExchangeAPI.java:151-159 | Different categories give different information addresses. |
| GrandExchangeRequests.CategoryPriceUrlInjective | src/org/powerbot/game/api/methods/web/ge/api/GrandExchangeAPI.java:182-193 | The price-list address determines its category, letter and page. |
| GrandExchangeParser.ReadTrend | src/org/powerbot/game/api/methods/web/ge/api/GrandExchangeAPI.java:251 | `Trend.fromName(text).get()` succeeds exactly when some trend has that name. Otherwise it fails naming the text. |
| GrandExchangeParser.ReadCategory | src/org/powerbot/game/api/methods/web/ge/api/GrandExchangeAPI.java:369 | `Category.fromName(text).get()` succeeds exactly when some category has that name. Otherwise it fails naming the text. |
| GrandExchangeParser.PriceTrendObject | src/org/powerbot/game/api/methods/web/ge/api/GrandExchangeAPI.java:240-257 | A read price trend satisfies the `PriceTrend` invariant. Reading stops right after the object's closing token and leaves the tokens after it as they were. |
| GrandExchangeParser.TrendObject | src/org/powerbot/game/api/methods/web/ge/api/GrandExchangeAPI.java:246-254 | The field loop of a trend object stops right after the closing token and leaves the tokens after it as they were. A trend, once read, stays set. |
| GrandExchangeParser.PriceChangeTrendObject | src/org/powerbot/game/api/methods/web/ge/api/GrandExchangeAPI.java:268-285 | Reading a price change trend stops right after the object's closing token and leaves the tokens after it as they were. |
| GrandExchangeParser.PercentChangeTrendObject | src/org/powerbot/game/api/methods/web/ge/api/GrandExchangeAPI.java:296-317 | Reading a percent change trend stops right after the object's closing token and leaves the tokens after it as they were. |
| GrandExchangeParser.ReadField | src/org/powerbot/game/api/methods/web/ge/api/GrandExchangeAPI.java:365-380 | Only "type" and the five trend fields can fail. A scalar field reads nothing past its value, and a trend field reads exactly its object. Any price trend held stays valid. |
| GrandExchangeParser.ItemFields | src/org/powerbot/game/api/methods/web/ge/api/GrandExchangeAPI.java:356-383 | Reading the fields keeps any current price trend held valid. |
| GrandExchangeParser.ValueAsIntOfInt | src/org/powerbot/game/api/methods/web/ge/api/GrandExchangeAPI.java:368 | `getValueAsInt` reads back every `int` written by `Integer.toString`. |
| GrandExchangeParser.ValueAsIntOfNonNumber | src/org/powerbot/game/api/methods/web/ge/api/GrandExchangeAPI.java:368 | A text that is not an optional sign followed by digits reads as 0. |
| GrandExchangeParser.KindOf | src/org/powerbot/game/api/methods/web/ge/api/GrandExchangeAPI.java:365-379 | The case of the switch selected by a field name is the case labelled with that name. |
| GrandExchangeParser.KindOfKindName | src/org/powerbot/game/api/methods/web/ge/api/GrandExchangeAPI.java:365-379 | Every labelled case is selected by its own label. |
| GrandExchangeParser.Finish | src/org/powerbot/game/api/methods/web/ge/api/GrandExchangeAPI.java:386-388 | A built item satisfies the `GEItemInfo` invariant and carries the id, name and category that were read. |
| GrandExchangeParser.ParseItemDocument | src/org/powerbot/game/api/methods/web/ge/api/GrandExchangeAPI.java:341-388 | A parsed item satisfies the `GEItemInfo` invariant. |
| GrandExchangeParser.GetItemInfo | src/org/powerbot/game/api/methods/web/ge/api/GrandExchangeAPI.java:337-393 | A negative id fails with "invalid itemId (n)". Nothing at the address gives an absent result. A present item satisfies the invariant. |
| GrandExchangeDocuments.TrendObjectOfBody | src/org/powerbot/game/api/methods/web/ge/api/GrandExchangeAPI.java:246-254 | A trend object with a known trend and a readable value reads both and stops after its end. |
| GrandExchangeDocuments.TrendObjectSkipsField | src/org/powerbot/game/api/methods/web/ge/api/GrandExchangeAPI.java:250-253 | A field other than "trend" and the value field is ignored. |
| GrandExchangeDocuments.TrendObjectRejectsUnknownTrend | src/org/powerbot/game/api/methods/web/ge/api/GrandExchangeAPI.java:251 | An unknown trend name is fatal and names the text. |
| GrandExchangeDocuments.PriceTrendNeedsPrice | src/org/powerbot/game/api/methods/web/ge/api/GrandExchangeAPI.java:243-256 | A price trend object without a "price" field keeps the price at 0 and fails with "invalid price (0)". |
| GrandExchangeDocuments.PriceTrendRoundTrip | src/org/powerbot/game/api/methods/web/ge/api/GrandExchangeAPI.java:240-257 | The object a valid price trend is written as reads back as that trend, and the rest is untouched. |
| GrandExchangeDocuments.PriceChangeTrendRoundTrip | src/org/powerbot/game/api/methods/web/ge/api/GrandExchangeAPI.java:268-285 | Every price change trend, written with its change in the field "price", reads back. |
| GrandExchangeDocuments.PercentChangeTrendRoundTrip | src/org/powerbot/game/api/methods/web/ge/api/GrandExchangeAPI.java:296-317 | A percent change written as "<decimal>%" reads back as the decimal divided by 100. |
| GrandExchangeDocuments.ItemFieldsSkipsUnknown | src/org/powerbot/game/api/methods/web/ge/api/GrandExchangeAPI.java:379 | A field with none of the thirteen names leaves every variable unchanged. |
| GrandExchangeDocuments.ItemFieldsRejectsUnknownType | src/org/powerbot/game/api/methods/web/ge/api/GrandExchangeAPI.java:369 | A "type" that names no category is fatal. |
| GrandExchangeDocuments.ItemFieldsReadsMembers | src/org/powerbot/game/api/methods/web/ge/api/GrandExchangeAPI.java:378 | "members" sets members-only to whether the text is "true", ignoring case. |
| GrandExchangeDocuments.FieldsStep | src/org/powerbot/game/api/methods/web/ge/api/GrandExchangeAPI.java:356-383 | Reading a run of fields applies them one after the other, a later field overwriting an earlier one. |
| GrandExchangeDocuments.ItemDocumentRoundTrip | src/org/powerbot/game/api/methods/web/ge/api/GrandExchangeAPI.java:341-388 | The details document of a valid item, with its four leading tokens, reads back as that item. |
| GrandExchangeDocuments.GetItemInfoOfDocument | src/org/powerbot/game/api/methods/web/ge/api/GrandExchangeAPI.java:337-393 | When the details address answers with an item's document, the lookup returns that item. |
| UriQuoting.Quote | src/org/powerbot/game/api/methods/web/ge/api/RunescapeAPI.java:122-123 | The quoted text is valid path text (`ValidPathText`): each character is allowed in a path as it is, lies outside ASCII, or is a '%' that starts an escape with two upper-case hexadecimal digits. Quoting works character by character and never shortens the text. |
| UriQuoting.UnquoteQuote | src/org/powerbot/game/api/methods/web/ge/api/RunescapeAPI.java:122-123 | Decoding the escapes of a quoted path gives the path back. |
| UriQuoting.QuoteInjective | src/org/powerbot/game/api/methods/web/ge/api/RunescapeAPI.java:122-123 | Different paths are quoted differently. |
| UriQuoting.QuoteAppend | src/org/powerbot/game/api/methods/web/ge/api/RunescapeAPI.java:122-123 | The quoting of two texts joined is the two quotings joined. |
| UriQuoting.QuotePlain | src/org/powerbot/game/api/methods/web/ge/api/RunescapeAPI.java:122-123 | A text made only of characters a path may hold is left as it is. |
| UriQuoting.QuoteExamples | src/org/powerbot/game/api/methods/web/ge/api/RunescapeAPI.java:122-123 | A space is sent as "%20" and '%' as "%25". |
| RunescapeRequests.SearchUrl | src/org/powerbot/game/api/methods/web/ge/api/RunescapeAPI.java:117-129 | A missing query fails with "query null", and an empty one with "query empty". Otherwise the address is "http://rsapi.net" followed by a quoted path that decodes to "/ge/search/<query>.format" and is valid path text. |
| RunescapeRequests.SearchUrlInjective | src/org/powerbot/game/api/methods/web/ge/api/RunescapeAPI.java:117-129 | Different queries give different addresses. |
| RunescapeRequests.SearchUrlQuotesQuery | src/org/powerbot/game/api/methods/web/ge/api/RunescapeAPI.java:122-123 | Only the query is quoted: the address is the base, "search/", the quoted query and ".format". |
| RunescapeRequests.SearchUrlOfPlainQuery | src/org/powerbot/game/api/methods/web/ge/api/RunescapeAPI.java:67-80 | A query of letters, digits and other path characters appears in the address as it is. |
| RunescapeRequests.SearchUrlQuotesSpace | src/org/powerbot/game/api/methods/web/ge/api/RunescapeAPI.java:122-123 | Two plain words joined by a space are sent joined by "%20". |
| RunescapeRequests.UrlBaseText | src/org/powerbot/game/api/methods/web/ge/api/RunescapeAPI.java:67-80 | The base is "http://rsapi.net/ge/". |
| RunescapeRequests.ReadIdsText | src/org/powerbot/game/api/methods/web/ge/api/RunescapeAPI.java:151-152 | The comma-separated id text reads back as the ids, in order and with duplicates. |
| RunescapeRequests.FirstNegative | src/org/powerbot/game/api/methods/web/ge/api/RunescapeAPI.java:148-149 | The check loop stops at the first negative id, if there is one, and at none otherwise. |
| RunescapeRequests.ItemInfoUrl | src/org/powerbot/game/api/methods/web/ge/api/RunescapeAPI.java:144-159 | An address is built exactly when itemId >= 0, the array is present and every id in it is >= 0. Each failure is the first in source order, with its message: "invalid itemId (n)", "itemIds null", or "invalid itemIds[i] (n)" for the first negative i. The address is the item service base, itemId, each array id after a comma, and ".format"; the ids read back from it in that order. |
| RunescapeRequests.ItemListUrl | src/org/powerbot/game/api/methods/web/ge/api/RunescapeAPI.java:174-188 | An address is built exactly for a present, non-empty list of ids >= 0. Each failure is the first in source order: "itemIds null", "itemIds empty", or "invalid itemIds[i] (n)". The address is the item address of the list's first id followed by the others, and lists exactly the list's ids. |
| RunescapeRequests.ItemArrayUrl | src/org/powerbot/game/api/methods/web/ge/api/RunescapeAPI.java:203-205 | A missing array fails without a message. Otherwise an address is built exactly for a non-empty array of ids >= 0. It is the item address of the first id followed by the others, in order. |
| RunescapeRequests.ItemListUrlIsVariadic | src/org/powerbot/game/api/methods/web/ge/api/RunescapeAPI.java:144-188 | For a non-empty list, the list overload succeeds exactly when the variadic one does on (head, tail), and then with the same address. With a negative head the two messages differ. |
| RunescapeRequests.ItemArrayUrlIsList | src/org/powerbot/game/api/methods/web/ge/api/RunescapeAPI.java:203-205 | The array overload equals the list overload. |
| RunescapeRequests.ItemListUrlInjective | src/org/powerbot/game/api/methods/web/ge/api/RunescapeAPI.java:174-188 | Different id lists give different addresses. |
| RunescapeRequests.ItemInfoUrlExample | src/org/powerbot/game/api/methods/web/ge/api/RunescapeAPI.java:151-155 | (4151, [4151, 11694]) gives the item address with "4151,4151,11694". |
| RunescapeRequests.ThumbnailUrl | src/org/powerbot/game/api/methods/web/ge/api/RunescapeAPI.java:220-228 | An address is built exactly for itemId >= 0, and otherwise the failure is "invalid itemId (n)". It is the thumbnail base followed by the id as `Integer.toString` writes it. |
| RunescapeRequests.ThumbnailUrlExample | src/org/powerbot/game/api/methods/web/ge/api/RunescapeAPI.java:220-224 | The thumbnail of item 0 is at "http://rsapi.net/ge/thumbnail/0". |
| RunescapeParser.ItemField | src/org/powerbot/game/api/methods/web/ge/api/RunescapeAPI.java:289-294 | Each of "id", "name", "price" and "description" sets its own variable and no other. Every other name changes nothing. Only a bad id or price fails. |
| RunescapeParser.ItemList | src/org/powerbot/game/api/methods/web/ge/api/RunescapeAPI.java:282-300 | Every item read satisfies the `ItemInfo` contract. |
| RunescapeParser.ItemObject | src/org/powerbot/game/api/methods/web/ge/api/RunescapeAPI.java:286-297 | Reading an item object stops right after its closing token and leaves the tokens after it as they were. It fails only on a cut-off or malformed stream, or on an "id" or "price" that is not a number (a price with nothing left after cleaning fails with the index error). |
| RunescapeParser.TopFields | src/org/powerbot/game/api/methods/web/ge/api/RunescapeAPI.java:272-306 | Every item the loop over the answer's fields returns satisfies the `ItemInfo` contract. |
| RunescapeParser.ParseItems | src/org/powerbot/game/api/methods/web/ge/api/RunescapeAPI.java:265-309 | Every item returned satisfies the `ItemInfo` contract. |
| RunescapeParser.ItemObjectSkipsUnknown | src/org/powerbot/game/api/methods/web/ge/api/RunescapeAPI.java:289-294 | An unknown item field leaves every variable as it was. |
| RunescapeParser.LaterFieldWins | src/org/powerbot/game/api/methods/web/ge/api/RunescapeAPI.java:291-293 | A later "name" or "description" overwrites an earlier one. |
| RunescapeParser.ItemObjectOf | src/org/powerbot/game/api/methods/web/ge/api/RunescapeAPI.java:286-295 | The object of a valid item reads back into exactly its four fields, and the rest is untouched. |
| RunescapeParser.SearchItemsRoundTrip | src/org/powerbot/game/api/methods/web/ge/api/RunescapeAPI.java:282-300 | A run of item objects reads back as those items, in order, up to the first token that starts no object. |
| RunescapeParser.KeyedItemsRoundTrip | src/org/powerbot/game/api/methods/web/ge/api/RunescapeAPI.java:282-300 | In the details mode the key before each item object is passed over, and the items read back in order. |
| RunescapeParser.SearchDocumentRoundTrip | src/org/powerbot/game/api/methods/web/ge/api/RunescapeAPI.java:265-309 | `{"items": [...]}` of valid items parses in search mode into those items, in order. |
| RunescapeParser.SearchStopsAfterItems | src/org/powerbot/game/api/methods/web/ge/api/RunescapeAPI.java:301-303 | Whatever follows the closed item array is not read. |
| RunescapeParser.ItemInfoDocumentRoundTrip | src/org/powerbot/game/api/methods/web/ge/api/RunescapeAPI.java:265-309 | `{"items": {"<id>": {...}, ...}}` of valid items parses in the details mode into those items, in order. |
| RunescapeParser.ErrorField | src/org/powerbot/game/api/methods/web/ge/api/RunescapeAPI.java:277-280 | An "error" text starting with "No item(s)" gives no items. Any other error text fails carrying the text. |
| RunescapeParser.TopFieldsSkipsUnknown | src/org/powerbot/game/api/methods/web/ge/api/RunescapeAPI.java:272-304 | A top-level field other than "error" and "items" is passed over. |
| RunescapeParser.MissingPriceFails | src/org/powerbot/game/api/methods/web/ge/api/RunescapeAPI.java:285-298 | An item object without "price" keeps the price at 0, and the parse fails with "invalid price (0)". |
| RunescapeParser.GetItemInfo | src/org/powerbot/game/api/methods/web/ge/api/RunescapeAPI.java:333-340 | Address errors pass through. Nothing at the address is an error. Returned items satisfy the contract. |
| RunescapeParser.GetItemInfoList | src/org/powerbot/game/api/methods/web/ge/api/RunescapeAPI.java:365-372 | Address errors pass through. Nothing at the address is an error. Returned items satisfy the contract. |
| RunescapeParser.GetItemInfoArray | src/org/powerbot/game/api/methods/web/ge/api/RunescapeAPI.java:397-401 | A missing array fails, and a success needs a non-empty array. Returned items satisfy the contract. |
| RunescapeParser.SearchItems | src/org/powerbot/game/api/methods/web/ge/api/RunescapeAPI.java:418-425 | A missing or empty query fails with its message. Returned items satisfy the contract. |
| RunescapeParser.GetItemInfoListIsVariadic | src/org/powerbot/game/api/methods/web/ge/api/RunescapeAPI.java:333-372 | On a non-empty list of valid ids, the list lookup and the variadic lookup on (head, tail) give the same result. |

## Left out

- Network I/O: opening an address is the parameter `fetch`, and the image decoding of the thumbnail facade in `GrandExchange.java` is out of scope.
- `GrandExchange.java` is not part of this model. It only forwards to the two API classes with a shared `JsonFactory`.
- Jackson itself: the answer is an idealised token stream.
  - `getCurrentName` is taken as the text of a field-name token.
  - A parser that needs a field name and finds another token fails with `Malformed`.
  - Running out of tokens where Java would meet `null` fails with `Truncated`. Java then throws a `NullPointerException` or keeps reading, depending on the place.
- GrandExchangeParser.ValueAsInt: Jackson's `getValueAsInt` on text is modelled as `Integer.parseInt` with 0 on failure. Its more lenient readings, such as leading spaces or a fraction, are not modelled.
- Numbers.ParseInt: only ASCII digits are read. `Integer.parseInt` reads digits through `Character.digit`, which also accepts other Unicode decimal digits (Arabic-Indic, fullwidth and so on); such an "id" text (RunescapeAPI.java:292) would be read in Java and fails in the model.
- ItemInfos.GEEquals: the three addresses are compared as texts. `URL.equals` also treats addresses as equal when their hosts resolve to the same address, when host names differ only in case, or when one spells out the default port.
- Double arithmetic: `Double.parseDouble` is exact decimal arithmetic, so rounding of the product to the nearest double is not modelled. Forms such as "1e3", "NaN" and hexadecimal doubles cannot survive the character filter.
- PercentChangeTrend equality uses `real` equality, not `Double.compare`, so NaN and -0.0 are not distinguished.
- UriQuoting.Quote: only ASCII is escaped. The escaping of the Unicode space and control characters above 0x7F that `java.net.URI` also performs is not modelled, and other non-ASCII characters pass through as they do in Java.
- RunescapeRequests.SearchUrl: the `URISyntaxException` branch is not modelled. With a scheme, a host and a path starting with '/', the quoting always yields a valid URI: `RunescapeRequests.SearchUrl` ensures that the path after the authority is `ValidPathText`.
- GrandExchangeRequests.CategoryPriceUrl: `Character.isLetter` is approximated by the ASCII letters.
- ItemInfos.NewGEItemInfo: whether `new URL(s)` accepts an address is the parameter `isUrl`, not the URL grammar.
- The `jsonFactory null` checks of the facades and the Java `assert`s are left out: a Dafny value is never null.
- `hashCode` and `toString` are Guava helpers and are not modelled.
- RunescapeRequests.ItemListUrl: a list holding a `null` element, which Java rejects with a `NullPointerException`, cannot be written in the model.
- RunescapeRequests.ItemArrayUrl: `Ints.asList(null)` throws a `NullPointerException` without a message, modelled as `NullValue("")`.
- The accessors of the records are the datatype fields themselves. `GEItemInfo.getPrice` and `getPriceChange` are `ItemInfos.GEPrice` and `ItemInfos.GEPriceChange`.
