/** The item parser of the unofficial Runescape item service
    (`RunescapeAPI.parseItems`) and the three lookups and the search built
    on it.

    As in the Grand Exchange parser, each reader takes the tokens not yet
    consumed. Asking for a token after the last one gives nothing again and
    again, as `nextToken()` returns `null` there; `After` models that.
 */
module RunescapeParser {
  import opened Results
  import opened Numbers
  import opened Text
  import opened Tokens
  import opened ItemInfos
  import opened Prices
  import RunescapeRequests

  /** `ParserMode`: the answer to a details request keys each item object
      by its id; the answer to a search lists the item objects in an array. */
  datatype ParserMode = ItemInfoMode | SearchMode

  /** The tokens left after `n` calls of `nextToken()`. */
  function After(ts: seq<Token>, n: nat): (r: seq<Token>)
    ensures |ts| <= n ==> r == []
    ensures |ts| > n ==> r == ts[n..]
  {
    if |ts| <= n then [] else ts[n..]
  }

  /** The variables one item object is read into: `id` and `price` start at
      0, `name` and `description` at `null`. */
  datatype ItemDraft = ItemDraft(id: Int32, name: Option<string>, price: Int32, description: Option<string>)

  const NoItemFields: ItemDraft := ItemDraft(0, None, 0, None)

  /** The field switch of an item object: "id" is read with
      `Integer.parseInt`, "price" with `getPrice`, "name" and "description"
      take the text as it is, and every other field is ignored. Each field
      sets its own variable and no other. */
  function ItemField(name: string, text: string, d: ItemDraft): (r: Result<ItemDraft>)
    ensures r.Failure? ==> (name == "id" && r == Failure(NumberFormat(text)))
                           || (name == "price" && (r.error.NumberFormat? || r.error == IndexOutOfRange(-1)))
    ensures r.Success? ==> if name == "id" then ParseInt(text) == Success(r.value.id) else r.value.id == d.id
    ensures r.Success? ==> if name == "price" then GetPrice(text) == Success(r.value.price) else r.value.price == d.price
    ensures r.Success? ==> r.value.name == (if name == "name" then Some(text) else d.name)
    ensures r.Success? ==> r.value.description == (if name == "description" then Some(text) else d.description)
  {
    if name == "id" then
      var id :- ParseInt(text);
      Success(d.(id := id))
    else if name == "name" then Success(d.(name := Some(text)))
    else if name == "price" then
      var price :- GetPrice(text);
      Success(d.(price := price))
    else if name == "description" then Success(d.(description := Some(text)))
    else Success(d)
  }

  /** The field loop of one item object, up to and including its end. */
  function ItemObject(ts: seq<Token>, d: ItemDraft): (r: Result<(ItemDraft, seq<Token>)>)
    ensures r.Success? ==> ClosesObject(ts, r.value.1)
    ensures r.Failure? ==> r.error == Truncated || r.error == Malformed || r.error.NumberFormat?
                           || r.error == IndexOutOfRange(-1)
    decreases |ts|
  {
    if |ts| == 0 then Failure(Truncated)
    else if ts[0].EndObject? then Success((d, ts[1..]))
    else if !ts[0].FieldName? then Failure(Malformed)
    else if |ts| < 2 then Failure(Truncated)
    else
      var d' :- ItemField(ts[0].name, TextOf(ts[1]), d);
      ItemObject(ts[2..], d')
  }

  /** The item loop: one `DefaultItemInfo` per item object, in the order of
      the objects, as long as the next token starts an object. In the
      details mode the token after each object (the next key) is passed
      over. An item whose fields fail the constructor's checks fails the
      whole parse. */
  function ItemList(ts: seq<Token>, mode: ParserMode): (r: Result<seq<DefaultItemInfo>>)
    ensures r.Success? ==> forall k :: 0 <= k < |r.value| ==> ValidDefault(r.value[k])
    decreases |ts|
  {
    if |ts| == 0 || !ts[0].StartObject? then Success([])
    else
      var (d, rest) :- ItemObject(ts[1..], NoItemFields);
      var item :- NewDefaultItemInfo(d.id, d.name, d.price, d.description);
      var others :- ItemList(if mode == ItemInfoMode then After(rest, 1) else rest, mode);
      Success([item] + others)
  }

  /** The loop over the fields of the answer. An "error" field ends the
      parse: with no items when its text starts with "No item(s)", and as a
      failure carrying the text otherwise. An "items" field is read by the
      item loop, after which the parse is done. Other fields are passed
      over. */
  function TopFields(ts: seq<Token>, mode: ParserMode): (r: Result<seq<DefaultItemInfo>>)
    ensures r.Success? ==> forall k :: 0 <= k < |r.value| ==> ValidDefault(r.value[k])
    decreases |ts|
  {
    if |ts| == 0 then Failure(Truncated)
    else if ts[0].EndObject? then Success([])
    else if !ts[0].FieldName? then Failure(Malformed)
    else if ts[0].name == "error" then
      if |ts| < 2 then Failure(Truncated)
      else
        var text := TextOf(ts[1]);
        if StartsWith(text, "No item(s)") then Success([]) else Failure(RemoteError(text))
    else if ts[0].name == "items" then
      ItemList(After(ts, if mode == ItemInfoMode then 3 else 2), mode)
    else TopFields(After(ts, 2), mode)
  }

  /** `parseItems(jp, pm)`: the first token (the start of the answer) is
      passed over and the fields follow. Every item returned satisfies the
      `ItemInfo` contract. */
  function ParseItems(ts: seq<Token>, mode: ParserMode): (r: Result<seq<DefaultItemInfo>>)
    ensures r.Success? ==> forall k :: 0 <= k < |r.value| ==> ValidDefault(r.value[k])
  {
    TopFields(After(ts, 1), mode)
  }

  /** `getItemInfo(jsonFactory, itemId, itemIds...)`, with `fetch` standing
      for opening the address. An address the service has nothing at is an
      error here: the `FileNotFoundException` is not caught. */
  function GetItemInfo(itemId: Int32, itemIds: Option<seq<Int32>>, fetch: string -> Response)
    : (r: Result<seq<DefaultItemInfo>>)
    ensures RunescapeRequests.ItemInfoUrl(itemId, itemIds).Failure? ==> r == Failure(RunescapeRequests.ItemInfoUrl(itemId, itemIds).error)
    ensures (RunescapeRequests.ItemInfoUrl(itemId, itemIds).Success?
             && fetch(RunescapeRequests.ItemInfoUrl(itemId, itemIds).value).NotFound?) ==> r == Failure(Error.NotFound)
    ensures r.Success? ==> forall k :: 0 <= k < |r.value| ==> ValidDefault(r.value[k])
  {
    var url :- RunescapeRequests.ItemInfoUrl(itemId, itemIds);
    Fetched(fetch(url), ItemInfoMode)
  }

  /** `getItemInfo(jsonFactory, List<Integer> itemIds)`. */
  function GetItemInfoList(itemIds: Option<seq<Int32>>, fetch: string -> Response): (r: Result<seq<DefaultItemInfo>>)
    ensures RunescapeRequests.ItemListUrl(itemIds).Failure? ==> r == Failure(RunescapeRequests.ItemListUrl(itemIds).error)
    ensures (RunescapeRequests.ItemListUrl(itemIds).Success?
             && fetch(RunescapeRequests.ItemListUrl(itemIds).value).NotFound?) ==> r == Failure(Error.NotFound)
    ensures r.Success? ==> forall k :: 0 <= k < |r.value| ==> ValidDefault(r.value[k])
  {
    var url :- RunescapeRequests.ItemListUrl(itemIds);
    Fetched(fetch(url), ItemInfoMode)
  }

  /** `getItemInfo(jsonFactory, int[] itemIds)`: the array wrapped as a list. */
  function GetItemInfoArray(itemIds: Option<seq<Int32>>, fetch: string -> Response): (r: Result<seq<DefaultItemInfo>>)
    ensures itemIds.None? ==> r == Failure(NullValue(""))
    ensures r.Success? ==> itemIds.Some? && |itemIds.value| > 0
    ensures r.Success? ==> forall k :: 0 <= k < |r.value| ==> ValidDefault(r.value[k])
  {
    var url :- RunescapeRequests.ItemArrayUrl(itemIds);
    Fetched(fetch(url), ItemInfoMode)
  }

  /** `searchItems(jsonFactory, query)`. */
  function SearchItems(query: Option<string>, fetch: string -> Response): (r: Result<seq<DefaultItemInfo>>)
    ensures query.None? ==> r == Failure(NullValue("query null"))
    ensures query == Some("") ==> r == Failure(IllegalArgument("query empty"))
    ensures r.Success? ==> forall k :: 0 <= k < |r.value| ==> ValidDefault(r.value[k])
  {
    var url :- RunescapeRequests.SearchUrl(query);
    Fetched(fetch(url), SearchMode)
  }

  /** The answer at an address, parsed; nothing at the address is an error. */
  function Fetched(response: Response, mode: ParserMode): (r: Result<seq<DefaultItemInfo>>)
    ensures response.NotFound? ==> r == Failure(Error.NotFound)
    ensures r.Success? ==> forall k :: 0 <= k < |r.value| ==> ValidDefault(r.value[k])
  {
    match response
    case NotFound => Failure(Error.NotFound)
    case Document(ts) => ParseItems(ts, mode)
  }

  // The answers the service sends, written out as token streams.

  function FieldPair(name: string, text: string): seq<Token> {
    [FieldName(name), Scalar(text)]
  }

  /** An item object with its four fields. */
  function ItemTokens(i: DefaultItemInfo): seq<Token> {
    [StartObject] + FieldPair("id", IntToString(i.id)) + FieldPair("name", i.name)
      + FieldPair("price", IntToString(i.price)) + FieldPair("description", i.description) + [EndObject]
  }

  /** The item objects of a search answer, one after the other. */
  function ItemsTokens(items: seq<DefaultItemInfo>): seq<Token> {
    if |items| == 0 then [] else ItemTokens(items[0]) + ItemsTokens(items[1..])
  }

  /** The item objects of a details answer, each under its id as key. */
  function KeyedItemsTokens(items: seq<DefaultItemInfo>): seq<Token> {
    if |items| == 0 then []
    else [FieldName(IntToString(items[0].id))] + ItemTokens(items[0]) + KeyedItemsTokens(items[1..])
  }

  /** `{"items": [item, ...]}`. */
  function SearchDocument(items: seq<DefaultItemInfo>): seq<Token> {
    [StartObject, FieldName("items"), StartArray] + ItemsTokens(items) + [EndArray, EndObject]
  }

  /** `{"items": {"id": item, ...}}`. */
  function ItemInfoDocument(items: seq<DefaultItemInfo>): seq<Token> {
    [StartObject, FieldName("items"), StartObject] + KeyedItemsTokens(items) + [EndObject, EndObject]
  }

  /** What reading an item's own object leaves in the variables. */
  function DraftOf(i: DefaultItemInfo): ItemDraft {
    ItemDraft(i.id, Some(i.name), i.price, Some(i.description))
  }

  /** One field of an item object read, and the loop goes on after it. */
  lemma ItemObjectStep(name: string, text: string, rest: seq<Token>, d: ItemDraft)
    requires ItemField(name, text, d).Success?
    ensures ItemObject(FieldPair(name, text) + rest, d) == ItemObject(rest, ItemField(name, text, d).value)
  {
    var ts := FieldPair(name, text) + rest;
    assert ts[0] == FieldName(name) && ts[1] == Scalar(text);
    assert ts[2..] == rest;
  }

  /** A field the item switch does not know leaves every variable as it was. */
  lemma ItemObjectSkipsUnknown(name: string, text: string, rest: seq<Token>, d: ItemDraft)
    requires name != "id" && name != "name" && name != "price" && name != "description"
    ensures ItemObject(FieldPair(name, text) + rest, d) == ItemObject(rest, d)
  {
    ItemObjectStep(name, text, rest, d);
  }

  /** A later "name" or "description" field overwrites an earlier one. */
  lemma LaterFieldWins(name: string, first: string, second: string, d: ItemDraft)
    requires name == "name" || name == "description"
    ensures ItemField(name, second, ItemField(name, first, d).value) == ItemField(name, second, d)
  {
  }

  /** The object a valid item is written as reads back into its own fields. */
  lemma ItemObjectOf(i: DefaultItemInfo, rest: seq<Token>)
    requires ValidDefault(i)
    ensures ItemObject(ItemTokens(i)[1..] + rest, NoItemFields) == Success((DraftOf(i), rest))
  {
    var idText, priceText := IntToString(i.id), IntToString(i.price);
    ParseIntRoundTrip(i.id);
    GetPriceOfInt(i.price);
    var r4 := [EndObject] + rest;
    var r3 := FieldPair("description", i.description) + r4;
    var r2 := FieldPair("price", priceText) + r3;
    var r1 := FieldPair("name", i.name) + r2;
    ItemTokensSplit(i, rest);
    var d1 := NoItemFields.(id := i.id);
    var d2 := d1.(name := Some(i.name));
    var d3 := d2.(price := i.price);
    assert ItemField("id", idText, NoItemFields) == Success(d1);
    ItemObjectStep("id", idText, r1, NoItemFields);
    assert ItemField("name", i.name, d1) == Success(d2);
    ItemObjectStep("name", i.name, r2, d1);
    assert ItemField("price", priceText, d2) == Success(d3);
    ItemObjectStep("price", priceText, r3, d2);
    assert ItemField("description", i.description, d3) == Success(DraftOf(i));
    ItemObjectStep("description", i.description, r4, d3);
  }

  /** The item object regrouped field by field. */
  lemma ItemTokensSplit(i: DefaultItemInfo, rest: seq<Token>)
    ensures ItemTokens(i)[1..] + rest
         == FieldPair("id", IntToString(i.id)) + (FieldPair("name", i.name) + (FieldPair("price", IntToString(i.price))
              + (FieldPair("description", i.description) + ([EndObject] + rest))))
  {
    var a, b, c, e := FieldPair("id", IntToString(i.id)), FieldPair("name", i.name),
                      FieldPair("price", IntToString(i.price)), FieldPair("description", i.description);
    DropHead([StartObject], a, b, c, e, [EndObject], rest);
  }

  /** Dropping a one-token head from a concatenation, regrouped to the right. */
  lemma DropHead(h: seq<Token>, a: seq<Token>, b: seq<Token>, c: seq<Token>, e: seq<Token>, f: seq<Token>, rest: seq<Token>)
    requires |h| == 1
    ensures (h + a + b + c + e + f)[1..] + rest == a + (b + (c + (e + (f + rest))))
  {
    assert (h + a + b + c + e + f)[1..] == a + b + c + e + f;
  }

  /** Reading the object of a valid item gives that item, and the item loop
      goes on after the object. */
  lemma ItemListStep(i: DefaultItemInfo, rest: seq<Token>, mode: ParserMode, others: seq<DefaultItemInfo>)
    requires ValidDefault(i)
    requires ItemList(if mode == ItemInfoMode then After(rest, 1) else rest, mode) == Success(others)
    ensures ItemList(ItemTokens(i) + rest, mode) == Success([i] + others)
  {
    var ts := ItemTokens(i) + rest;
    assert ts[0] == StartObject;
    assert ts[1..] == ItemTokens(i)[1..] + rest;
    ItemObjectOf(i, rest);
  }

  /** A search answer's item objects are read back as the items, in order. */
  lemma {:induction false} SearchItemsRoundTrip(items: seq<DefaultItemInfo>, tail: seq<Token>)
    requires forall k :: 0 <= k < |items| ==> ValidDefault(items[k])
    requires |tail| > 0 && !tail[0].StartObject?
    ensures ItemList(ItemsTokens(items) + tail, SearchMode) == Success(items)
    decreases |items|
  {
    if |items| == 0 {
      assert ItemsTokens(items) + tail == tail;
    } else {
      var head, more := ItemTokens(items[0]), ItemsTokens(items[1..]);
      SearchItemsRoundTrip(items[1..], tail);
      assert ItemsTokens(items) == head + more;
      Associate(head, more, tail);
      ItemListStep(items[0], more + tail, SearchMode, items[1..]);
      assert [items[0]] + items[1..] == items;
    }
  }

  /** A details answer's item objects are read back as the items, in order:
      the key before each object is passed over. */
  lemma {:induction false} KeyedItemsRoundTrip(items: seq<DefaultItemInfo>, tail: seq<Token>)
    requires forall k :: 0 <= k < |items| ==> ValidDefault(items[k])
    requires |tail| > 1 && !tail[1].StartObject?
    ensures ItemList(After(KeyedItemsTokens(items) + tail, 1), ItemInfoMode) == Success(items)
    decreases |items|
  {
    if |items| == 0 {
      assert KeyedItemsTokens(items) + tail == tail;
    } else {
      var key, head, more := FieldName(IntToString(items[0].id)), ItemTokens(items[0]), KeyedItemsTokens(items[1..]);
      var rest := more + tail;
      KeyedItemsRoundTrip(items[1..], tail);
      assert KeyedItemsTokens(items) == [key] + head + more;
      Associate([key] + head, more, tail);
      Associate([key], head, rest);
      assert After([key] + (head + rest), 1) == head + rest;
      ItemListStep(items[0], rest, ItemInfoMode, items[1..]);
      assert [items[0]] + items[1..] == items;
    }
  }

  /** The tokens after the first one, two or three of an answer's opening. */
  lemma OpenDocument(start: Token, field: Token, value: Token, body: seq<Token>)
    ensures After([start, field, value] + body, 1) == [field, value] + body
    ensures After([field, value] + body, 2) == body
    ensures After([field, value] + body, 3) == After(body, 1)
  {
    assert ([field, value] + body)[2..] == body;
    if |body| > 0 {
      assert ([field, value] + body)[3..] == body[1..];
    }
  }

  /** A search answer listing valid items is parsed into those items, in
      the order of the answer. */
  lemma SearchDocumentRoundTrip(items: seq<DefaultItemInfo>)
    requires forall k :: 0 <= k < |items| ==> ValidDefault(items[k])
    ensures ParseItems(SearchDocument(items), SearchMode) == Success(items)
  {
    SearchStopsAfterItems(items, [EndObject]);
    assert [EndArray] + [EndObject] == [EndArray, EndObject];
  }

  /** The parse is over once the array of items is closed: whatever follows
      it is not read. */
  lemma SearchStopsAfterItems(items: seq<DefaultItemInfo>, more: seq<Token>)
    requires forall k :: 0 <= k < |items| ==> ValidDefault(items[k])
    ensures ParseItems([StartObject, FieldName("items"), StartArray] + ItemsTokens(items) + ([EndArray] + more), SearchMode)
         == Success(items)
  {
    var tail := [EndArray] + more;
    var body := ItemsTokens(items) + tail;
    Associate([StartObject, FieldName("items"), StartArray], ItemsTokens(items), tail);
    OpenDocument(StartObject, FieldName("items"), StartArray, body);
    ItemsFieldRead([FieldName("items"), StartArray] + body, SearchMode);
    SearchItemsRoundTrip(items, tail);
  }

  /** A details answer holding valid items is parsed into those items, in
      the order of the answer. */
  lemma ItemInfoDocumentRoundTrip(items: seq<DefaultItemInfo>)
    requires forall k :: 0 <= k < |items| ==> ValidDefault(items[k])
    ensures ParseItems(ItemInfoDocument(items), ItemInfoMode) == Success(items)
  {
    var tail := [EndObject, EndObject];
    var body := KeyedItemsTokens(items) + tail;
    Associate([StartObject, FieldName("items"), StartObject], KeyedItemsTokens(items), tail);
    OpenDocument(StartObject, FieldName("items"), StartObject, body);
    ItemsFieldRead([FieldName("items"), StartObject] + body, ItemInfoMode);
    KeyedItemsRoundTrip(items, tail);
  }

  /** An "items" field hands the tokens after its value's start to the item loop. */
  lemma ItemsFieldRead(ts: seq<Token>, mode: ParserMode)
    requires |ts| > 0 && ts[0] == FieldName("items")
    ensures TopFields(ts, mode) == ItemList(After(ts, if mode == ItemInfoMode then 3 else 2), mode)
  {
  }

  /** An "error" field whose text starts with "No item(s)" means no items;
      any other error text is a failure carrying that text. */
  lemma ErrorField(text: string, rest: seq<Token>, mode: ParserMode)
    ensures StartsWith(text, "No item(s)") ==> ParseItems([StartObject] + FieldPair("error", text) + rest, mode) == Success([])
    ensures !StartsWith(text, "No item(s)") ==> ParseItems([StartObject] + FieldPair("error", text) + rest, mode) == Failure(RemoteError(text))
  {
    var ts := [StartObject] + FieldPair("error", text) + rest;
    assert After(ts, 1) == FieldPair("error", text) + rest;
  }

  /** A field of the answer other than "error" and "items" is passed over. */
  lemma TopFieldsSkipsUnknown(name: string, value: Token, rest: seq<Token>, mode: ParserMode)
    requires name != "error" && name != "items"
    ensures TopFields([FieldName(name), value] + rest, mode) == TopFields(rest, mode)
  {
    assert After([FieldName(name), value] + rest, 2) == rest;
  }

  /** An item object without a "price" field keeps the price at 0, which the
      `DefaultItemInfo` constructor rejects. */
  lemma MissingPriceFails(id: Int32, name: string, description: string, rest: seq<Token>, mode: ParserMode)
    requires id >= 0 && |name| > 0
    ensures ItemList([StartObject] + FieldPair("id", IntToString(id)) + FieldPair("name", name)
                       + FieldPair("description", description) + [EndObject] + rest, mode)
            == Failure(IllegalArgument(Reason("invalid price", 0)))
  {
    var a, b, c := FieldPair("id", IntToString(id)), FieldPair("name", name), FieldPair("description", description);
    var ts := [StartObject] + a + b + c + [EndObject] + rest;
    var r3 := [EndObject] + rest;
    var r2 := c + r3;
    var r1 := b + r2;
    assert ts[0] == StartObject;
    assert ts[1..] == a + r1;
    ParseIntRoundTrip(id);
    var d1 := NoItemFields.(id := id);
    var d2 := d1.(name := Some(name));
    var d3 := d2.(description := Some(description));
    ItemObjectStep("id", IntToString(id), r1, NoItemFields);
    ItemObjectStep("name", name, r2, d1);
    ItemObjectStep("description", description, r3, d2);
    assert ItemObject(ts[1..], NoItemFields) == Success((d3, rest));
  }

  /** The list lookup asks for the same address as the variadic lookup on
      the list's head and tail, so the two give the same items. */
  lemma GetItemInfoListIsVariadic(ids: seq<Int32>, fetch: string -> Response)
    requires |ids| > 0 && forall k :: 0 <= k < |ids| ==> ids[k] >= 0
    ensures GetItemInfoList(Some(ids), fetch) == GetItemInfo(ids[0], Some(ids[1..]), fetch)
  {
    RunescapeRequests.ItemListUrlIsVariadic(ids);
  }
}
