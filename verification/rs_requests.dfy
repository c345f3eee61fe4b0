/** The addresses of the unofficial Runescape item service
    (`RunescapeAPI.Request`): a search, the details of a list of items, and
    an item's thumbnail.
 */
module RunescapeRequests {
  import opened Results
  import opened Numbers
  import opened Text
  import opened UriQuoting

  const UrlScheme: string := "http"
  const UrlHost: string := "rsapi.net"
  const UrlPath: string := "/ge/"
  const SearchService: string := "search/"
  const ItemService: string := "item/"
  const ThumbnailService: string := "thumbnail/"
  /** The ending every search and item address carries. */
  const Format: string := ".format"

  /** The scheme and host part, up to where the path starts. */
  function Authority(): string {
    UrlScheme + "://" + UrlHost
  }

  /** `URL_BASE`: the scheme, the host and the path of the service. */
  function UrlBase(): string {
    Authority() + UrlPath
  }

  /** The path a search for `query` asks for, before it is quoted. */
  function SearchPath(query: string): string {
    UrlPath + SearchService + query + Format
  }

  /** `getSearchUrl(query)`: the address of a search. The path holding the
      query is quoted as `new URI(scheme, host, path, null)` quotes it, so the
      query can be recovered from the address. */
  function SearchUrl(query: Option<string>): (r: Result<string>)
    ensures r.Success? <==> query.Some? && |query.value| > 0
    ensures query.None? ==> r == Failure(NullValue("query null"))
    ensures query == Some("") ==> r == Failure(IllegalArgument("query empty"))
    ensures r.Success? ==> StartsWith(r.value, Authority())
                           && Unquote(r.value[|Authority()|..]) == SearchPath(query.value)
    ensures r.Success? ==> ValidPathText(r.value[|Authority()|..])
  {
    if query.None? then Failure(NullValue("query null"))
    else if |query.value| == 0 then Failure(IllegalArgument("query empty"))
    else
      var path := Quote(SearchPath(query.value));
      var url := Authority() + path;
      assert url[..|Authority()|] == Authority() && url[|Authority()|..] == path;
      UnquoteQuote(SearchPath(query.value));
      Success(url)
  }

  /** Different queries give different search addresses. */
  lemma SearchUrlInjective(a: string, b: string)
    requires |a| > 0 && |b| > 0
    ensures SearchUrl(Some(a)) == SearchUrl(Some(b)) ==> a == b
  {
    if SearchUrl(Some(a)) == SearchUrl(Some(b)) {
      assert SearchPath(a) == SearchPath(b);
      MiddleInjective(UrlPath + SearchService, a, b, Format);
    }
  }

  /** Texts between the same prefix and suffix are equal when the whole texts are. */
  lemma MiddleInjective(x: string, a: string, b: string, y: string)
    ensures x + a + y == x + b + y ==> a == b
  {
    if x + a + y == x + b + y {
      assert |a| == |b|;
      assert a == (x + a + y)[|x|..|x| + |a|];
      assert b == (x + b + y)[|x|..|x| + |b|];
    }
  }

  /** Only the query can need quoting: the fixed parts of the path are
      kept as they are. */
  lemma SearchUrlQuotesQuery(query: string)
    requires |query| > 0
    ensures SearchUrl(Some(query)) == Success(UrlBase() + SearchService + Quote(query) + Format)
  {
    PlainSearchParts();
    var dir := UrlPath + SearchService;
    QuoteAppend(UrlPath, SearchService);
    assert Quote(dir) == dir;
    QuoteAppend(dir, query);
    assert Quote(dir + query) == dir + Quote(query);
    QuoteAppend(dir + query, Format);
    assert Quote(SearchPath(query)) == dir + Quote(query) + Format;
    Regroup(Authority(), UrlPath, SearchService, Quote(query), Format);
  }

  /** A query of letters and digits (or any character a path may hold)
      appears in the address as it is. */
  lemma SearchUrlOfPlainQuery(query: string)
    requires |query| > 0
    requires forall i :: 0 <= i < |query| ==> IsPathChar(query[i])
    ensures SearchUrl(Some(query)) == Success(UrlBase() + SearchService + query + Format)
  {
    PlainPathChars(query);
    QuotePlain(query);
    SearchUrlQuotesQuery(query);
  }

  /** The fixed parts of a search path hold no character that is quoted. */
  lemma PlainSearchParts()
    ensures Quote(UrlPath) == UrlPath
    ensures Quote(SearchService) == SearchService
    ensures Quote(Format) == Format
  {
    PlainServicePath();
    PlainFormat();
    QuotePlain(UrlPath);
    QuotePlain(SearchService);
    QuotePlain(Format);
  }

  lemma PlainServicePath()
    ensures PlainPath(UrlPath) && PlainPath(SearchService)
  {
  }

  lemma PlainFormat()
    ensures PlainPath(Format)
  {
  }

  /** A space between two words of a query is sent as "%20". */
  lemma SearchUrlQuotesSpace(word1: string, word2: string)
    requires PlainPath(word1) && PlainPath(word2)
    ensures SearchUrl(Some(word1 + " " + word2)) == Success(UrlBase() + SearchService + (word1 + "%20" + word2) + Format)
  {
    var query := word1 + " " + word2;
    SearchUrlQuotesQuery(query);
    assert Quote(query) == word1 + "%20" + word2 by {
      QuoteAppend(word1 + " ", word2);
      QuoteAppend(word1, " ");
      QuotePlain(word1);
      QuotePlain(word2);
      QuoteSpace();
    }
  }

  lemma QuoteSpace()
    ensures Quote(" ") == "%20"
  {
    assert Quote(" ") == Escape(' ') + Quote("");
  }

  /** Concatenation regrouped, on texts the solver need not look into. */
  lemma Regroup(a: string, b: string, c: string, d: string, e: string)
    ensures a + (b + c + d + e) == a + b + c + d + e
  {
  }

  /** The ids after the first one, each preceded by a comma, in order. */
  function CommaIds(ids: seq<int>): (s: string)
    ensures |ids| == 0 ==> s == ""
  {
    if |ids| == 0 then "" else "," + IntToString(ids[0]) + CommaIds(ids[1..])
  }

  /** The id list of an item address: the first id, then a comma before each
      further one, duplicates kept. */
  function IdsText(first: int, others: seq<int>): string {
    IntToString(first) + CommaIds(others)
  }

  /** The reading of an id list: the text is split at its commas, and each
      part is read with `Integer.parseInt`. */
  function ReadIds(s: string): (r: Result<seq<Int32>>)
    ensures r.Success? ==> |r.value| > 0
    decreases |s|
  {
    var k := IndexOf(s, ',');
    var head :- ParseInt(s[..k]);
    if k == |s| then Success([head])
    else
      var tail :- ReadIds(s[k + 1..]);
      Success([head] + tail)
  }

  /** The text of an `int` holds no comma. */
  lemma IntTextHasNoComma(i: int)
    ensures forall k :: 0 <= k < |IntToString(i)| ==> IntToString(i)[k] != ','
  {
    var s := IntToString(i);
    forall k | 0 <= k < |s|
      ensures s[k] != ','
    {
      if i < 0 && k > 0 {
        assert s[k] == s[1..][k - 1];
      }
    }
  }

  /** The id list of an address reads back as the ids it was made from, in
      order and with duplicates. */
  lemma {:induction false} ReadIdsText(first: Int32, others: seq<Int32>)
    ensures ReadIds(IdsText(first, others)) == Success([first] + others)
    decreases |others|
  {
    if |others| == 0 {
      ReadIdsSingle(first, others);
    } else {
      ReadIdsText(others[0], others[1..]);
      assert [others[0]] + others[1..] == others;
      ReadIdsMore(first, others);
    }
  }

  /** A list of one id reads back as that id. */
  lemma ReadIdsSingle(first: Int32, others: seq<Int32>)
    requires |others| == 0
    ensures ReadIds(IdsText(first, others)) == Success([first] + others)
  {
    var head := IntToString(first);
    IntTextHasNoComma(first);
    ParseIntRoundTrip(first);
    assert IdsText(first, others) == head + "";
    assert head + "" == head;
    ReadIdsLast(head, first);
    assert [first] + others == [first];
  }

  /** One more id in front of a list that reads back is read back with it. */
  lemma ReadIdsMore(first: Int32, others: seq<Int32>)
    requires |others| > 0
    requires ReadIds(IdsText(others[0], others[1..])) == Success(others)
    ensures ReadIds(IdsText(first, others)) == Success([first] + others)
  {
    var head := IntToString(first);
    var rest := IdsText(others[0], others[1..]);
    IntTextHasNoComma(first);
    ParseIntRoundTrip(first);
    Associate(",", IntToString(others[0]), CommaIds(others[1..]));
    assert CommaIds(others) == "," + rest;
    ReadIdsCons(head, first, rest);
  }

  /** A last part is read on its own. */
  lemma ReadIdsLast(x: string, v: Int32)
    requires forall k :: 0 <= k < |x| ==> x[k] != ','
    requires ParseInt(x) == Success(v)
    ensures ReadIds(x) == Success([v])
  {
    IndexOfAfter(x, "", ',');
    assert x + "" == x;
    assert x[..|x|] == x;
  }

  /** A part followed by a comma is read, and the reading goes on after the comma. */
  lemma ReadIdsCons(x: string, v: Int32, y: string)
    requires forall k :: 0 <= k < |x| ==> x[k] != ','
    requires ParseInt(x) == Success(v)
    requires ReadIds(y).Success?
    ensures ReadIds(x + ("," + y)) == Success([v] + ReadIds(y).value)
  {
    var s := x + ("," + y);
    IndexOfAfter(x, "," + y, ',');
    assert s[..|x|] == x;
    assert s[|x| + 1..] == y;
  }

  /** The position of the first negative id, if any. */
  function FirstNegative(ids: seq<Int32>): (r: Option<nat>)
    ensures r.None? <==> forall i :: 0 <= i < |ids| ==> ids[i] >= 0
    ensures r.Some? ==> r.value < |ids| && ids[r.value] < 0
                        && forall i :: 0 <= i < r.value ==> ids[i] >= 0
  {
    if |ids| == 0 then None
    else if ids[0] < 0 then Some(0)
    else match FirstNegative(ids[1..])
      case None => None
      case Some(i) => Some(i + 1)
  }

  /** The message of the check on the id at position `i` of a list. */
  function IndexReason(i: nat, id: int): string {
    Reason("invalid itemIds[" + NatToString(i) + "]", id)
  }

  /** The address of the details of the items with the given ids. */
  function ItemsAddress(first: int, others: seq<int>): string {
    UrlBase() + ItemService + IdsText(first, others) + Format
  }

  /** The part of an item address between the service name and ".format". */
  function AddressIds(url: string): string
    requires |url| >= |UrlBase() + ItemService| + |Format|
  {
    url[|UrlBase() + ItemService|..|url| - |Format|]
  }

  /** The ids can be read back from the middle of an items address. */
  lemma ItemsAddressIds(first: Int32, others: seq<Int32>)
    ensures |ItemsAddress(first, others)| >= |UrlBase() + ItemService| + |Format|
    ensures StartsWith(ItemsAddress(first, others), UrlBase() + ItemService)
    ensures ReadIds(AddressIds(ItemsAddress(first, others))) == Success([first] + others)
  {
    var url := ItemsAddress(first, others);
    var ids := IdsText(first, others);
    assert url == (UrlBase() + ItemService) + ids + Format;
    assert url[..|UrlBase() + ItemService|] == UrlBase() + ItemService;
    assert AddressIds(url) == ids;
    ReadIdsText(first, others);
  }

  /** `getItemInfoUrl(itemId, itemIds...)`: the first id is checked, then the
      presence of the others, then each of the others in order; the address
      lists all of them in the order given. */
  function ItemInfoUrl(itemId: Int32, itemIds: Option<seq<Int32>>): (r: Result<string>)
    ensures r.Success? <==> itemId >= 0 && itemIds.Some? && forall i :: 0 <= i < |itemIds.value| ==> itemIds.value[i] >= 0
    ensures itemId < 0 ==> r == Failure(IllegalArgument(Reason("invalid itemId", itemId)))
    ensures itemId >= 0 && itemIds.None? ==> r == Failure(NullValue("itemIds null"))
    ensures r.Failure? && itemId >= 0 && itemIds.Some? ==>
      exists i :: 0 <= i < |itemIds.value| && itemIds.value[i] < 0
                  && r == Failure(IllegalArgument(IndexReason(i, itemIds.value[i])))
                  && forall j :: 0 <= j < i ==> itemIds.value[j] >= 0
    ensures r.Success? ==> |r.value| >= |UrlBase() + ItemService| + |Format|
                           && ReadIds(AddressIds(r.value)) == Success([itemId] + itemIds.value)
    ensures r.Success? ==> r.value == ItemsAddress(itemId, itemIds.value)
  {
    if itemId < 0 then Failure(IllegalArgument(Reason("invalid itemId", itemId)))
    else if itemIds.None? then Failure(NullValue("itemIds null"))
    else match FirstNegative(itemIds.value)
      case Some(i) => Failure(IllegalArgument(IndexReason(i, itemIds.value[i])))
      case None =>
        ItemsAddressIds(itemId, itemIds.value);
        Success(ItemsAddress(itemId, itemIds.value))
  }

  /** `getItemInfoUrl(List<Integer> itemIds)`: the list must be present and
      not empty, and each id is checked in order. The address lists the ids
      in the order given. */
  function ItemListUrl(itemIds: Option<seq<Int32>>): (r: Result<string>)
    ensures r.Success? <==> itemIds.Some? && |itemIds.value| > 0 && forall i :: 0 <= i < |itemIds.value| ==> itemIds.value[i] >= 0
    ensures itemIds.None? ==> r == Failure(NullValue("itemIds null"))
    ensures itemIds == Some([]) ==> r == Failure(IllegalArgument("itemIds empty"))
    ensures r.Failure? && itemIds.Some? && |itemIds.value| > 0 ==>
      exists i :: 0 <= i < |itemIds.value| && itemIds.value[i] < 0
                  && r == Failure(IllegalArgument(IndexReason(i, itemIds.value[i])))
                  && forall j :: 0 <= j < i ==> itemIds.value[j] >= 0
    ensures r.Success? ==> |r.value| >= |UrlBase() + ItemService| + |Format|
                           && ReadIds(AddressIds(r.value)) == Success(itemIds.value)
    ensures r.Success? ==> r.value == ItemsAddress(itemIds.value[0], itemIds.value[1..])
  {
    if itemIds.None? then Failure(NullValue("itemIds null"))
    else if |itemIds.value| == 0 then Failure(IllegalArgument("itemIds empty"))
    else
      var ids := itemIds.value;
      match FirstNegative(ids)
      case Some(i) =>
        assert ids[i] < 0 && forall j :: 0 <= j < i ==> ids[j] >= 0;
        Failure(IllegalArgument(IndexReason(i, ids[i])))
      case None =>
        ItemsAddressIds(ids[0], ids[1..]);
        assert [ids[0]] + ids[1..] == ids;
        Success(ItemsAddress(ids[0], ids[1..]))
  }

  /** `getItemInfoUrl(int[] itemIds)`: the array is wrapped as a list and
      handed to the list form; wrapping a missing array fails with a
      `NullPointerException` that carries no message. */
  function ItemArrayUrl(itemIds: Option<seq<Int32>>): (r: Result<string>)
    ensures r.Success? <==> itemIds.Some? && |itemIds.value| > 0 && forall i :: 0 <= i < |itemIds.value| ==> itemIds.value[i] >= 0
    ensures itemIds.None? ==> r == Failure(NullValue(""))
    ensures r.Success? ==> |r.value| >= |UrlBase() + ItemService| + |Format|
                           && ReadIds(AddressIds(r.value)) == Success(itemIds.value)
    ensures r.Success? ==> r.value == ItemsAddress(itemIds.value[0], itemIds.value[1..])
  {
    if itemIds.None? then Failure(NullValue("")) else ItemListUrl(itemIds)
  }

  /** The list form and the variadic form agree: a non-empty list is
      accepted exactly when its head and tail are, and then both give the
      same address. Both reject a negative id; only the message differs,
      since the variadic form counts positions after the first id. */
  lemma ItemListUrlIsVariadic(ids: seq<Int32>)
    requires |ids| > 0
    ensures ItemListUrl(Some(ids)).Success? <==> ItemInfoUrl(ids[0], Some(ids[1..])).Success?
    ensures ItemListUrl(Some(ids)).Success? ==> ItemListUrl(Some(ids)) == ItemInfoUrl(ids[0], Some(ids[1..]))
    ensures ids[0] < 0 ==> ItemListUrl(Some(ids)) == Failure(IllegalArgument(IndexReason(0, ids[0])))
                           && ItemInfoUrl(ids[0], Some(ids[1..])) == Failure(IllegalArgument(Reason("invalid itemId", ids[0])))
  {
    if forall i :: 0 <= i < |ids[1..]| ==> ids[1..][i] >= 0 {
      if ids[0] >= 0 {
        assert forall i :: 0 <= i < |ids| ==> ids[i] >= 0 by {
          forall i | 0 <= i < |ids|
            ensures ids[i] >= 0
          {
            if i > 0 {
              assert ids[i] == ids[1..][i - 1];
            }
          }
        }
      }
    } else {
      var i :| 0 <= i < |ids[1..]| && ids[1..][i] < 0;
      assert ids[i + 1] < 0;
    }
  }

  /** The array form gives what the list form gives for the same ids. */
  lemma ItemArrayUrlIsList(ids: seq<Int32>)
    ensures ItemArrayUrl(Some(ids)) == ItemListUrl(Some(ids))
  {
  }

  /** Two accepted lists give the same address only when they are the same
      list, order and duplicates included. */
  lemma ItemListUrlInjective(a: seq<Int32>, b: seq<Int32>)
    requires ItemListUrl(Some(a)).Success? && ItemListUrl(Some(b)).Success?
    ensures ItemListUrl(Some(a)) == ItemListUrl(Some(b)) ==> a == b
  {
  }

  /** The ids 4151, 4151 and 11694 give ".../item/4151,4151,11694.format",
      the repeated id kept. */
  lemma ItemInfoUrlExample()
    ensures ItemInfoUrl(4151, Some([4151, 11694])) == Success(UrlBase() + ItemService + "4151,4151,11694" + Format)
  {
    ExampleIdsText();
    assert FirstNegative([4151, 11694]) == None;
  }

  /** The service's base address spelled out. */
  lemma UrlBaseText()
    ensures UrlBase() == "http://rsapi.net/ge/"
  {
  }

  lemma ExampleIdsText()
    ensures IdsText(4151, [4151, 11694]) == "4151,4151,11694"
  {
    ExampleIdTexts();
    assert CommaIds([11694]) == ",11694" by {
      assert [11694][1..] == [];
    }
    assert CommaIds([4151, 11694]) == ",4151" + ",11694" by {
      assert [4151, 11694][1..] == [11694];
    }
  }

  lemma ExampleIdTexts()
    ensures IntToString(4151) == "4151" && IntToString(11694) == "11694"
  {
    NatToStringStep(4151);
    NatToStringStep(415);
    NatToStringStep(41);
    NatToStringStep(11694);
    NatToStringStep(1169);
    NatToStringStep(116);
    NatToStringStep(11);
  }

  /** `getThumbnailURL(itemId)`: the thumbnail address of a non-negative
      item id, which ends in the id. */
  function ThumbnailUrl(itemId: Int32): (r: Result<string>)
    ensures r.Success? <==> itemId >= 0
    ensures r.Failure? ==> r.error == IllegalArgument(Reason("invalid itemId", itemId))
    ensures r.Success? ==> StartsWith(r.value, UrlBase() + ThumbnailService)
                           && ParseInt(r.value[|UrlBase() + ThumbnailService|..]) == Success(itemId)
    ensures r.Success? ==> r.value == UrlBase() + ThumbnailService + IntToString(itemId)
  {
    if itemId < 0 then Failure(IllegalArgument(Reason("invalid itemId", itemId)))
    else
      var prefix := UrlBase() + ThumbnailService;
      var url := prefix + IntToString(itemId);
      assert url[..|prefix|] == prefix && url[|prefix|..] == IntToString(itemId);
      ParseIntRoundTrip(itemId);
      Success(url)
  }

  /** The thumbnail address of item 0 is ".../thumbnail/0". */
  lemma ThumbnailUrlExample()
    ensures ThumbnailUrl(0) == Success("http://rsapi.net/ge/thumbnail/0")
  {
    assert IntToString(0) == "0";
    ThumbnailText();
  }

  lemma ThumbnailText()
    ensures UrlBase() + ThumbnailService + "0" == "http://rsapi.net/ge/thumbnail/0"
  {
  }
}
