/** The addresses of the Grand Exchange item database service
    (`GrandExchangeAPI.Request`): an item's details, an item's price graph,
    a category's summary and a page of a category's items.

    Every address is the text handed to `new URL`; these texts are always
    well-formed, so only the argument checks can fail.
 */
module GrandExchangeRequests {
  import opened Results
  import opened Numbers
  import opened Text
  import Categories

  const UrlBase: string := "http://services.runescape.com/m=itemdb_rs/api/"
  const GraphService: string := "graph/"
  const CatalogueService: string := "catalogue/"
  const DetailRequest: string := "detail.json?item="
  const CategoryRequest: string := "category.json?category="
  const ItemsRequest: string := "items.json?category="

  /** The fixed part before the item id of a details address. */
  function DetailPrefix(): string {
    UrlBase + CatalogueService + DetailRequest
  }

  /** The fixed part before the item id of a graph address. */
  function GraphPrefix(): string {
    UrlBase + GraphService
  }

  /** The fixed part before the category id of a category address. */
  function CategoryPrefix(): string {
    UrlBase + CatalogueService + CategoryRequest
  }

  /** The fixed part before the category id of an items address. */
  function ItemsPrefix(): string {
    UrlBase + CatalogueService + ItemsRequest
  }

  /** `Character.isLetter` on the ASCII range. */
  predicate IsLetter(c: char) {
    'a' <= c <= 'z' || 'A' <= c <= 'Z'
  }

  /** `getItemInfoUrl(itemId)`: the details address of a non-negative item id.
      The id can be read back from the end of the address. */
  function ItemInfoUrl(itemId: Int32): (r: Result<string>)
    ensures r.Success? <==> itemId >= 0
    ensures r.Failure? ==> r.error == IllegalArgument(Reason("invalid itemId", itemId))
    ensures r.Success? ==> r.value == DetailPrefix() + IntToString(itemId)
    ensures r.Success? ==> StartsWith(r.value, DetailPrefix())
                           && ParseInt(r.value[|DetailPrefix()|..]) == Success(itemId)
  {
    if itemId < 0 then Failure(IllegalArgument(Reason("invalid itemId", itemId)))
    else
      var url := DetailPrefix() + IntToString(itemId);
      assert url[..|DetailPrefix()|] == DetailPrefix() && url[|DetailPrefix()|..] == IntToString(itemId);
      ParseIntRoundTrip(itemId);
      Success(url)
  }

  /** `getItemGraphDataUrl(itemId)`: the graph address of a non-negative
      item id, the id followed by ".json". */
  function ItemGraphDataUrl(itemId: Int32): (r: Result<string>)
    ensures r.Success? <==> itemId >= 0
    ensures r.Failure? ==> r.error == IllegalArgument(Reason("invalid itemId", itemId))
    ensures r.Success? ==> r.value == GraphPrefix() + IntToString(itemId) + ".json"
    ensures r.Success? ==> StartsWith(r.value, GraphPrefix()) && |r.value| >= |GraphPrefix()| + 5
                           && r.value[|r.value| - 5..] == ".json"
                           && ParseInt(r.value[|GraphPrefix()|..|r.value| - 5]) == Success(itemId)
  {
    if itemId < 0 then Failure(IllegalArgument(Reason("invalid itemId", itemId)))
    else
      var id := IntToString(itemId);
      var url := GraphPrefix() + id + ".json";
      assert url[..|GraphPrefix()|] == GraphPrefix();
      assert url[|GraphPrefix()|..|url| - 5] == id;
      assert url[|url| - 5..] == ".json";
      ParseIntRoundTrip(itemId);
      Success(url)
  }

  /** `getCategoryInfoUrl(category)`: the summary address of a category,
      from which the category can be recovered through its id. */
  function CategoryInfoUrl(category: Option<Categories.Category>): (r: Result<string>)
    ensures r.Success? <==> category.Some?
    ensures category.None? ==> r == Failure(NullValue("category null"))
    ensures r.Success? ==> r.value == CategoryPrefix() + IntToString(Categories.Id(category.value))
    ensures r.Success? ==> StartsWith(r.value, CategoryPrefix())
                           && ParseInt(r.value[|CategoryPrefix()|..]) == Success(Categories.Id(category.value))
  {
    if category.None? then Failure(NullValue("category null"))
    else
      var id := Categories.Id(category.value);
      Categories.EveryCategoryListed(category.value);
      var url := CategoryPrefix() + IntToString(id);
      assert url[..|CategoryPrefix()|] == CategoryPrefix() && url[|CategoryPrefix()|..] == IntToString(id);
      ParseIntRoundTrip(id);
      Success(url)
  }

  /** The query part of an items address after the category id. */
  function ItemsQuery(alpha: char, page: int): string {
    "&alpha=" + [alpha] + "&page=" + IntToString(page)
  }

  /** `getCategoryPriceUrl(category, alpha, page)`: the address of one page
      of the items of a category whose names start with a letter. The checks
      run in the order category, letter, page. */
  function CategoryPriceUrl(category: Option<Categories.Category>, alpha: char, page: Int32): (r: Result<string>)
    ensures r.Success? <==> category.Some? && IsLetter(alpha) && page > 0
    ensures category.None? ==> r == Failure(NullValue("category null"))
    ensures category.Some? && !IsLetter(alpha) ==> r == Failure(IllegalArgument("invalid alpha (" + [alpha] + ")"))
    ensures category.Some? && IsLetter(alpha) && page <= 0 ==> r == Failure(IllegalArgument(Reason("invalid page", page)))
    ensures r.Success? ==> r.value == ItemsPrefix() + IntToString(Categories.Id(category.value))
                                      + "&alpha=" + [alpha] + "&page=" + IntToString(page)
  {
    if category.None? then Failure(NullValue("category null"))
    else if !IsLetter(alpha) then Failure(IllegalArgument("invalid alpha (" + [alpha] + ")"))
    else if page <= 0 then Failure(IllegalArgument(Reason("invalid page", page)))
    else
      var id := IntToString(Categories.Id(category.value));
      var url := ItemsPrefix() + (id + ItemsQuery(alpha, page));
      assert url == ItemsPrefix() + id + "&alpha=" + [alpha] + "&page=" + IntToString(page);
      Success(url)
  }

  /** Different item ids have different details addresses, and likewise for
      graph addresses. */
  lemma ItemUrlsInjective(a: Int32, b: Int32)
    requires a >= 0 && b >= 0
    ensures ItemInfoUrl(a) == ItemInfoUrl(b) ==> a == b
    ensures ItemGraphDataUrl(a) == ItemGraphDataUrl(b) ==> a == b
  {
  }

  /** Different categories have different summary addresses. */
  lemma CategoryInfoUrlInjective(a: Categories.Category, b: Categories.Category)
    ensures CategoryInfoUrl(Some(a)) == CategoryInfoUrl(Some(b)) ==> a == b
  {
    Categories.IdsUnique(a, b);
  }

  /** A digit string followed by a text that starts with '&' splits there
      in only one way. */
  lemma {:induction false} SplitAfterDigits(x: string, u: string, y: string, v: string)
    requires AllDigits(x) && AllDigits(y)
    requires |u| > 0 && u[0] == '&' && |v| > 0 && v[0] == '&'
    requires x + u == y + v
    ensures x == y && u == v
  {
    if |x| == 0 && |y| == 0 {
      assert x + u == u && y + v == v;
    } else if |x| == 0 || |y| == 0 {
      assert false;
    } else {
      assert x[0] == (x + u)[0] == (y + v)[0] == y[0];
      assert (x + u)[1..] == x[1..] + u && (y + v)[1..] == y[1..] + v;
      assert AllDigits(x[1..]) by {
        forall i | 0 <= i < |x[1..]| ensures IsDigit(x[1..][i]) { assert x[1..][i] == x[i + 1]; }
      }
      assert AllDigits(y[1..]) by {
        forall i | 0 <= i < |y[1..]| ensures IsDigit(y[1..][i]) { assert y[1..][i] == y[i + 1]; }
      }
      SplitAfterDigits(x[1..], u, y[1..], v);
      assert x == [x[0]] + x[1..] && y == [y[0]] + y[1..];
    }
  }

  /** Different (category, letter, page) requests have different addresses. */
  lemma CategoryPriceUrlInjective(c1: Categories.Category, a1: char, p1: Int32,
                                  c2: Categories.Category, a2: char, p2: Int32)
    requires CategoryPriceUrl(Some(c1), a1, p1).Success? && CategoryPriceUrl(Some(c2), a2, p2).Success?
    ensures CategoryPriceUrl(Some(c1), a1, p1) == CategoryPriceUrl(Some(c2), a2, p2) ==> c1 == c2 && a1 == a2 && p1 == p2
  {
    var x, u := NatToString(Categories.Id(c1)), ItemsQuery(a1, p1);
    var y, v := NatToString(Categories.Id(c2)), ItemsQuery(a2, p2);
    if CategoryPriceUrl(Some(c1), a1, p1) == CategoryPriceUrl(Some(c2), a2, p2) {
      var n := |ItemsPrefix()|;
      assert (ItemsPrefix() + (x + u))[n..] == x + u;
      assert (ItemsPrefix() + (y + v))[n..] == y + v;
      SplitAfterDigits(x, u, y, v);
      NatToStringInjective(Categories.Id(c1), Categories.Id(c2));
      Categories.IdsUnique(c1, c2);
      assert u[7] == a1 && v[7] == a2;
      var s1, s2 := IntToString(p1), IntToString(p2);
      assert u[14..] == s1 && v[14..] == s2;
      ParseIntRoundTrip(p1);
      ParseIntRoundTrip(p2);
    }
  }
}
