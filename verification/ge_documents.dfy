/** The documents the Grand Exchange item service writes, and what the item
    parser makes of them: each field is read into the matching variable,
    unknown fields are skipped, unknown trend and category names are fatal,
    and a whole document written for a valid item is read back as that item.
 */
module GrandExchangeDocuments {
  import opened Results
  import opened Numbers
  import opened Text
  import opened Tokens
  import opened Trends
  import Categories
  import opened TrendRecords
  import opened ItemInfos
  import opened Decimals
  import opened Prices
  import opened GrandExchangeParser

  /** The contents of a trend object after its opening token: its trend, its
      value field and its closing token. */
  function TrendBody(t: Trend, valueField: string, valueText: string): seq<Token> {
    [FieldName("trend"), Scalar(Trends.Name(t)), FieldName(valueField), Scalar(valueText), EndObject]
  }

  /** A trend object with both fields is read as its trend and its value. */
  lemma TrendObjectOfBody<V>(t: Trend, valueField: string, valueText: string, readValue: string -> Result<V>,
                             v: V, fields: TrendFields<V>, rest: seq<Token>)
    requires valueField != "trend"
    requires readValue(valueText) == Success(v)
    ensures TrendObject(TrendBody(t, valueField, valueText) + rest, valueField, readValue, fields)
            == Success((TrendFields(Some(t), v), rest))
  {
    var ts := TrendBody(t, valueField, valueText) + rest;
    FromNameRoundTrip(t);
    var withTrend := fields.(trend := Some(t));
    assert ts[2..] == [FieldName(valueField), Scalar(valueText), EndObject] + rest;
    assert ts[2..][2..] == [EndObject] + rest;
    assert ([EndObject] + rest)[1..] == rest;
    assert TrendObject([EndObject] + rest, valueField, readValue, TrendFields(Some(t), v))
           == Success((TrendFields(Some(t), v), rest));
    assert TrendObject(ts[2..], valueField, readValue, withTrend) == Success((TrendFields(Some(t), v), rest));
  }

  /** A field other than "trend" and the value field is skipped. */
  lemma TrendObjectSkipsField<V>(name: string, value: Token, valueField: string, readValue: string -> Result<V>,
                                 fields: TrendFields<V>, rest: seq<Token>)
    requires valueField != "trend" && name != "trend" && name != valueField
    ensures TrendObject([FieldName(name), value] + rest, valueField, readValue, fields)
            == TrendObject(rest, valueField, readValue, fields)
  {
    assert ([FieldName(name), value] + rest)[2..] == rest;
  }

  /** A "trend" field whose text names no trend ends the read with a failure. */
  lemma TrendObjectRejectsUnknownTrend<V>(text: string, valueField: string, readValue: string -> Result<V>,
                                          fields: TrendFields<V>, rest: seq<Token>)
    requires valueField != "trend"
    requires forall t :: Trends.Name(t) != text
    ensures TrendObject([FieldName("trend"), Scalar(text)] + rest, valueField, readValue, fields)
            == Failure(UnknownName(text))
  {
    var ts := [FieldName("trend"), Scalar(text)] + rest;
    assert ts[0] == FieldName("trend") && TextOf(ts[1]) == text;
    assert ReadTrend(text) == Failure(UnknownName(text));
  }

  /** A price trend object without a "price" field leaves the price at 0,
      which `new PriceTrend` rejects. */
  lemma PriceTrendNeedsPrice(t: Trend, rest: seq<Token>)
    ensures PriceTrendObject([FieldName("trend"), Scalar(Trends.Name(t)), EndObject] + rest)
            == Failure(IllegalArgument(Reason("invalid price", 0)))
  {
    TrendOnly(t, rest);
  }

  /** An object with a trend and nothing else leaves the price at 0. */
  lemma TrendOnly(t: Trend, rest: seq<Token>)
    ensures TrendObject([FieldName("trend"), Scalar(Trends.Name(t)), EndObject] + rest, "price", GetPrice, TrendFields(None, 0))
            == Success((TrendFields(Some(t), 0), rest))
  {
    FromNameRoundTrip(t);
    var ts := [FieldName("trend"), Scalar(Trends.Name(t)), EndObject] + rest;
    assert ts[2..] == [EndObject] + rest;
    assert ([EndObject] + rest)[1..] == rest;
    var fields := TrendFields(Some(t), 0);
    assert TrendObject(ts[2..], "price", GetPrice, fields) == Success((fields, rest));
  }

  /** The tokens of a price trend's object, after its opening token. */
  function PriceTrendBody(p: PriceTrend): seq<Token> {
    TrendBody(p.trend, "price", IntToString(p.price))
  }

  /** The tokens of a price change trend's object, after its opening token. */
  function PriceChangeTrendBody(c: PriceChangeTrend): seq<Token> {
    TrendBody(c.trend, "price", IntToString(c.priceChange))
  }

  /** The tokens of a percent change trend's object, after its opening
      token: the change is written as a decimal number of percent. */
  function PercentChangeTrendBody(t: Trend, percent: Decimal): seq<Token> {
    TrendBody(t, "change", Render(percent) + "%")
  }

  /** The percent change a written decimal number of percent stands for. */
  function PercentChangeOf(t: Trend, percent: Decimal): PercentChangeTrend {
    PercentChangeTrend(t, ToReal(percent) / 100.0)
  }

  /** A price trend object is read as the trend and the price its texts give. */
  lemma PriceTrendObjectOf(t: Trend, text: string, price: Int32, rest: seq<Token>)
    requires GetPrice(text) == Success(price) && price > 0
    ensures PriceTrendObject(TrendBody(t, "price", text) + rest) == Success((PriceTrend(t, price), rest))
  {
    TrendObjectOfBody(t, "price", text, GetPrice, price, TrendFields(None, 0), rest);
  }

  lemma PriceChangeTrendObjectOf(t: Trend, text: string, change: Int32, rest: seq<Token>)
    requires GetPrice(text) == Success(change)
    ensures PriceChangeTrendObject(TrendBody(t, "price", text) + rest) == Success((PriceChangeTrend(t, change), rest))
  {
    TrendObjectOfBody(t, "price", text, GetPrice, change, TrendFields(None, 0), rest);
  }

  lemma PercentChangeTrendObjectOf(t: Trend, text: string, change: real, rest: seq<Token>)
    requires ParsePercentChange(text) == Success(change)
    ensures PercentChangeTrendObject(TrendBody(t, "change", text) + rest) == Success((PercentChangeTrend(t, change), rest))
  {
    TrendObjectOfBody(t, "change", text, ParsePercentChange, change, TrendFields(None, 0.0), rest);
  }

  /** A valid price trend, written as the service writes it, is read back. */
  lemma PriceTrendRoundTrip(p: PriceTrend, rest: seq<Token>)
    requires ValidPriceTrend(p)
    ensures PriceTrendObject(PriceTrendBody(p) + rest) == Success((p, rest))
  {
    GetPriceOfInt(p.price);
    PriceTrendObjectOf(p.trend, IntToString(p.price), p.price, rest);
  }

  /** Every price change trend, written as the service writes it, is read back. */
  lemma PriceChangeTrendRoundTrip(c: PriceChangeTrend, rest: seq<Token>)
    ensures PriceChangeTrendObject(PriceChangeTrendBody(c) + rest) == Success((c, rest))
  {
    GetPriceOfInt(c.priceChange);
    PriceChangeTrendObjectOf(c.trend, IntToString(c.priceChange), c.priceChange, rest);
  }

  /** A percent change trend written as a decimal number of percent is read
      back as that number divided by 100. */
  lemma PercentChangeTrendRoundTrip(t: Trend, percent: Decimal, rest: seq<Token>)
    ensures PercentChangeTrendObject(PercentChangeTrendBody(t, percent) + rest)
            == Success((PercentChangeOf(t, percent), rest))
  {
    ParsePercentChangeOfRendered(percent);
    PercentChangeTrendObjectOf(t, Render(percent) + "%", ToReal(percent) / 100.0, rest);
  }

  /** One field of an item object as the service writes it. */
  datatype ItemField =
    | IconField(icon: string)
    | LargeIconField(largeIcon: string)
    | IdField(id: Int32)
    | TypeField(category: Categories.Category)
    | TypeIconField(typeIcon: string)
    | NameField(name: string)
    | DescriptionField(description: string)
    | CurrentField(current: PriceTrend)
    | TodayField(today: PriceChangeTrend)
    | MembersField(members: bool)
    | Day30Field(trend30: Trend, percent30: Decimal)
    | Day90Field(trend90: Trend, percent90: Decimal)
    | Day180Field(trend180: Trend, percent180: Decimal)

  /** A field the service can write: a current price is positive. */
  predicate FieldOk(f: ItemField) {
    f.CurrentField? ==> ValidPriceTrend(f.current)
  }

  /** The case of the parser's switch a field is meant for. */
  function KindOfField(f: ItemField): FieldKind {
    match f
    case IconField(_) => IconKind
    case LargeIconField(_) => LargeIconKind
    case IdField(_) => IdKind
    case TypeField(_) => TypeKind
    case TypeIconField(_) => TypeIconKind
    case NameField(_) => NameKind
    case DescriptionField(_) => DescriptionKind
    case CurrentField(_) => CurrentKind
    case TodayField(_) => TodayKind
    case MembersField(_) => MembersKind
    case Day30Field(_, _) => Day30Kind
    case Day90Field(_, _) => Day90Kind
    case Day180Field(_, _) => Day180Kind
  }

  /** The tokens of a field's value: one scalar, or a whole trend object. */
  function ValueTokens(f: ItemField): seq<Token> {
    match f
    case IconField(s) => [Scalar(s)]
    case LargeIconField(s) => [Scalar(s)]
    case IdField(i) => [Scalar(IntToString(i))]
    case TypeField(c) => [Scalar(Categories.Name(c))]
    case TypeIconField(s) => [Scalar(s)]
    case NameField(s) => [Scalar(s)]
    case DescriptionField(s) => [Scalar(s)]
    case CurrentField(p) => [StartObject] + PriceTrendBody(p)
    case TodayField(c) => [StartObject] + PriceChangeTrendBody(c)
    case MembersField(b) => [Scalar(if b then "true" else "false")]
    case Day30Field(t, d) => [StartObject] + PercentChangeTrendBody(t, d)
    case Day90Field(t, d) => [StartObject] + PercentChangeTrendBody(t, d)
    case Day180Field(t, d) => [StartObject] + PercentChangeTrendBody(t, d)
  }

  /** The tokens of one field: its name and its value. */
  function FieldTokens(f: ItemField): seq<Token> {
    [FieldName(KindName(KindOfField(f)))] + ValueTokens(f)
  }

  /** The variable a field sets, and the value it sets it to. */
  function Apply(f: ItemField, d: Draft): Draft {
    match f
    case IconField(s) => d.(iconUrl := Some(s))
    case LargeIconField(s) => d.(largeIconUrl := Some(s))
    case IdField(i) => d.(id := i)
    case TypeField(c) => d.(category := Some(c))
    case TypeIconField(s) => d.(typeIconUrl := Some(s))
    case NameField(s) => d.(name := Some(s))
    case DescriptionField(s) => d.(description := Some(s))
    case CurrentField(p) => d.(current := Some(p))
    case TodayField(c) => d.(today := Some(c))
    case MembersField(b) => d.(membersOnly := b)
    case Day30Field(t, x) => d.(day30 := Some(PercentChangeOf(t, x)))
    case Day90Field(t, x) => d.(day90 := Some(PercentChangeOf(t, x)))
    case Day180Field(t, x) => d.(day180 := Some(PercentChangeOf(t, x)))
  }

  lemma MembersText(b: bool)
    ensures ParseBoolean(if b then "true" else "false") == b
  {
    if b {
      assert "true"[0] in "tT" && "true"[1] in "rR" && "true"[2] in "uU" && "true"[3] in "eE";
    }
  }

  /** Once the case a field's name selects has read its value, the loop goes
      on after that value with the variables the case set. */
  lemma ItemFieldsAfterRead(name: string, value: Token, rest: seq<Token>, d: Draft, d': Draft, after: seq<Token>)
    requires DraftOk(d)
    requires ReadField(KindOf(name), value, rest, d) == Success((d', after))
    ensures DraftOk(d')
    ensures ItemFields([FieldName(name), value] + rest, d) == ItemFields(after, d')
  {
    assert ([FieldName(name), value] + rest)[2..] == rest;
  }

  /** A field is its name, the first token of its value, and the rest of its value. */
  lemma FieldTokensSplit(f: ItemField, rest: seq<Token>)
    ensures |ValueTokens(f)| > 0
    ensures FieldTokens(f) + rest
            == [FieldName(KindName(KindOfField(f))), ValueTokens(f)[0]] + (ValueTokens(f)[1..] + rest)
  {
    var v := ValueTokens(f);
    assert |v| > 0;
    var name := FieldName(KindName(KindOfField(f)));
    assert FieldTokens(f) == [name] + v;
    SplitAfterHead(name, v, rest);
  }

  lemma SplitAfterHead(a: Token, v: seq<Token>, rest: seq<Token>)
    requires |v| > 0
    ensures [a] + v + rest == [a, v[0]] + (v[1..] + rest)
  {
    assert v == [v[0]] + v[1..];
  }

  /** The case for a scalar field sets its variable from the one value token. */
  lemma ReadScalarField(f: ItemField, rest: seq<Token>, d: Draft)
    requires DraftOk(d)
    requires !(f.CurrentField? || f.TodayField? || f.Day30Field? || f.Day90Field? || f.Day180Field?)
    ensures |ValueTokens(f)| == 1
    ensures ReadField(KindOfField(f), ValueTokens(f)[0], rest, d) == Success((Apply(f, d), rest))
  {
    match f
    case IdField(i) => ReadIdField(i, rest, d);
    case TypeField(c) => ReadTypeField(c, rest, d);
    case MembersField(b) => ReadMembersField(b, rest, d);
    case _ => ReadTextField(f, rest, d);
  }

  lemma ReadTextField(f: ItemField, rest: seq<Token>, d: Draft)
    requires DraftOk(d)
    requires f.IconField? || f.LargeIconField? || f.TypeIconField? || f.NameField? || f.DescriptionField?
    ensures |ValueTokens(f)| == 1
    ensures ReadField(KindOfField(f), ValueTokens(f)[0], rest, d) == Success((Apply(f, d), rest))
  {
    if f.NameField? || f.DescriptionField? {
      ReadWordField(f, rest, d);
    } else {
      ReadAddressField(f, rest, d);
    }
  }

  lemma ReadWordField(f: ItemField, rest: seq<Token>, d: Draft)
    requires DraftOk(d)
    requires f.NameField? || f.DescriptionField?
    ensures |ValueTokens(f)| == 1
    ensures ReadField(KindOfField(f), ValueTokens(f)[0], rest, d) == Success((Apply(f, d), rest))
  {
    match f
    case NameField(s) => assert ValueTokens(f) == [Scalar(s)];
    case DescriptionField(s) => assert ValueTokens(f) == [Scalar(s)];
  }

  lemma ReadAddressField(f: ItemField, rest: seq<Token>, d: Draft)
    requires DraftOk(d)
    requires f.IconField? || f.LargeIconField? || f.TypeIconField?
    ensures |ValueTokens(f)| == 1
    ensures ReadField(KindOfField(f), ValueTokens(f)[0], rest, d) == Success((Apply(f, d), rest))
  {
    match f
    case IconField(s) => assert ValueTokens(f) == [Scalar(s)];
    case LargeIconField(s) => assert ValueTokens(f) == [Scalar(s)];
    case TypeIconField(s) => assert ValueTokens(f) == [Scalar(s)];
  }

  lemma ReadIdField(i: Int32, rest: seq<Token>, d: Draft)
    requires DraftOk(d)
    ensures ReadField(IdKind, Scalar(IntToString(i)), rest, d) == Success((d.(id := i), rest))
  {
    ParseIntRoundTrip(i);
  }

  lemma ReadTypeField(c: Categories.Category, rest: seq<Token>, d: Draft)
    requires DraftOk(d)
    ensures ReadField(TypeKind, Scalar(Categories.Name(c)), rest, d) == Success((d.(category := Some(c)), rest))
  {
    Categories.FromNameRoundTrip(c);
  }

  lemma ReadMembersField(b: bool, rest: seq<Token>, d: Draft)
    requires DraftOk(d)
    ensures ReadField(MembersKind, Scalar(if b then "true" else "false"), rest, d) == Success((d.(membersOnly := b), rest))
  {
    MembersText(b);
  }

  /** The case for the current price reads the price trend object. */
  lemma ReadCurrentField(p: PriceTrend, rest: seq<Token>, d: Draft)
    requires DraftOk(d) && ValidPriceTrend(p)
    ensures ReadField(CurrentKind, StartObject, PriceTrendBody(p) + rest, d) == Success((d.(current := Some(p)), rest))
  {
    PriceTrendRoundTrip(p, rest);
    ReadObjectField(CurrentKind, PriceTrendBody(p) + rest, d);
  }

  /** The case for today's change reads the price change trend object. */
  lemma ReadTodayField(c: PriceChangeTrend, rest: seq<Token>, d: Draft)
    requires DraftOk(d)
    ensures ReadField(TodayKind, StartObject, PriceChangeTrendBody(c) + rest, d) == Success((d.(today := Some(c)), rest))
  {
    PriceChangeTrendRoundTrip(c, rest);
    ReadObjectField(TodayKind, PriceChangeTrendBody(c) + rest, d);
  }

  /** The case for a percent change field reads the percent change trend object. */
  lemma ReadPercentField(kind: FieldKind, t: Trend, x: Decimal, rest: seq<Token>, d: Draft)
    requires DraftOk(d)
    requires kind == Day30Kind || kind == Day90Kind || kind == Day180Kind
    ensures ReadField(kind, StartObject, PercentChangeTrendBody(t, x) + rest, d)
            == Success((if kind == Day30Kind then d.(day30 := Some(PercentChangeOf(t, x)))
                        else if kind == Day90Kind then d.(day90 := Some(PercentChangeOf(t, x)))
                        else d.(day180 := Some(PercentChangeOf(t, x))), rest))
  {
    PercentChangeTrendRoundTrip(t, x, rest);
    ReadObjectField(kind, PercentChangeTrendBody(t, x) + rest, d);
  }

  /** The cases for the trend fields hand the tokens to the trend object
      readers and store what they read. */
  lemma ReadObjectField(kind: FieldKind, ts: seq<Token>, d: Draft)
    requires DraftOk(d)
    ensures kind == CurrentKind && PriceTrendObject(ts).Success? ==>
      ReadField(kind, StartObject, ts, d)
      == Success((d.(current := Some(PriceTrendObject(ts).value.0)), PriceTrendObject(ts).value.1))
    ensures kind == TodayKind && PriceChangeTrendObject(ts).Success? ==>
      ReadField(kind, StartObject, ts, d)
      == Success((d.(today := Some(PriceChangeTrendObject(ts).value.0)), PriceChangeTrendObject(ts).value.1))
    ensures kind == Day30Kind && PercentChangeTrendObject(ts).Success? ==>
      ReadField(kind, StartObject, ts, d)
      == Success((d.(day30 := Some(PercentChangeTrendObject(ts).value.0)), PercentChangeTrendObject(ts).value.1))
    ensures kind == Day90Kind && PercentChangeTrendObject(ts).Success? ==>
      ReadField(kind, StartObject, ts, d)
      == Success((d.(day90 := Some(PercentChangeTrendObject(ts).value.0)), PercentChangeTrendObject(ts).value.1))
    ensures kind == Day180Kind && PercentChangeTrendObject(ts).Success? ==>
      ReadField(kind, StartObject, ts, d)
      == Success((d.(day180 := Some(PercentChangeTrendObject(ts).value.0)), PercentChangeTrendObject(ts).value.1))
  {
  }

  /** The case a field is meant for reads exactly its value and sets its variable. */
  lemma ReadItemField(f: ItemField, rest: seq<Token>, d: Draft)
    requires DraftOk(d) && FieldOk(f)
    ensures |ValueTokens(f)| > 0
    ensures ReadField(KindOfField(f), ValueTokens(f)[0], ValueTokens(f)[1..] + rest, d) == Success((Apply(f, d), rest))
  {
    match f
    case CurrentField(p) =>
      assert ValueTokens(f)[1..] == PriceTrendBody(p);
      ReadCurrentField(p, rest, d);
    case TodayField(c) =>
      assert ValueTokens(f)[1..] == PriceChangeTrendBody(c);
      ReadTodayField(c, rest, d);
    case Day30Field(t, x) =>
      assert ValueTokens(f)[1..] == PercentChangeTrendBody(t, x);
      ReadPercentField(Day30Kind, t, x, rest, d);
    case Day90Field(t, x) =>
      assert ValueTokens(f)[1..] == PercentChangeTrendBody(t, x);
      ReadPercentField(Day90Kind, t, x, rest, d);
    case Day180Field(t, x) =>
      assert ValueTokens(f)[1..] == PercentChangeTrendBody(t, x);
      ReadPercentField(Day180Kind, t, x, rest, d);
    case _ =>
      ReadScalarField(f, rest, d);
      assert ValueTokens(f)[1..] + rest == rest;
  }

  /** Reading any field the service writes sets exactly its variable. */
  lemma FieldStep(f: ItemField, rest: seq<Token>, d: Draft)
    requires DraftOk(d) && FieldOk(f)
    ensures DraftOk(Apply(f, d))
    ensures ItemFields(FieldTokens(f) + rest, d) == ItemFields(rest, Apply(f, d))
  {
    FieldTokensSplit(f, rest);
    ReadItemField(f, rest, d);
    KindOfKindName(KindOfField(f));
    ItemFieldsAfterRead(KindName(KindOfField(f)), ValueTokens(f)[0], ValueTokens(f)[1..] + rest, d, Apply(f, d), rest);
  }

  /** A field the parser does not know is skipped. */
  lemma ItemFieldsSkipsUnknown(name: string, value: Token, rest: seq<Token>, d: Draft)
    requires DraftOk(d)
    requires name !in ["icon", "icon_large", "id", "type", "typeIcon", "name", "description",
                       "current", "today", "day30", "day90", "day180", "members"]
    ensures ItemFields([FieldName(name), value] + rest, d) == ItemFields(rest, d)
  {
    assert KindOf(name) == OtherKind;
    ItemFieldsAfterRead(name, value, rest, d, d, rest);
  }

  /** A "type" field whose text names no category ends the read with a failure. */
  lemma ItemFieldsRejectsUnknownType(text: string, rest: seq<Token>, d: Draft)
    requires DraftOk(d)
    requires forall c :: Categories.Name(c) != text
    ensures ItemFields([FieldName("type"), Scalar(text)] + rest, d) == Failure(UnknownName(text))
  {
    KindOfKindName(TypeKind);
  }

  /** "members" is true exactly for the text "true" in any letter case. */
  lemma ItemFieldsReadsMembers(text: string, rest: seq<Token>, d: Draft)
    requires DraftOk(d)
    ensures ItemFields([FieldName("members"), Scalar(text)] + rest, d)
            == ItemFields(rest, d.(membersOnly := EqualsIgnoreCase(text, "true")))
  {
    assert ReadField(MembersKind, Scalar(text), rest, d) == Success((d.(membersOnly := ParseBoolean(text)), rest));
    KindOfKindName(MembersKind);
    ItemFieldsAfterRead("members", Scalar(text), rest, d, d.(membersOnly := ParseBoolean(text)), rest);
  }

  /** Several fields, in the order they are written. */
  datatype Fields = NoFields | MoreFields(first: ItemField, others: Fields)

  predicate AllOk(fs: Fields) {
    fs.MoreFields? ==> FieldOk(fs.first) && AllOk(fs.others)
  }

  /** The tokens of several fields, one after the other. */
  function FieldsTokens(fs: Fields): seq<Token> {
    match fs
    case NoFields => []
    case MoreFields(f, others) => FieldTokens(f) + FieldsTokens(others)
  }

  /** The variables after several fields, in order: a later field
      overwrites an earlier one. */
  function ApplyAll(fs: Fields, d: Draft): Draft {
    match fs
    case NoFields => d
    case MoreFields(f, others) => ApplyAll(others, Apply(f, d))
  }

  /** Reading several fields one after the other sets their variables in
      order, whatever follows them. */
  lemma {:induction false} FieldsStep(fs: Fields, rest: seq<Token>, d: Draft)
    requires DraftOk(d) && AllOk(fs)
    ensures DraftOk(ApplyAll(fs, d))
    ensures ItemFields(FieldsTokens(fs) + rest, d) == ItemFields(rest, ApplyAll(fs, d))
  {
    match fs
    case NoFields =>
      FieldsTokensAppend(fs, rest);
    case MoreFields(f, others) =>
      FieldsTokensAppend(fs, rest);
      FieldStep(f, FieldsTokens(others) + rest, d);
      FieldsStep(others, rest, Apply(f, d));
  }

  /** The tokens of several fields followed by `rest`, taken apart at the first field. */
  lemma FieldsTokensAppend(fs: Fields, rest: seq<Token>)
    ensures fs.NoFields? ==> FieldsTokens(fs) + rest == rest
    ensures fs.MoreFields? ==> FieldsTokens(fs) + rest == FieldTokens(fs.first) + (FieldsTokens(fs.others) + rest)
  {
    match fs
    case NoFields =>
      assert FieldsTokens(fs) == [];
    case MoreFields(f, others) =>
      Associate(FieldTokens(f), FieldsTokens(others), rest);
  }

  /** The fields that describe an item, in the order the service writes
      them, followed by `later`. */
  function DescriptiveFields(i: GEItemInfo, later: Fields): Fields {
    MoreFields(IconField(i.iconUrl),
    MoreFields(LargeIconField(i.largeIconUrl),
    MoreFields(IdField(i.id),
    MoreFields(TypeField(i.category),
    MoreFields(TypeIconField(i.typeIconUrl),
    MoreFields(NameField(i.name),
    MoreFields(DescriptionField(i.description),
    later)))))))
  }

  /** The price fields of an item and its membership flag, in the order the
      service writes them; the three percent changes are written as decimal
      numbers of percent. */
  function MarketFields(i: GEItemInfo, p30: Decimal, p90: Decimal, p180: Decimal): Fields {
    MoreFields(CurrentField(i.currentPriceTrend),
    MoreFields(TodayField(i.todaysChangeTrend),
    MoreFields(MembersField(i.membersOnly),
    MoreFields(Day30Field(i.day30ChangeTrend.trend, p30),
    MoreFields(Day90Field(i.day90ChangeTrend.trend, p90),
    MoreFields(Day180Field(i.day180ChangeTrend.trend, p180),
    NoFields))))))
  }

  /** All the fields the service writes for an item. */
  function ItemFieldsOf(i: GEItemInfo, p30: Decimal, p90: Decimal, p180: Decimal): Fields {
    DescriptiveFields(i, MarketFields(i, p30, p90, p180))
  }

  /** The whole document: an object whose "item" field holds the item's fields. */
  function ItemDocument(i: GEItemInfo, p30: Decimal, p90: Decimal, p180: Decimal): seq<Token> {
    [StartObject, FieldName("item"), StartObject] + FieldsTokens(ItemFieldsOf(i, p30, p90, p180)) + [EndObject, EndObject]
  }

  /** The percent changes of an item are the ones the written decimals stand for. */
  predicate PercentsMatch(i: GEItemInfo, p30: Decimal, p90: Decimal, p180: Decimal) {
    && i.day30ChangeTrend.percentChange == ToReal(p30) / 100.0
    && i.day90ChangeTrend.percentChange == ToReal(p90) / 100.0
    && i.day180ChangeTrend.percentChange == ToReal(p180) / 100.0
  }

  /** The variables holding every field of an item. */
  function DraftOf(i: GEItemInfo): Draft {
    Draft(i.id, Some(i.name), Some(i.category), Some(i.description), i.membersOnly,
          Some(i.iconUrl), Some(i.largeIconUrl), Some(i.typeIconUrl), Some(i.currentPriceTrend),
          Some(i.todaysChangeTrend), Some(i.day30ChangeTrend), Some(i.day90ChangeTrend),
          Some(i.day180ChangeTrend))
  }

  /** The descriptive fields set the item's identity, names and icons. */
  lemma ApplyDescriptiveFields(i: GEItemInfo, later: Fields, d: Draft)
    ensures ApplyAll(DescriptiveFields(i, later), d)
            == ApplyAll(later, d.(iconUrl := Some(i.iconUrl), largeIconUrl := Some(i.largeIconUrl), id := i.id,
                                 category := Some(i.category), typeIconUrl := Some(i.typeIconUrl),
                                 name := Some(i.name), description := Some(i.description)))
  {
    var fs0 := DescriptiveFields(i, later);
    var d0 := d;
    var fs1, d1 := fs0.others, Apply(fs0.first, d0);
    assert ApplyAll(fs0, d0) == ApplyAll(fs1, d1);
    var fs2, d2 := fs1.others, Apply(fs1.first, d1);
    assert ApplyAll(fs1, d1) == ApplyAll(fs2, d2);
    var fs3, d3 := fs2.others, Apply(fs2.first, d2);
    assert ApplyAll(fs2, d2) == ApplyAll(fs3, d3);
    var fs4, d4 := fs3.others, Apply(fs3.first, d3);
    assert ApplyAll(fs3, d3) == ApplyAll(fs4, d4);
    var fs5, d5 := fs4.others, Apply(fs4.first, d4);
    assert ApplyAll(fs4, d4) == ApplyAll(fs5, d5);
    var fs6, d6 := fs5.others, Apply(fs5.first, d5);
    assert ApplyAll(fs5, d5) == ApplyAll(fs6, d6);
    var fs7, d7 := fs6.others, Apply(fs6.first, d6);
    assert ApplyAll(fs6, d6) == ApplyAll(fs7, d7);
  }

  /** The market fields set the item's trends and membership. */
  lemma ApplyMarketFields(i: GEItemInfo, p30: Decimal, p90: Decimal, p180: Decimal, d: Draft)
    requires PercentsMatch(i, p30, p90, p180)
    ensures ApplyAll(MarketFields(i, p30, p90, p180), d)
            == d.(current := Some(i.currentPriceTrend), today := Some(i.todaysChangeTrend),
                  membersOnly := i.membersOnly, day30 := Some(i.day30ChangeTrend),
                  day90 := Some(i.day90ChangeTrend), day180 := Some(i.day180ChangeTrend))
  {
    var fs0 := MarketFields(i, p30, p90, p180);
    var d0 := d;
    var fs1, d1 := fs0.others, Apply(fs0.first, d0);
    assert ApplyAll(fs0, d0) == ApplyAll(fs1, d1);
    var fs2, d2 := fs1.others, Apply(fs1.first, d1);
    assert ApplyAll(fs1, d1) == ApplyAll(fs2, d2);
    var fs3, d3 := fs2.others, Apply(fs2.first, d2);
    assert ApplyAll(fs2, d2) == ApplyAll(fs3, d3);
    ApplyChangeFields(i, p30, p90, p180, d3);
  }

  /** The three percent change fields set the three change trends. */
  lemma ApplyChangeFields(i: GEItemInfo, p30: Decimal, p90: Decimal, p180: Decimal, d: Draft)
    requires PercentsMatch(i, p30, p90, p180)
    ensures ApplyAll(MarketFields(i, p30, p90, p180).others.others.others, d)
            == d.(day30 := Some(i.day30ChangeTrend), day90 := Some(i.day90ChangeTrend),
                  day180 := Some(i.day180ChangeTrend))
  {
    var fs0 := MarketFields(i, p30, p90, p180).others.others.others;
    var d0 := d;
    var fs1, d1 := fs0.others, Apply(fs0.first, d0);
    assert ApplyAll(fs0, d0) == ApplyAll(fs1, d1);
    var fs2, d2 := fs1.others, Apply(fs1.first, d1);
    assert ApplyAll(fs1, d1) == ApplyAll(fs2, d2);
    var fs3, d3 := fs2.others, Apply(fs2.first, d2);
    assert ApplyAll(fs2, d2) == ApplyAll(fs3, d3);
    assert fs3 == NoFields;
  }

  /** After the fields of an item, every variable holds that item's value,
      whatever the variables held before. */
  lemma ApplyItemFields(i: GEItemInfo, p30: Decimal, p90: Decimal, p180: Decimal, d: Draft)
    requires PercentsMatch(i, p30, p90, p180)
    ensures ApplyAll(ItemFieldsOf(i, p30, p90, p180), d) == DraftOf(i)
  {
    ApplyDescriptiveFields(i, MarketFields(i, p30, p90, p180), d);
    ApplyMarketFields(i, p30, p90, p180,
      d.(iconUrl := Some(i.iconUrl), largeIconUrl := Some(i.largeIconUrl), id := i.id,
         category := Some(i.category), typeIconUrl := Some(i.typeIconUrl),
         name := Some(i.name), description := Some(i.description)));
  }

  /** Every field written for a valid item is one the service can write. */
  lemma ItemFieldsOk(i: GEItemInfo, p30: Decimal, p90: Decimal, p180: Decimal)
    requires ValidPriceTrend(i.currentPriceTrend)
    ensures AllOk(ItemFieldsOf(i, p30, p90, p180))
  {
    var m := MarketFields(i, p30, p90, p180);
    assert AllOk(m.others.others.others.others.others);
    assert AllOk(m.others.others.others.others);
    assert AllOk(m.others.others.others);
    assert AllOk(m.others.others);
    assert AllOk(m.others);
    assert AllOk(m);
    var fs := ItemFieldsOf(i, p30, p90, p180);
    assert AllOk(fs.others.others.others.others.others.others);
    assert AllOk(fs.others.others.others.others.others);
    assert AllOk(fs.others.others.others.others);
    assert AllOk(fs.others.others.others);
    assert AllOk(fs.others.others);
    assert AllOk(fs.others);
  }

  /** The item parser reads back every valid item from the document the
      service writes for it. */
  lemma ItemDocumentRoundTrip(i: GEItemInfo, p30: Decimal, p90: Decimal, p180: Decimal, isUrl: string -> bool)
    requires ValidGE(i, isUrl)
    requires PercentsMatch(i, p30, p90, p180)
    ensures ParseItemDocument(ItemDocument(i, p30, p90, p180), isUrl) == Success(i)
  {
    ItemDocumentFields(i, p30, p90, p180);
    GEConstructible(i, isUrl);
    assert Finish(DraftOf(i), isUrl) == Success(i);
  }

  /** The field loop reads the variables of the item from its document. */
  lemma ItemDocumentFields(i: GEItemInfo, p30: Decimal, p90: Decimal, p180: Decimal)
    requires ValidPriceTrend(i.currentPriceTrend)
    requires PercentsMatch(i, p30, p90, p180)
    ensures |ItemDocument(i, p30, p90, p180)| >= 3
    ensures ItemFields(ItemDocument(i, p30, p90, p180)[3..], EmptyDraft) == Success(DraftOf(i))
  {
    var fs := ItemFieldsOf(i, p30, p90, p180);
    var tail := [EndObject, EndObject];
    var ts := ItemDocument(i, p30, p90, p180);
    assert ts[3..] == FieldsTokens(fs) + tail;
    ItemFieldsOk(i, p30, p90, p180);
    FieldsStep(fs, tail, EmptyDraft);
    ApplyItemFields(i, p30, p90, p180, EmptyDraft);
    assert ItemFields(tail, DraftOf(i)) == Success(DraftOf(i));
  }

  /** `getItemInfo` gives the item the service describes at the item's
      address, and nothing when the service has no document there. */
  lemma GetItemInfoOfDocument(i: GEItemInfo, p30: Decimal, p90: Decimal, p180: Decimal,
                              fetch: string -> Response, isUrl: string -> bool)
    requires ValidGE(i, isUrl)
    requires PercentsMatch(i, p30, p90, p180)
    requires fetch(GrandExchangeRequests.ItemInfoUrl(i.id).value) == Document(ItemDocument(i, p30, p90, p180))
    ensures GetItemInfo(i.id, fetch, isUrl) == Success(Some(i))
  {
    ItemDocumentRoundTrip(i, p30, p90, p180, isUrl);
  }
}
