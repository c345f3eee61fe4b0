/** The `Trend` enumeration: the direction of a price or of a change, with
    its signum and the name the Grand Exchange services use for it
    (`trend/Trend.java`).
 */
module Trends {
  import opened Results
  import Tables

  datatype Trend = Negative | Neutral | Positive

  /** The constants in declaration order, as `Trend.values()` lists them. */
  const AllTrends: seq<Trend> := [Negative, Neutral, Positive]

  /** -1 for a decreasing, 0 for a stable and +1 for an increasing trend. */
  function Signum(t: Trend): (s: int)
    ensures -1 <= s <= 1
    ensures s < 0 <==> t == Negative
    ensures s > 0 <==> t == Positive
  {
    match t
    case Negative => -1
    case Neutral => 0
    case Positive => 1
  }

  /** The unique name of the trend on the wire. */
  function Name(t: Trend): (name: string)
    ensures |name| > 0
  {
    match t
    case Negative => "negative"
    case Neutral => "neutral"
    case Positive => "positive"
  }

  /** Every trend is one of the constants `values()` lists. */
  lemma EveryTrendListed(t: Trend)
    ensures t in AllTrends
  {
    assert AllTrends[0] == Negative && AllTrends[1] == Neutral && AllTrends[2] == Positive;
  }

  /** The entries put into the `MAP_FROM_NAME` builder: one per constant,
      keyed by name. No name is put twice, so `build()` succeeds. */
  lemma NameEntriesDistinct()
    ensures Tables.DistinctKeys(Tables.KeyBy(AllTrends, Name))
  {
  }

  /** The `MAP_FROM_NAME` table. */
  function NameTable(): (table: map<string, Trend>)
    ensures forall t :: Name(t) in table && table[Name(t)] == t
    ensures forall name :: name in table ==> Name(table[name]) == name
  {
    var entries := Tables.KeyBy(AllTrends, Name);
    NameEntriesDistinct();
    var table := Tables.Build(entries).value;
    assert forall t :: Name(t) in table && table[Name(t)] == t by {
      forall t: Trend
        ensures Name(t) in table && table[Name(t)] == t
      {
        EveryTrendListed(t);
        var i :| 0 <= i < |AllTrends| && AllTrends[i] == t;
        assert entries[i] == (Name(t), t);
      }
    }
    table
  }

  /** `Trend.fromName`: exact, case-sensitive lookup; absent for every other text. */
  function FromName(name: string): (r: Option<Trend>)
    ensures r.Some? ==> Name(r.value) == name
    ensures r.None? <==> forall t :: Name(t) != name
  {
    if name == "negative" then Some(Negative)
    else if name == "neutral" then Some(Neutral)
    else if name == "positive" then Some(Positive)
    else None
  }

  /** The comparisons above agree with the `MAP_FROM_NAME` table on every text. */
  lemma FromNameIsTableLookup(name: string)
    ensures FromName(name) == Tables.Get(NameTable(), name)
  {
  }

  /** `values()` holds each of the three constants exactly once, and their
      (signum, name) pairs are the ones declared. */
  lemma TrendConstants()
    ensures |AllTrends| == 3
    ensures forall t: Trend :: t in AllTrends
    ensures forall i, j :: 0 <= i < j < |AllTrends| ==> AllTrends[i] != AllTrends[j]
    ensures Signum(Negative) == -1 && Name(Negative) == "negative"
    ensures Signum(Neutral) == 0 && Name(Neutral) == "neutral"
    ensures Signum(Positive) == 1 && Name(Positive) == "positive"
  {
    forall t: Trend
      ensures t in AllTrends
    {
      EveryTrendListed(t);
    }
  }

  /** Every trend is found again under its own name. */
  lemma FromNameRoundTrip(t: Trend)
    ensures FromName(Name(t)) == Some(t)
  {
  }

  /** Different trends have different names. */
  lemma NamesUnique(a: Trend, b: Trend)
    ensures Name(a) == Name(b) ==> a == b
  {
  }

  /** The lookup does not fold case or trim: "Positive" names no trend. */
  lemma FromNameIsExact()
    ensures FromName("Positive") == None
    ensures FromName("NEGATIVE") == None
    ensures FromName(" neutral") == None
    ensures FromName("") == None
  {
  }
}
