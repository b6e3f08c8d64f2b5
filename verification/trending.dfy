/**
  Trending topics: every user's recorded searches, optionally narrowed to
  one feature, grouped by topic and ranked by how often each topic was
  looked up, keeping the ten most frequent.  The database leaves the order
  of tied counts open; the ranking here fixes one order, and the
  specification `IsTrending` accepts any.
*/
module Trending {
  import opened Base
  import opened Errors
  import opened Models
  import opened Db

  /** How many topics the ranking keeps at most. */
  const TRENDING_LIMIT: nat := 10

  /** One row of the ranking. */
  datatype Trend = Trend(topic: string, count: nat)

  /** The success body of `get_trending`. */
  datatype TrendingBody = TrendingBody(trending: seq<Trend>, count: nat)

  // ----- the feature argument -----

  /** The `feature` query argument: absent or empty means every feature
      (Python truthiness); anything else must be "facts" or "quotes". */
  function FeatureFilter(feature: Option<string>): (r: Result<Option<string>>)
    ensures r.Ok? <==> feature.None? || feature.value == "" || feature.value in {"facts", "quotes"}
    ensures r.Err? ==> r == Throw(BadRequest, "Feature must be \"facts\" or \"quotes\"")
    ensures r.Ok? ==> (r.value.None? <==> feature.None? || feature.value == "")
    ensures r.Ok? && r.value.Some? ==> r.value == feature
  {
    if feature.None? || feature.value == "" then Ok(None)
    else if feature.value in {"facts", "quotes"} then Ok(feature)
    else Throw(BadRequest, "Feature must be \"facts\" or \"quotes\"")
  }

  /** Whether a search record is counted under `filter`. */
  predicate Matches(s: SearchedItem, filter: Option<string>) {
    filter.None? || s.feature == filter.value
  }

  // ----- reference definition of a topic's count -----

  /** How many counted records carry `topic`. */
  function Occurrences(searches: seq<SearchedItem>, filter: Option<string>, topic: string): nat {
    if |searches| == 0 then 0
    else
      (if searches[0].topic == topic && Matches(searches[0], filter) then 1 else 0)
      + Occurrences(searches[1..], filter, topic)
  }

  /** Whether `topic` has a row in `r`. */
  predicate Ranked(r: seq<Trend>, topic: string) {
    exists i :: 0 <= i < |r| && r[i].topic == topic
  }

  /** What `get_trending` promises about its list: distinct topics, each with
      its exact count, by non-increasing count, at most ten of them, and a
      counted topic is left out only when ten rows already hold counts at
      least as large as its own. */
  predicate IsTrending(r: seq<Trend>, searches: seq<SearchedItem>, filter: Option<string>) {
    && |r| <= TRENDING_LIMIT
    && (forall i, j :: 0 <= i < j < |r| ==> r[i].topic != r[j].topic)
    && (forall i :: 0 <= i < |r| ==> r[i].count == Occurrences(searches, filter, r[i].topic) >= 1)
    && (forall i, j :: 0 <= i < j < |r| ==> r[i].count >= r[j].count)
    && (forall k :: 0 <= k < |searches| && Matches(searches[k], filter) && !Ranked(r, searches[k].topic) ==>
          |r| == TRENDING_LIMIT && Occurrences(searches, filter, searches[k].topic) <= r[|r| - 1].count)
  }

  // ----- grouping -----

  /** The topics of the counted records, one per record. */
  function Counted(searches: seq<SearchedItem>, filter: Option<string>): (ts: seq<string>)
    ensures |ts| <= |searches|
  {
    if |searches| == 0 then []
    else
      (if Matches(searches[0], filter) then [searches[0].topic] else [])
      + Counted(searches[1..], filter)
  }

  /** Counting a topic in the grouped list agrees with the reference count. */
  lemma {:induction false} CountedOccurrences(searches: seq<SearchedItem>, filter: Option<string>)
    ensures forall t :: multiset(Counted(searches, filter))[t] == Occurrences(searches, filter, t)
  {
    if |searches| > 0 {
      CountedOccurrences(searches[1..], filter);
    }
  }

  /** Every counted record's topic is in the grouped list. */
  lemma {:induction false} CountedMembers(searches: seq<SearchedItem>, filter: Option<string>)
    ensures forall k :: 0 <= k < |searches| && Matches(searches[k], filter) ==>
      searches[k].topic in Counted(searches, filter)
  {
    if |searches| > 0 {
      CountedMembers(searches[1..], filter);
      forall k | 0 <= k < |searches| && Matches(searches[k], filter)
        ensures searches[k].topic in Counted(searches, filter)
      {
        if k > 0 {
          assert searches[k] == searches[1..][k - 1];
        }
      }
    }
  }

  /** The topics of `ts`, each once. */
  function Distinct(ts: seq<string>): (d: seq<string>)
    ensures |d| <= |ts|
  {
    if |ts| == 0 then []
    else
      var rest := Distinct(ts[1..]);
      if ts[0] in rest then rest else [ts[0]] + rest
  }

  lemma {:induction false} DistinctMembers(ts: seq<string>)
    ensures forall t :: t in Distinct(ts) <==> t in ts
    ensures forall i, j :: 0 <= i < j < |Distinct(ts)| ==> Distinct(ts)[i] != Distinct(ts)[j]
  {
    if |ts| > 0 {
      DistinctMembers(ts[1..]);
    }
  }

  /** One row per distinct topic, with its number of occurrences. */
  function Tally(ts: seq<string>): (es: seq<Trend>)
    ensures |es| == |Distinct(ts)|
  {
    var d := Distinct(ts);
    seq(|d|, i requires 0 <= i < |d| => Trend(d[i], multiset(ts)[d[i]]))
  }

  // ----- ordering by count -----

  /** Rows by non-increasing count. */
  predicate Descending(s: seq<Trend>) {
    forall i, j :: 0 <= i < j < |s| ==> s[i].count >= s[j].count
  }

  /** No topic has two rows. */
  predicate TopicsDistinct(s: seq<Trend>) {
    forall i, j :: 0 <= i < j < |s| ==> s[i].topic != s[j].topic
  }

  /** `e` placed before the first row whose count it reaches. */
  function Insert(e: Trend, s: seq<Trend>): (r: seq<Trend>)
    ensures |r| == |s| + 1
  {
    if |s| == 0 || e.count >= s[0].count then [e] + s
    else [s[0]] + Insert(e, s[1..])
  }

  lemma {:induction false} InsertPermutes(e: Trend, s: seq<Trend>)
    ensures multiset(Insert(e, s)) == multiset(s) + multiset{e}
    ensures forall x :: x in Insert(e, s) <==> x == e || x in s
  {
    if |s| > 0 && e.count < s[0].count {
      InsertPermutes(e, s[1..]);
      assert s == [s[0]] + s[1..];
    }
  }

  lemma {:induction false} InsertKeepsDescending(e: Trend, s: seq<Trend>)
    requires Descending(s)
    ensures Descending(Insert(e, s))
  {
    if |s| > 0 && e.count < s[0].count {
      InsertKeepsDescending(e, s[1..]);
      InsertPermutes(e, s[1..]);
      var r := Insert(e, s[1..]);
      forall x | x in r ensures s[0].count >= x.count {
        if x != e {
          var j :| 0 <= j < |s[1..]| && s[1..][j] == x;
          assert s[j + 1] == x;
        }
      }
    }
  }

  lemma {:induction false} InsertKeepsDistinct(e: Trend, s: seq<Trend>)
    requires TopicsDistinct(s)
    requires forall x :: x in s ==> x.topic != e.topic
    ensures TopicsDistinct(Insert(e, s))
  {
    if |s| > 0 && e.count < s[0].count {
      InsertKeepsDistinct(e, s[1..]);
      InsertPermutes(e, s[1..]);
      var r := Insert(e, s[1..]);
      forall x | x in r ensures s[0].topic != x.topic {
        if x != e {
          var j :| 0 <= j < |s[1..]| && s[1..][j] == x;
          assert s[j + 1] == x;
        }
      }
    }
  }

  /** Insertion sort by non-increasing count. */
  function SortByCount(es: seq<Trend>): (r: seq<Trend>)
    ensures |r| == |es|
  {
    if |es| == 0 then [] else Insert(es[0], SortByCount(es[1..]))
  }

  /** Sorting permutes the rows, orders them by count and keeps topics
      distinct. */
  lemma {:induction false} SortByCountSorts(es: seq<Trend>)
    ensures multiset(SortByCount(es)) == multiset(es)
    ensures forall x :: x in SortByCount(es) <==> x in es
    ensures Descending(SortByCount(es))
    ensures TopicsDistinct(es) ==> TopicsDistinct(SortByCount(es))
  {
    if |es| > 0 {
      var rest := SortByCount(es[1..]);
      SortByCountSorts(es[1..]);
      InsertPermutes(es[0], rest);
      InsertKeepsDescending(es[0], rest);
      assert es == [es[0]] + es[1..];
      if TopicsDistinct(es) {
        forall x | x in rest ensures x.topic != es[0].topic {
          var j :| 0 <= j < |es[1..]| && es[1..][j] == x;
          assert es[j + 1] == x;
        }
        InsertKeepsDistinct(es[0], rest);
      }
    }
  }

  // ----- get_trending -----

  /** The ten (or fewer) most searched topics among the counted records:
      group by topic, order by count, keep the first ten. Whatever the
      records, the ranking meets the promise of `get_trending`. */
  function Rank(searches: seq<SearchedItem>, filter: Option<string>): (r: seq<Trend>)
    ensures IsTrending(r, searches, filter)
  {
    var es := Tally(Counted(searches, filter));
    TallyCounts(searches, filter);
    TallyCovers(searches, filter);
    SortByCountSorts(es);
    TopIsTrending(SortByCount(es), searches, filter);
    Top(SortByCount(es))
  }

  /** Each row of the tally holds a counted topic and its reference count. */
  lemma TallyCounts(searches: seq<SearchedItem>, filter: Option<string>)
    ensures var es := Tally(Counted(searches, filter));
      && TopicsDistinct(es)
      && forall x :: x in es ==> x.count == Occurrences(searches, filter, x.topic) >= 1
  {
    var ts := Counted(searches, filter);
    var es := Tally(ts);
    CountedOccurrences(searches, filter);
    DistinctMembers(ts);
    forall x | x in es ensures x.count == Occurrences(searches, filter, x.topic) >= 1 {
      var i :| 0 <= i < |es| && es[i] == x;
      assert Distinct(ts)[i] in ts;
    }
  }

  /** Every counted topic has its row in the tally. */
  lemma TallyCovers(searches: seq<SearchedItem>, filter: Option<string>)
    ensures forall k :: 0 <= k < |searches| && Matches(searches[k], filter) ==>
      Trend(searches[k].topic, Occurrences(searches, filter, searches[k].topic)) in Tally(Counted(searches, filter))
  {
    var ts := Counted(searches, filter);
    var d := Distinct(ts);
    var es := Tally(ts);
    CountedOccurrences(searches, filter);
    CountedMembers(searches, filter);
    DistinctMembers(ts);
    forall k | 0 <= k < |searches| && Matches(searches[k], filter)
      ensures Trend(searches[k].topic, Occurrences(searches, filter, searches[k].topic)) in es
    {
      var t := searches[k].topic;
      var i :| 0 <= i < |d| && d[i] == t;
      assert es[i] == Trend(t, Occurrences(searches, filter, t));
    }
  }

  /** The first ten rows of `sorted`, or all of them when there are fewer. */
  function Top(sorted: seq<Trend>): (r: seq<Trend>)
    ensures |r| <= TRENDING_LIMIT
    ensures |r| < TRENDING_LIMIT ==> r == sorted
    ensures |r| <= |sorted| && r == sorted[..|r|]
  {
    if |sorted| <= TRENDING_LIMIT then sorted else sorted[..TRENDING_LIMIT]
  }

  /** A topic missing from the top rows of a count-ordered list that holds
      it has a count no larger than the last row kept. */
  lemma {:induction false} TopOmitsOnlySmaller(sorted: seq<Trend>, row: Trend)
    requires Descending(sorted)
    requires row in sorted
    requires !Ranked(Top(sorted), row.topic)
    ensures |Top(sorted)| == TRENDING_LIMIT && row.count <= Top(sorted)[TRENDING_LIMIT - 1].count
  {
    var r := Top(sorted);
    var p :| 0 <= p < |sorted| && sorted[p] == row;
    assert p >= |r|;
    assert sorted[TRENDING_LIMIT - 1].count >= sorted[p].count;
  }

  /** The top rows of any count-ordered list of exact, distinct rows
      covering every counted topic meet the promise of `get_trending`. */
  lemma {:induction false} TopIsTrending(sorted: seq<Trend>, searches: seq<SearchedItem>, filter: Option<string>)
    requires Descending(sorted) && TopicsDistinct(sorted)
    requires forall x :: x in sorted ==> x.count == Occurrences(searches, filter, x.topic) >= 1
    requires forall k :: 0 <= k < |searches| && Matches(searches[k], filter) ==>
      Trend(searches[k].topic, Occurrences(searches, filter, searches[k].topic)) in sorted
    ensures IsTrending(Top(sorted), searches, filter)
  {
    var r := Top(sorted);
    assert forall i :: 0 <= i < |r| ==> r[i] == sorted[i];
    forall i | 0 <= i < |r|
      ensures r[i].count == Occurrences(searches, filter, r[i].topic) >= 1
    {
      assert sorted[i] in sorted;
    }
    forall k | 0 <= k < |searches| && Matches(searches[k], filter) && !Ranked(r, searches[k].topic)
      ensures |r| == TRENDING_LIMIT && Occurrences(searches, filter, searches[k].topic) <= r[|r| - 1].count
    {
      TopOmitsOnlySmaller(sorted, Trend(searches[k].topic, Occurrences(searches, filter, searches[k].topic)));
    }
  }

  /** `get_trending`: the ranking of all users' searches, narrowed to one
      feature when asked. */
  function GetTrending(st: Store, feature: Option<string>): (r: Result<TrendingBody>)
    ensures r.Err? <==> FeatureFilter(feature).Err?
    ensures r.Err? ==> r == Throw(BadRequest, "Feature must be \"facts\" or \"quotes\"")
    ensures r.Ok? ==> IsTrending(r.value.trending, st.searches, FeatureFilter(feature).value)
    ensures r.Ok? ==> r.value.count == |r.value.trending|
  {
    match FeatureFilter(feature)
    case Err(failure) => Err(failure)
    case Ok(filter) =>
      var trending := Rank(st.searches, filter);
      Ok(TrendingBody(trending, |trending|))
  }

  /** Without a feature, a topic's count is the sum of its counts under
      each feature, as long as every record is tagged with one of the two. */
  lemma {:induction false} UnfilteredIsSum(searches: seq<SearchedItem>, topic: string)
    requires forall k :: 0 <= k < |searches| ==> SearchedItemFits(searches[k])
    ensures Occurrences(searches, None, topic)
      == Occurrences(searches, Some("facts"), topic) + Occurrences(searches, Some("quotes"), topic)
  {
    if |searches| > 0 {
      UnfilteredIsSum(searches[1..], topic);
    }
  }

  /** Two lookups of "mars" and one of "tides": "mars" ranks first with two. */
  lemma TrendingExample(st: Store)
    requires st.searches == [SearchedItem(1, "mars", "facts"), SearchedItem(2, "tides", "quotes"), SearchedItem(2, "mars", "quotes")]
    ensures GetTrending(st, None) == Ok(TrendingBody([Trend("mars", 2), Trend("tides", 1)], 2))
  {
    var all := st.searches;
    assert "mars" != "tides" by { assert "mars"[0] != "tides"[0]; }
    assert Counted(all[2..], None) == ["mars"];
    assert Counted(all[1..], None) == ["tides", "mars"];
    assert Counted(all, None) == ["mars", "tides", "mars"];
    var ts := ["mars", "tides", "mars"];
    assert Distinct(ts[2..]) == ["mars"];
    assert Distinct(ts[1..]) == ["tides", "mars"];
    assert Distinct(ts) == ["tides", "mars"];
    assert multiset(ts)["mars"] == 2;
    assert multiset(ts)["tides"] == 1;
    var es := [Trend("tides", 1), Trend("mars", 2)];
    assert Tally(ts) == es;
    assert SortByCount(es[1..]) == [Trend("mars", 2)];
    assert SortByCount(es) == [Trend("mars", 2), Trend("tides", 1)];
  }
}
