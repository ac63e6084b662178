/** The economic-indicator records returned for a country, and the list of
    distinct category groups the component derives from them. */
module Indicators {
  import opened Collation

  datatype Option<T> = None | Some(value: T)

  /** One element of the JSON array the indicator service returns
      (fields `Category`, `CategoryGroup`, `LatestValue`, `PreviousValue`,
      `Unit`, `LatestValueDate`, `SourceURL`). */
  datatype IndicatorRecord = IndicatorRecord(
    category: string,
    categoryGroup: string,
    latestValue: real,
    previousValue: real,
    unit: string,
    latestValueDate: string,
    sourceUrl: string)

  /** Some record of `data` belongs to group `g`. */
  ghost predicate HasGroup(data: seq<IndicatorRecord>, g: string) {
    exists r :: r in data && r.categoryGroup == g
  }

  /** `groups` lists every group occurring in `data`, only those, each once. */
  ghost predicate BuiltFrom(groups: seq<string>, data: seq<IndicatorRecord>) {
    && NoDuplicates(groups)
    && (forall g :: g in groups <==> HasGroup(data, g))
  }

  /** The groups of `data` in order of first occurrence: what the
      `forEach`/`includes`/`push` loop leaves in `categories`. */
  function FirstSeen(data: seq<IndicatorRecord>): (cats: seq<string>)
    ensures |cats| <= |data|
    decreases |data|
  {
    if data == [] then []
    else
      var prev := FirstSeen(data[..|data| - 1]);
      var g := data[|data| - 1].categoryGroup;
      if g in prev then prev else prev + [g]
  }

  /** The first-seen list has no repeated group, and its groups are exactly
      those of the records. */
  lemma {:induction false} FirstSeenBuiltFrom(data: seq<IndicatorRecord>)
    ensures BuiltFrom(FirstSeen(data), data)
    decreases |data|
  {
    if data != [] {
      var init := data[..|data| - 1];
      var last := data[|data| - 1];
      FirstSeenBuiltFrom(init);
      assert data == init + [last];
      forall g ensures g in FirstSeen(data) <==> HasGroup(data, g) {
        if HasGroup(data, g) {
          var r :| r in data && r.categoryGroup == g;
          if r != last {
            assert r in init;
          }
        }
        if g in FirstSeen(init) {
          var r :| r in init && r.categoryGroup == g;
          assert r in data;
        }
      }
    }
  }

  /** Extending the records by one extends the first-seen list only by a new group. */
  lemma FirstSeenSnoc(data: seq<IndicatorRecord>, r: IndicatorRecord)
    ensures FirstSeen(data + [r]) ==
      if r.categoryGroup in FirstSeen(data) then FirstSeen(data) else FirstSeen(data) + [r.categoryGroup]
  {
    assert (data + [r])[..|data|] == data;
  }

  /** The dedup loop of the fetch-success path: walks the records once,
      appending each group not yet in `categories`. */
  method UniqueGroups(data: seq<IndicatorRecord>) returns (categories: seq<string>)
    ensures categories == FirstSeen(data)
    ensures BuiltFrom(categories, data)
  {
    categories := [];
    var i := 0;
    while i < |data|
      invariant 0 <= i <= |data|
      invariant categories == FirstSeen(data[..i])
    {
      var g := data[i].categoryGroup;
      FirstSeenSnoc(data[..i], data[i]);
      assert data[..i + 1] == data[..i] + [data[i]];
      if g !in categories {
        categories := categories + [g];
      }
      i := i + 1;
    }
    assert data[..|data|] == data;
    FirstSeenBuiltFrom(data);
  }
}
