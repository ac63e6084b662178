/** What the component renders below the country buttons, as a value: the
    loading message, the error text, or one section per category group
    holding the records of that group. */
module Presenter {
  import opened Collation
  import opened Indicators

  datatype Section = Section(heading: string, items: seq<IndicatorRecord>)

  datatype Screen =
    | Loading(country: string)
    | ErrorText(message: string)
    | Groups(sections: seq<Section>)

  /** The records of `data` whose group is `g`, in their original order
      (the `item.CategoryGroup === cat &&` guard inside `countryData?.map`). */
  function InGroup(data: seq<IndicatorRecord>, g: string): (items: seq<IndicatorRecord>)
    ensures forall r :: multiset(items)[r] == if r.categoryGroup == g then multiset(data)[r] else 0
  {
    if data == [] then []
    else
      assert data == [data[0]] + data[1..];
      var rest := InGroup(data[1..], g);
      if data[0].categoryGroup == g then [data[0]] + rest else rest
  }

  /** One section per heading of `groups`, in the order of `groups`. */
  function Sections(groups: seq<string>, data: seq<IndicatorRecord>): (ss: seq<Section>)
    ensures |ss| == |groups|
    ensures forall i :: 0 <= i < |ss| ==> ss[i].heading == groups[i]
  {
    if groups == [] then []
    else [Section(groups[0], InGroup(data, groups[0]))] + Sections(groups[1..], data)
  }

  /** Every record rendered on the page, section after section. */
  function Shown(ss: seq<Section>): seq<IndicatorRecord> {
    if ss == [] then [] else ss[0].items + Shown(ss[1..])
  }

  /** The render-branch choice: loading first, then a non-empty error
      message, then the grouped data (no data yet renders as no records). */
  function Render(loading: bool, errorMsg: string, selectedCountry: string,
                  categoryGroups: seq<string>, countryData: Option<seq<IndicatorRecord>>): (s: Screen)
    ensures s.Loading? <==> loading
    ensures s.Loading? ==> s.country == selectedCountry
    ensures s.ErrorText? <==> !loading && errorMsg != ""
    ensures s.ErrorText? ==> s.message == errorMsg
    ensures s.Groups? <==> !loading && errorMsg == ""
    ensures s.Groups? ==> |s.sections| == |categoryGroups|
  {
    if loading then Loading(selectedCountry)
    else if errorMsg != "" then ErrorText(errorMsg)
    else Groups(Sections(categoryGroups, match countryData case None => [] case Some(d) => d))
  }

  /** With distinct headings, a record is shown as often as it occurs in the
      data when its group has a heading, and never otherwise. */
  lemma {:induction false} ShownCounts(groups: seq<string>, data: seq<IndicatorRecord>, r: IndicatorRecord)
    requires NoDuplicates(groups)
    ensures multiset(Shown(Sections(groups, data)))[r] ==
      if r.categoryGroup in groups then multiset(data)[r] else 0
  {
    if groups != [] {
      var rest := groups[1..];
      assert NoDuplicates(rest) by {
        forall i, j | 0 <= i < j < |rest| ensures rest[i] != rest[j] {
          assert rest[i] == groups[i + 1] && rest[j] == groups[j + 1];
        }
      }
      assert groups[0] !in rest by {
        forall k | 0 <= k < |rest| ensures rest[k] != groups[0] {
          assert rest[k] == groups[k + 1];
        }
      }
      ShownCounts(rest, data, r);
      assert groups == [groups[0]] + rest;
    }
  }

  /** When the headings were built from the data, the sections together show
      every record exactly as many times as it occurs in the data. */
  lemma EveryRecordShownOnce(groups: seq<string>, data: seq<IndicatorRecord>)
    requires BuiltFrom(groups, data)
    ensures multiset(Shown(Sections(groups, data))) == multiset(data)
  {
    forall r ensures multiset(Shown(Sections(groups, data)))[r] == multiset(data)[r] {
      ShownCounts(groups, data, r);
      if r in data {
        assert HasGroup(data, r.categoryGroup);
      }
    }
  }

  /** When the headings were built from the data, each record of the data
      appears under the heading equal to its group, and under no other. */
  lemma RecordUnderItsHeading(groups: seq<string>, data: seq<IndicatorRecord>, r: IndicatorRecord)
    requires BuiltFrom(groups, data)
    requires r in data
    ensures var ss := Sections(groups, data);
      exists i :: 0 <= i < |ss| && ss[i].heading == r.categoryGroup && r in ss[i].items &&
        forall j :: 0 <= j < |ss| && j != i ==> r !in ss[j].items
  {
    var ss := Sections(groups, data);
    assert HasGroup(data, r.categoryGroup);
    var i :| 0 <= i < |groups| && groups[i] == r.categoryGroup;
    SectionItems(groups, data, i);
    assert multiset(ss[i].items)[r] == multiset(data)[r];
    forall j | 0 <= j < |ss| && j != i ensures r !in ss[j].items {
      SectionItems(groups, data, j);
      assert multiset(ss[j].items)[r] == 0;
    }
  }

  /** Section `i` holds the records of group `groups[i]`. */
  lemma {:induction false} SectionItems(groups: seq<string>, data: seq<IndicatorRecord>, i: nat)
    requires i < |groups|
    ensures Sections(groups, data)[i].items == InGroup(data, groups[i])
  {
    if i > 0 {
      SectionItems(groups[1..], data, i - 1);
    }
  }
}
