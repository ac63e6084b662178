/** The component's state and its transitions: selecting a country, and the
    two outcomes of the indicator request for the selected country. The HTTP
    request itself is not modelled; its outcome is the `Response` argument. */
module Dashboard {
  import opened Collation
  import opened Indicators
  import opened Presenter

  /** The countries offered as buttons, in display order. */
  const AvailableCountries: seq<string> := ["Sweden", "Mexico", "Thailand", "New Zealand"]

  /** Every offered country is named once, so each button has its own key. */
  lemma AvailableCountriesDistinct()
    ensures |AvailableCountries| == 4 && NoDuplicates(AvailableCountries)
    ensures AvailableCountries[0] == "Sweden" && AvailableCountries[3] == "New Zealand"
  {
  }

  /** The text by which the service signals that the access tier does not
      cover the requested country. */
  const NoAccessSentinel: string := "No Access to this country as free user."

  /** Outcome of the GET for the selected country: the decoded record array,
      or the plain-text body of a failed response. */
  datatype Response = Received(data: seq<IndicatorRecord>) | Rejected(body: string)

  /** `pat` occurs in `s` starting at index `i`. */
  predicate OccursAt(s: string, pat: string, i: int) {
    0 <= i && i + |pat| <= |s| && s[i..i + |pat|] == pat
  }

  /** Substring test, as `String.prototype.includes`. */
  function Contains(s: string, pat: string): (b: bool)
    ensures b <==> exists i :: OccursAt(s, pat, i)
    decreases |s|
  {
    if |s| < |pat| then false
    else if s[..|pat|] == pat then
      assert OccursAt(s, pat, 0);
      true
    else
      OccursInTail(s, pat);
      Contains(s[1..], pat)
  }

  /** When `pat` is not a prefix of `s`, it occurs in `s` exactly when it occurs in `s[1..]`. */
  lemma OccursInTail(s: string, pat: string)
    requires |pat| <= |s| && s[..|pat|] != pat
    ensures (exists i :: OccursAt(s, pat, i)) <==> (exists i :: OccursAt(s[1..], pat, i))
  {
    if exists i :: OccursAt(s, pat, i) {
      var i :| OccursAt(s, pat, i);
      assert i != 0 by { assert s[0..|pat|] == s[..|pat|]; }
      assert s[1..][i - 1..i - 1 + |pat|] == s[i..i + |pat|];
      assert OccursAt(s[1..], pat, i - 1);
    }
    if exists i :: OccursAt(s[1..], pat, i) {
      var i :| OccursAt(s[1..], pat, i);
      assert s[1..][i..i + |pat|] == s[i + 1..i + 1 + |pat|];
      assert OccursAt(s, pat, i + 1);
    }
  }

  /** Any body with the pattern inside it, whatever surrounds it, contains it. */
  lemma ContainsInfix(before: string, pat: string, after: string)
    ensures Contains(before + pat + after, pat)
  {
    var s := before + pat + after;
    assert s[|before|..|before| + |pat|] == pat;
    assert OccursAt(s, pat, |before|);
  }

  /** A body that is the sentinel itself is surfaced; a body as long as the
      sentinel that differs from it in one word is not. */
  lemma ContainsExamples()
    ensures Contains(NoAccessSentinel, NoAccessSentinel)
    ensures !Contains("No Access to this country as paid user.", NoAccessSentinel)
  {
    var other := "No Access to this country as paid user.";
    assert |other| == |NoAccessSentinel|;
    assert other[29] != NoAccessSentinel[29];
    assert other[..|NoAccessSentinel|] != NoAccessSentinel;
    ContainsInfix("", NoAccessSentinel, "");
    assert "" + NoAccessSentinel + "" == NoAccessSentinel;
  }

  /** Sorting the first-seen list keeps it a repetition-free list of exactly
      the data's groups, so the page then shows every record once. */
  lemma PermutedGroupsBuiltFrom(sorted: seq<string>, categories: seq<string>, data: seq<IndicatorRecord>)
    requires BuiltFrom(categories, data)
    requires multiset(sorted) == multiset(categories)
    ensures BuiltFrom(sorted, data)
    ensures multiset(Shown(Sections(sorted, data))) == multiset(data)
  {
    PermutationKeepsNoDuplicates(sorted, categories);
    forall g ensures g in sorted <==> g in categories {
      assert g in sorted <==> g in multiset(sorted);
      assert g in categories <==> g in multiset(categories);
    }
    EveryRecordShownOnce(sorted, data);
  }

  /** The headings step of the success path: collect the distinct groups in
      first-seen order, then sort that array in place. */
  method SortedGroups(data: seq<IndicatorRecord>, le: (string, string) -> bool) returns (groups: seq<string>)
    requires IsTotalOrder(le)
    ensures Sorted(le, groups)
    ensures multiset(groups) == multiset(FirstSeen(data))
    ensures BuiltFrom(groups, data)
    ensures multiset(Shown(Sections(groups, data))) == multiset(data)
  {
    var categories := UniqueGroups(data);
    var buffer := new string[|categories|](i requires 0 <= i < |categories| => categories[i]);
    assert buffer[..] == categories;
    InsertionSort(buffer, le);
    groups := buffer[..];
    PermutedGroupsBuiltFrom(groups, categories, data);
  }

  /** Two heading lists built from the same records and both sorted are the
      same list: the stored headings depend only on the data and the order. */
  lemma GroupsDeterminedByData(le: (string, string) -> bool, g1: seq<string>, g2: seq<string>,
                               data: seq<IndicatorRecord>)
    requires IsTotalOrder(le)
    requires BuiltFrom(g1, data) && Sorted(le, g1)
    requires BuiltFrom(g2, data) && Sorted(le, g2)
    ensures g1 == g2
  {
    SameElementsSameMultiset(g1, g2);
    SortedUnique(le, g1, g2);
  }

  class App {
    /** The locale comparison used to sort headings (`localeCompare(b) <= 0`). */
    const collate: (string, string) -> bool
    var countryData: Option<seq<IndicatorRecord>>
    var categoryGroups: seq<string>
    var errorMsg: string
    var loading: bool
    var selectedCountry: string

    /** The headings are always the sorted distinct groups of the stored data
        (none while no data has arrived). */
    ghost predicate Valid()
      reads this
    {
      && IsTotalOrder(collate)
      && match countryData
         case None => categoryGroups == []
         case Some(data) => BuiltFrom(categoryGroups, data) && Sorted(collate, categoryGroups)
    }

    /** What the component renders from its current state. */
    function View(): (v: Screen)
      reads this
      ensures loading ==> v == Loading(selectedCountry)
      ensures !loading && errorMsg != "" ==> v == ErrorText(errorMsg)
      ensures !loading && errorMsg == "" ==> v.Groups? && |v.sections| == |categoryGroups|
      ensures v.Groups? ==> forall i :: 0 <= i < |v.sections| ==>
        && v.sections[i].heading == categoryGroups[i]
        && v.sections[i].items == InGroup(match countryData case None => [] case Some(d) => d, categoryGroups[i])
    {
      var v := Render(loading, errorMsg, selectedCountry, categoryGroups, countryData);
      assert v.Groups? ==> forall i :: 0 <= i < |v.sections| ==>
        v.sections[i].items == InGroup(match countryData case None => [] case Some(d) => d, categoryGroups[i]) by {
        if v.Groups? {
          forall i | 0 <= i < |v.sections| {
            SectionItems(categoryGroups, match countryData case None => [] case Some(d) => d, i);
          }
        }
      }
      v
    }

    /** Initial state: no data, no headings, no error, not loading, no selection. */
    constructor(collate: (string, string) -> bool)
      requires IsTotalOrder(collate)
      ensures Valid() && this.collate == collate
      ensures countryData == None && categoryGroups == [] && errorMsg == ""
      ensures !loading && selectedCountry == ""
    {
      this.collate := collate;
      countryData := None;
      categoryGroups := [];
      errorMsg := "";
      loading := false;
      selectedCountry := "";
    }

    /** A click on a country button: a different country becomes selected
        and loading starts; clicking the selected one changes nothing. */
    method SelectCountry(country: string)
      requires Valid()
      modifies this
      ensures Valid()
      ensures country == old(selectedCountry) ==> unchanged(this)
      ensures country != old(selectedCountry) ==>
        && selectedCountry == country && loading
        && countryData == old(countryData) && categoryGroups == old(categoryGroups)
        && errorMsg == old(errorMsg)
        && View() == Loading(country)
    {
      if country != selectedCountry {
        selectedCountry := country;
        loading := true;
      }
    }

    /** A successful response: the records are stored with their sorted
        distinct groups, the error is cleared and loading ends. */
    method ReceiveData(data: seq<IndicatorRecord>)
      requires Valid()
      modifies this
      ensures Valid()
      ensures countryData == Some(data) && errorMsg == "" && !loading
      ensures selectedCountry == old(selectedCountry)
      ensures Sorted(collate, categoryGroups)
      ensures multiset(categoryGroups) == multiset(FirstSeen(data))
      ensures View().Groups? && multiset(Shown(View().sections)) == multiset(data)
    {
      var sorted := SortedGroups(data, collate);
      categoryGroups := sorted;
      countryData := Some(data);
      errorMsg := "";
      loading := false;
      assert View() == Groups(Sections(sorted, data));
    }

    /** A failed response: loading ends; the body becomes the error message
        only when it contains the no-access sentinel. Data and headings stay. */
    method ReceiveError(body: string)
      requires Valid()
      modifies this
      ensures Valid()
      ensures !loading
      ensures errorMsg == if Contains(body, NoAccessSentinel) then body else old(errorMsg)
      ensures countryData == old(countryData) && categoryGroups == old(categoryGroups)
      ensures selectedCountry == old(selectedCountry)
      ensures Contains(body, NoAccessSentinel) ==> View() == ErrorText(body)
    {
      if Contains(body, NoAccessSentinel) {
        errorMsg := body;
      }
      loading := false;
    }

    /** The request-and-resolve step: with no country selected nothing is
        requested and nothing changes; otherwise the response is applied. */
    method GetCountryData(response: Response)
      requires Valid()
      modifies this
      ensures Valid()
      ensures old(selectedCountry) == "" ==> unchanged(this)
      ensures old(selectedCountry) != "" ==> !loading && selectedCountry == old(selectedCountry)
      ensures old(selectedCountry) != "" && response.Received? ==>
        && countryData == Some(response.data) && errorMsg == ""
        && multiset(categoryGroups) == multiset(FirstSeen(response.data))
      ensures old(selectedCountry) != "" && response.Rejected? ==>
        && countryData == old(countryData) && categoryGroups == old(categoryGroups)
        && errorMsg == if Contains(response.body, NoAccessSentinel) then response.body else old(errorMsg)
    {
      if selectedCountry != "" {
        match response
        case Received(data) => ReceiveData(data);
        case Rejected(body) => ReceiveError(body);
      }
    }
  }

  /** Whenever the grouped data is on screen, every stored record is shown,
      each exactly as often as it occurs in the data. */
  lemma ViewShowsEveryRecordOnce(app: App)
    requires app.Valid()
    requires app.View().Groups?
    ensures multiset(Shown(app.View().sections)) ==
      match app.countryData case None => multiset{} case Some(data) => multiset(data)
  {
    match app.countryData
    case None =>
    case Some(data) => EveryRecordShownOnce(app.categoryGroups, data);
  }
}
