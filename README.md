# Country indicator dashboard — Dafny model

This project models the logic of the single React component of the
tradingeconomics dashboard (`client/src/App.js`). The user picks one of four
countries. The component then fetches that country's economic-indicator
records. It groups the records under their sorted, distinct `CategoryGroup`
headings and shows a trend glyph for each record.

Modules, one per concern of the component:

- `Collation`: the string order used to sort headings. `localeCompare` is an
  abstract comparison `le` that is only assumed to be a total order
  (`IsTotalOrder`). `LexLe`, the code-point lexicographic order, is proved to
  be one. The module also holds the in-place sort (`InsertionSort` on an
  `array<string>`) and the facts about sorted, repetition-free lists.
- `Indicators`: the record datatype (the JSON fields `Category`,
  `CategoryGroup`, `LatestValue`, `PreviousValue`, `Unit`, `LatestValueDate`
  and `SourceURL`). It also holds the first-seen dedup of groups: the function
  `FirstSeen` and the loop `UniqueGroups` proved equal to it.
- `Presenter`: the render-branch choice (loading, then error, then data) and
  the grouping of records under headings, as the value `Screen`.
- `Trend`: the up/down/equal glyph, which compares absolute values.
- `Dashboard`: the class `App`. Its fields are the component's state
  (`countryData`, `categoryGroups`, `errorMsg`, `loading`, `selectedCountry`).
  Its methods are the transitions: `SelectCountry`, `ReceiveData` (the
  success path), `ReceiveError` (the failure path) and `GetCountryData`. The
  last one is the request step, with the HTTP outcome as an argument.
  `App.Valid()` is the invariant that every method keeps. It says the
  headings are always the sorted distinct groups of the stored data.

Numbers are `real`. An HTTP response is a `Response` value: the decoded
record array, or the plain-text body of a failed request.

A failure whose body holds the no-access sentinel sets `errorMsg` and keeps
the earlier `countryData` (client/src/App.js:31-36), so an error message and
stale data can be held at once; `ReceiveError` models this.

## Model

| member | source | states |
|---|---|---|
| `Dashboard.App.constructor` | client/src/App.js:10-15 | Initial state: no data, no headings, empty error, not loading, no country selected; the headings invariant holds |
| `Dashboard.App.SelectCountry` | client/src/App.js:40-45 | Choosing the selected country changes no field. Choosing another one sets `selectedCountry` and `loading`, leaves data, headings and error as they were, and the view becomes the loading message for that country |
| `Dashboard.App.ReceiveData` | client/src/App.js:22-29 | After a success the stored data is the response, the error is empty, loading is off and the selection is kept. The headings are sorted and are a permutation of the first-seen distinct groups. The view shows every record exactly as often as it occurs |
| `Dashboard.App.ReceiveError` | client/src/App.js:31-36 | After a failure loading is off. The error becomes the body exactly when the body contains the no-access sentinel, and stays as it was otherwise. Data, headings and selection are unchanged. A sentinel body is what the view then shows |
| `Dashboard.App.GetCountryData` | client/src/App.js:17-37 | With no country selected nothing changes. Otherwise a success or a failure is applied as the two reducers above state, and loading ends |
| `Dashboard.ViewShowsEveryRecordOnce` | client/src/App.js:71-80 | In any valid state where the grouped data is on screen, the sections together show the stored records, each exactly as often as it occurs |
| `Dashboard.GroupsDeterminedByData` | client/src/App.js:23-26 | Two heading lists that are both sorted and both built from the same records are equal, so the stored headings do not depend on the sort algorithm |
| `Dashboard.SortedGroups` | client/src/App.js:23-26 | The headings computed on success are sorted under the comparison, are a permutation of the first-seen distinct groups, have no repeats, hold exactly the groups of the data, and make the page show every record exactly as often as it occurs |
| `Dashboard.PermutedGroupsBuiltFrom` | client/src/App.js:24-26 | Sorting the first-seen list keeps it free of repeats and keeps exactly the groups of the data, so the sections show every record once |
| `Dashboard.OccursInTail` | client/src/App.js:32 | When the pattern is not a prefix of the body, it occurs in the body exactly when it occurs after the first character |
| `Dashboard.Contains` | client/src/App.js:32 | The substring test holds exactly when the pattern occurs at some index of the body |
| `Dashboard.ContainsInfix` | client/src/App.js:32 | A body with the sentinel anywhere inside it, whatever text surrounds it, passes the substring test |
| `Dashboard.ContainsExamples` | client/src/App.js:32-34 | A body equal to the sentinel is surfaced; a body of the same length that says "paid" instead of "free" is not |
| `Indicators.FirstSeen` | client/src/App.js:23-24 | Reference definition of the dedup loop: the groups in order of first occurrence, a group appended only when not already present; it has at most one entry per record (its other properties are `FirstSeenBuiltFrom`) |
| `Dashboard.App.View` | client/src/App.js:71-80 | The render of the current state: the loading message for the selected country while loading, else the error text when the message is non-empty, else one section per stored heading, in order, holding the stored records of that group |
| `Dashboard.AvailableCountriesDistinct` | client/src/App.js:14 | The offered countries are the four fixed names, in display order, with no name repeated (each serves as its button's key) |
| `Indicators.UniqueGroups` | client/src/App.js:23-24 | The dedup loop yields the first-seen list of groups. That list has no repeated element, and its elements are exactly the groups occurring in the data |
| `Indicators.FirstSeenBuiltFrom` | client/src/App.js:23-24 | The first-seen list has no repeated group and holds exactly the `CategoryGroup` values of the records |
| `Indicators.FirstSeenSnoc` | client/src/App.js:24 | Adding one record adds its group at the end when the group is new, and changes nothing otherwise |
| `Collation.InsertionSort` | client/src/App.js:26 | Sorting in place leaves the array in ascending order under the comparison and is a permutation of its old contents |
| `Collation.SortedUnique` | client/src/App.js:26 | Under a total order, two sorted lists with the same elements are equal |
| `Collation.LexLeIsTotalOrder` | client/src/App.js:26 | Code-point lexicographic order is reflexive, antisymmetric, transitive and total, so it is one valid stand-in for `localeCompare` |
| `Collation.PermutationKeepsNoDuplicates` | client/src/App.js:26 | A permutation of a repetition-free list is repetition-free |
| `Collation.SameElementsSameMultiset` | client/src/App.js:24-26 | Two repetition-free lists with the same elements are permutations of each other |
| `Presenter.Render` | client/src/App.js:71-73 | The view is Loading exactly when `loading` is set, and it names the selected country. It is the error text exactly when not loading and the message is non-empty. It is the grouped data exactly when not loading and the message is empty, with one section per heading |
| `Presenter.InGroup` | client/src/App.js:78-80 | A section shows each record of the heading's group as often as it occurs in the data, and no record of any other group |
| `Presenter.Sections` | client/src/App.js:75-77 | One section per heading, in the order of the headings |
| `Presenter.ShownCounts` | client/src/App.js:75-80 | With distinct headings, a record appears across all sections as often as in the data if its group has a heading, and not at all otherwise |
| `Presenter.EveryRecordShownOnce` | client/src/App.js:75-80 | When the headings were built from the data, the sections together show every record exactly as often as it occurs |
| `Presenter.RecordUnderItsHeading` | client/src/App.js:75-80 | When the headings were built from the data, each record appears under the heading equal to its group and under no other heading |
| `Presenter.SectionItems` | client/src/App.js:78-80 | Section `i` holds exactly the records whose group is heading `i` |
| `Trend.Classify` | client/src/App.js:105-110 | The glyph is Equal iff the absolute values are equal, Up iff the latest absolute value is larger, and Down iff it is smaller |
| `Trend.ClassifyIgnoresSign` | client/src/App.js:105-107 | Negating either value never changes the glyph; for example -5 against 5 is Equal |
| `Trend.ClassifySwapped` | client/src/App.js:105-110 | Swapping latest and previous turns Up into Down and Down into Up, and keeps Equal |
| `Trend.ClassifyExamples` | client/src/App.js:105-110 | 100 after 90 is Up; 50 after 50, -5 after -5 and -5 after 5 are Equal; 3 after -7 is Down |

## Left out

- The HTTP GET, its URL and the access key (client/src/App.js:20) are not modelled. The outcome of the request is the `Response` argument of `GetCountryData`.
- The 500 ms debounce and the effect/callback scheduling (client/src/App.js:17, 47-51) are not modelled. They are about timing, so `GetCountryData` is a step the caller invokes.
- A response that arrives after a newer selection is applied to the current state without a check. The model has no concurrency, so it does not show that race.
- The percent-change label (client/src/App.js:111-113) is not modelled. It depends on floating-point `toFixed` rounding and on comparing strings with `'0.00'`, and it divides by `LatestValue` without a zero check.
- Locale behaviour is not modelled: `toLocaleString`, `toLocaleDateString` and the exact collation of `localeCompare` (client/src/App.js:26, 97, 102). Sorting is proved for any total order instead. Ties between distinct strings are excluded: `localeCompare` returns 0 for some distinct strings (canonically equivalent ones such as a precomposed and a decomposed accented letter), where the engine's stable sort keeps first-seen order; `GroupsDeterminedByData` holds only for an order without such ties.
- `Collation.InsertionSort`: the engine's own sort algorithm is not modelled. `Collation.SortedUnique` shows that, with distinct headings and a total order, every correct sort gives the same list.
- `Trend.Classify`: the values are reals, so NaN, infinities and floating-point subtraction are not modelled. For finite doubles the sign of `|a| - |b|` agrees with comparing `|a|` and `|b|`.
- The crash when a failed request has no `response`, or when its body is not a string (client/src/App.js:32), is not modelled. The failure body is always a string here.
- Success data that is not an array is not modelled: the record list is always a sequence.
- `console.log` of the failure body (client/src/App.js:35), the JSX markup, CSS classes, icons, the `Loader` component and the source link are not modelled.
- `Dashboard.App.SelectCountry` accepts any string, as the source function does. The model does not restrict it to `AvailableCountries`, which holds the four offered names.
