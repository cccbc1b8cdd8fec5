# Tutorial manager data layer, in Dafny

The tutorial manager is a single-page browser application that keeps students,
courses and fee payments for a small class business. Everything it does beyond
markup lives in a small client-side data layer inside the `App` component:

- three insertion-ordered collections (students, courses, fees), loaded once
  from local storage, with two default courses seeded on a first run;
- two append-only mutations, `addStudent` and `addFee`, each stamping the new
  record with the clock time as its id and today's date;
- a tolerant name lookup, `getStudentName`, that compares ids by their string
  form and falls back to `"Unknown"`;
- three derived views: the fee list filtered by payment method and by a
  case-insensitive search on the student's display name, the revenue total,
  and the last five fees that feed the dashboard chart.

This project models that layer with immutable datatypes over `seq` and pure
functions, and proves what each piece promises.

- `strings.dfy` (module `Strings`): decimal rendering of integer ids with a
  parser that inverts it, ASCII lowercasing, and the substring test behind
  `includes`.
- `records.dfy` (module `Records`): identifiers (`Num` for clock stamps and
  seeded ids, `Text` for values that come back from form fields), their string
  comparison, and the `Student`, `Course` and `Fee` records.
- `repository.dfy` (module `Repository`): the store, load/save against an
  abstract storage of optional lists, `AddStudent`, `AddFee`, the first-match
  search and `GetStudentName`.
- `views.dfy` (module `Views`): `FilterFees`, the revenue total and the chart
  slice.

In these points the model follows what the code does:

- A stored blob that is not valid JSON makes `JSON.parse` throw. It is not
  treated as an empty collection. `Load` therefore only distinguishes an absent
  (or null) value from a stored list.
- `addStudent` and `addFee` return nothing. They replace the collection with
  the old one plus one record. `AddStudent` and `AddFee` return the new store.
- The payment method is whatever string the form sends. It is not an
  enumeration, and the filter compares it by string equality.

## Model

| member | source | states |
|---|---|---|
| Repository.Load | src/App.js:9-14 | a stored list is used as it is, even when empty; an absent key gives no students, no fees and exactly the two default courses (Mathematics 500, Science 450) |
| Repository.Save | src/App.js:21-25 | all three collections are written, and loading what was written gives back the same store, element for element and in order |
| Repository.SeedNotRepeated | src/App.js:10-13 | the default courses are seeded only when nothing is stored: a stored empty course list stays empty, and a save and reload after adding a student or a fee gives back exactly the courses the store held |
| Repository.AddStudent | src/App.js:28-40 | the student list grows by one, every earlier student stays in place, the new last student carries the clock id, form fields and date, and courses and fees are untouched |
| Repository.AddFee | src/App.js:42-55 | the fee list grows by one, every earlier fee stays in place, the new last fee carries the clock id, form fields and date, and students and courses are untouched |
| Repository.FindStudent | src/App.js:57 | the result is the index of the first student whose id has the same string form as the query, or none when no student matches |
| Repository.GetStudentName | src/App.js:57 | the display name is never empty; it is the first matching student's name, or "Unknown" when that name is empty or nothing matches |
| Repository.FindStudentAppend | src/App.js:57 | appending a student changes a search only when nothing matched before, so a repeated id never shadows the earlier student |
| Repository.AddedStudentIsFound | src/App.js:57 | a student added under a fresh clock value is found by any id with the same string form, numeric or text, and its non-empty name is returned |
| Repository.AddStudentKeepsOtherNames | src/App.js:57 | adding a student leaves the name of every id alone that already had a match or does not match the new id |
| Repository.AddStudentKeepsIdsIncreasing | src/App.js:31-38 | when the clock has moved past the last id, creating a student keeps the numeric ids strictly increasing and so unique |
| Repository.EveryStudentFindsItself | src/App.js:57 | with strictly increasing ids, looking a student up by its own id finds that very student |
| Records.SameNumericId | src/App.js:57 | two numeric ids have the same string form exactly when they are equal |
| Strings.ParseIntToStr | src/App.js:57 | reading the decimal rendering of an integer id gives the integer back |
| Strings.IntToStrInjective | src/App.js:57 | two integers have the same decimal rendering exactly when they are equal |
| Strings.Lower | src/App.js:61 | lowercasing keeps the length, leaves no upper-case ASCII letter, and changes only upper-case letters, each to its lower-case form |
| Strings.ContainsIsOccurrence | src/App.js:61 | the substring test holds exactly when the search term occurs at some index of the name |
| Views.KeepFee | src/App.js:60-62 | a fee is kept exactly when the method filter is "all" or equals its method, and the lowercased search term occurs at some index of the lowercased display name of its student |
| Views.FilterFees | src/App.js:59-63 | every listed fee is a recorded fee that passes the method filter and whose lowercased student name contains the lowercased search term; every recorded fee that passes both is listed |
| Views.FilterIsSubsequence | src/App.js:59-63 | the filtered list is an order-preserving subsequence of the recorded fees |
| Views.FilterAppend | src/App.js:59-63 | recording a fee extends the filtered list by that fee exactly when it passes the filters, and leaves it unchanged otherwise |
| Views.FilterShowsAllByDefault | src/App.js:60-61 | with method "all" and an empty search term the filtered list is the whole fee list, in order |
| Views.FilterIgnoresCase | src/App.js:61 | two search terms that lowercase alike select the same fees |
| Views.FilterSearchLowercased | src/App.js:61 | searching for a term selects the same fees as searching for its lowercase form |
| Views.DanglingFeeSearchesUnknown | src/App.js:57-61 | a fee whose student cannot be found is searched under "Unknown", so it is kept exactly when its method passes and the lowercased term occurs in "unknown" |
| Views.FilterExample | src/App.js:59-63 | with students Ana (id 1) and Ben (id 2) and one cash fee each, filtering on "Cash" and "an" keeps only Ana's fee |
| Views.SumAmountsAppend | src/App.js:109 | the revenue of two concatenated fee lists is the sum of their revenues |
| Views.TotalRevenue | src/App.js:109 | the left-to-right running total starting at 0 equals the sum of all fee amounts |
| Views.RevenueAfterAddFee | src/App.js:109 | recording a fee of amount a raises the revenue by exactly a |
| Views.RevenueExample | src/App.js:109 | fees of 500 and 450 total 950, and no fees total 0 |
| Views.JsSlice | src/App.js:118 | a one-argument slice is a suffix of the list; a negative start -k gives the last min(k, length) elements |
| Views.ChartData | src/App.js:118 | the chart shows a suffix of the fee list of length min(5, number of fees), in recording order |
| Views.ChartShowsShortHistory | src/App.js:118 | with at most five fees the chart shows all of them |
| Views.ChartSlides | src/App.js:118 | a new fee enters the chart at the end, and once five are shown the oldest shown fee leaves |

## Left out

- Rendering, the sidebar, the `activeTab` and `isSidebarOpen` selectors and the student and fee tables: presentation only, with no logic beyond a free choice of view.
- `localStorage` reads and writes and `JSON.parse`/`JSON.stringify`: browser I/O. Each stored collection is an `Option` of a list. A blob that does not parse throws in the application and is not modelled. Falsy JSON values other than null (`false`, `0`, `""`) would also select the defaults; the application only ever writes arrays, so these are not modelled.
- The persistence effect runs after every change; the model offers `Save` and proves that reloading its output restores the store, but does not model when React runs the effect.
- `Date.now()` and `toLocaleDateString()`: the clock value and the formatted date are parameters of `AddStudent` and `AddFee`. Nothing in the code makes ids unique; `AddStudentKeepsIdsIncreasing` takes a clock that has moved past the last id as its precondition.
- `Number(curr.amount)` coercion: the form sends the amount as text, and text that is not a number yields `NaN` in the total. Amounts are integers here; floating-point sums are not modelled.
- `toString()` of a number is exact decimal only for safe integers (magnitude below 2^53). Larger integers print as the shortest digit string that reads back as the same number, and non-integers print with a fraction or exponent; neither is modelled. Clock values and seeded ids are safe integers.
- A null id is not modelled: every id in the model is present. A fee recorded while no student exists gets a null student id from the empty select (src/App.js:174-176). While the student list stays empty, `find` never calls its callback and the lookup gives "Unknown". Once a student is added, `null.toString()` throws inside the fee filter, which runs on every render, so the application stops rendering.
- `FormData`, `preventDefault`, `reset` and the HTML `required` checks: DOM plumbing. A form field that is missing (null) is not modelled; every field is a string or an id.
- `toLowerCase` folds the full Unicode range; `Strings.Lower` folds ASCII letters only.
- The `month` field of the fee filter state is initialised but never read by the filter, so the model has no month filter.
- The dashboard's student count (`students.length`) and the chart and icon components: display only.
