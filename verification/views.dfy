/**
 Read-only views computed from the store on every render: the filtered fee
 list of the fee screen, the revenue total and the recent-fee slice of the
 dashboard chart.
 */
module Views {
  import opened Records
  import opened Repository
  import Strings

  /** The method filter value that lets every payment method through. */
  const AllMethods: string := "all"

  /** Whether the fee list keeps `f`: its method passes the method filter and
      the lowercased display name of its student contains the lowercased
      search term. */
  predicate KeepFee(students: seq<Student>, f: Fee, methodFilter: string, search: string): (keep: bool)
    ensures keep <==>
      && (methodFilter == AllMethods || f.paymentMethod == methodFilter)
      && exists i :: Strings.OccursAt(Strings.Lower(GetStudentName(students, f.studentId)), Strings.Lower(search), i)
  {
    var name := Strings.Lower(GetStudentName(students, f.studentId));
    Strings.ContainsIsOccurrence(name, Strings.Lower(search));
    && (methodFilter == AllMethods || f.paymentMethod == methodFilter)
    && Strings.Contains(name, Strings.Lower(search))
  }

  /** The fee list shown on the fee screen: the fees that pass both filters,
      in their original order. */
  function FilterFees(students: seq<Student>, fees: seq<Fee>, methodFilter: string, search: string): (r: seq<Fee>)
    ensures |r| <= |fees|
    ensures forall f :: f in r ==> f in fees && KeepFee(students, f, methodFilter, search)
    ensures forall i :: 0 <= i < |fees| && KeepFee(students, fees[i], methodFilter, search) ==> fees[i] in r
  {
    if |fees| == 0 then []
    else
      var rest := FilterFees(students, fees[1..], methodFilter, search);
      if KeepFee(students, fees[0], methodFilter, search) then [fees[0]] + rest else rest
  }

  /** `xs` can be obtained from `ys` by deleting elements, keeping the order
      of the rest. */
  ghost predicate IsSubsequence<T>(xs: seq<T>, ys: seq<T>)
    decreases |ys|
  {
    if |xs| == 0 then true
    else if |ys| == 0 then false
    else (xs[0] == ys[0] && IsSubsequence(xs[1..], ys[1..])) || IsSubsequence(xs, ys[1..])
  }

  /** The filtered list keeps the fees in the order they were recorded. */
  lemma {:induction false} FilterIsSubsequence(students: seq<Student>, fees: seq<Fee>, methodFilter: string, search: string)
    ensures IsSubsequence(FilterFees(students, fees, methodFilter, search), fees)
    decreases |fees|
  {
    if |fees| > 0 {
      FilterIsSubsequence(students, fees[1..], methodFilter, search);
      var r := FilterFees(students, fees, methodFilter, search);
      if KeepFee(students, fees[0], methodFilter, search) {
        assert r[1..] == FilterFees(students, fees[1..], methodFilter, search);
      }
    }
  }

  /** Recording one more fee extends the filtered list by that fee exactly
      when the fee passes the filters; together with the empty case this pins
      the filtered list down completely. */
  lemma {:induction false} FilterAppend(students: seq<Student>, fees: seq<Fee>, f: Fee, methodFilter: string, search: string)
    ensures FilterFees(students, fees + [f], methodFilter, search)
         == FilterFees(students, fees, methodFilter, search)
            + (if KeepFee(students, f, methodFilter, search) then [f] else [])
    decreases |fees|
  {
    if |fees| > 0 {
      assert (fees + [f])[1..] == fees[1..] + [f];
      FilterAppend(students, fees[1..], f, methodFilter, search);
    } else {
      assert fees + [f] == [f];
    }
  }

  /** With the method filter on "all" and an empty search term every fee is
      shown, in order. */
  lemma {:induction false} FilterShowsAllByDefault(students: seq<Student>, fees: seq<Fee>)
    ensures FilterFees(students, fees, AllMethods, "") == fees
    decreases |fees|
  {
    if |fees| > 0 {
      Strings.ContainsEmpty(Strings.Lower(GetStudentName(students, fees[0].studentId)));
      assert Strings.Lower("") == "";
      FilterShowsAllByDefault(students, fees[1..]);
      assert [fees[0]] + fees[1..] == fees;
    }
  }

  /** The search ignores letter case: two search terms that lowercase alike
      select the same fees. */
  lemma {:induction false} FilterIgnoresCase(students: seq<Student>, fees: seq<Fee>, methodFilter: string, search1: string, search2: string)
    requires Strings.Lower(search1) == Strings.Lower(search2)
    ensures FilterFees(students, fees, methodFilter, search1) == FilterFees(students, fees, methodFilter, search2)
    decreases |fees|
  {
    if |fees| > 0 {
      FilterIgnoresCase(students, fees[1..], methodFilter, search1, search2);
    }
  }

  /** Searching for a term selects the same fees as searching for its
      lowercase form. */
  lemma FilterSearchLowercased(students: seq<Student>, fees: seq<Fee>, methodFilter: string, search: string)
    ensures FilterFees(students, fees, methodFilter, search) == FilterFees(students, fees, methodFilter, Strings.Lower(search))
  {
    Strings.LowerIdempotent(search);
    FilterIgnoresCase(students, fees, methodFilter, search, Strings.Lower(search));
  }

  /** A fee whose student cannot be found is searched under the name
      "Unknown": it is kept exactly when its method passes and the lowercased
      search term occurs in "unknown". */
  lemma DanglingFeeSearchesUnknown(students: seq<Student>, f: Fee, methodFilter: string, search: string)
    requires forall j :: 0 <= j < |students| ==> !SameId(students[j].id, f.studentId)
    ensures KeepFee(students, f, methodFilter, search)
        <==> (methodFilter == AllMethods || f.paymentMethod == methodFilter)
             && Strings.Contains("unknown", Strings.Lower(search))
  {
    assert Strings.Lower(Unknown) == "unknown";
  }

  /** Students "Ana" (id 1) and "Ben" (id 2), one cash fee each, with the
      student ids given as form text: filtering on "Cash" and "an" keeps
      only Ana's fee. */
  lemma FilterExample()
    ensures
      var ana := Student(Num(1), "Ana", Text("1"), "555", "1/1/2024");
      var ben := Student(Num(2), "Ben", Text("1"), "556", "1/1/2024");
      var f1 := Fee(Num(10), Text("1"), 500, "2023-10", "Cash", "1/10/2023");
      var f2 := Fee(Num(11), Text("2"), 450, "2023-10", "Cash", "1/10/2023");
      FilterFees([ana, ben], [f1, f2], "Cash", "an") == [f1]
  {
    var ana := Student(Num(1), "Ana", Text("1"), "555", "1/1/2024");
    var ben := Student(Num(2), "Ben", Text("1"), "556", "1/1/2024");
    var f1 := Fee(Num(10), Text("1"), 500, "2023-10", "Cash", "1/10/2023");
    var f2 := Fee(Num(11), Text("2"), 450, "2023-10", "Cash", "1/10/2023");
    var students := [ana, ben];
    assert Strings.IntToStr(1) == "1" && Strings.IntToStr(2) == "2";
    assert FindStudent(students, Text("1")) == Some(0);
    assert FindStudent(students, Text("2")) == Some(1);
    assert Strings.Lower("Ana") == "ana";
    assert Strings.Lower("Ben") == "ben";
    assert Strings.Lower("an") == "an";
    assert Strings.Contains("ana", "an");
    assert !Strings.Contains("n", "an");
    assert "ben"[1..] == "en" && "en"[1..] == "n";
    assert "an"[0] != "en"[0] && !("an" <= "en");
    assert !Strings.Contains("en", "an");
    assert "an"[0] != "ben"[0] && !("an" <= "ben");
    assert !Strings.Contains("ben", "an");
    assert [f1, f2][1..] == [f2];
  }

  /** The sum of the fee amounts. */
  function SumAmounts(fees: seq<Fee>): int {
    if |fees| == 0 then 0 else fees[0].amount + SumAmounts(fees[1..])
  }

  /** The total is additive over concatenation of fee lists. */
  lemma {:induction false} SumAmountsAppend(a: seq<Fee>, b: seq<Fee>)
    ensures SumAmounts(a + b) == SumAmounts(a) + SumAmounts(b)
    decreases |a|
  {
    if |a| > 0 {
      assert (a + b)[1..] == a[1..] + b;
      SumAmountsAppend(a[1..], b);
    } else {
      assert a + b == b;
    }
  }

  /** The dashboard revenue: a left-to-right running total of the amounts,
      starting at 0. */
  method TotalRevenue(fees: seq<Fee>) returns (total: int)
    ensures total == SumAmounts(fees)
  {
    total := 0;
    for i := 0 to |fees|
      invariant total == SumAmounts(fees[..i])
    {
      SumAmountsAppend(fees[..i], [fees[i]]);
      assert fees[..i + 1] == fees[..i] + [fees[i]];
      total := total + fees[i].amount;
    }
    assert fees[..|fees|] == fees;
  }

  /** Recording a fee raises the revenue by exactly its amount. */
  lemma RevenueAfterAddFee(s: Store, now: int, studentId: Id, amount: int, month: string, paymentMethod: string, today: string)
    ensures SumAmounts(AddFee(s, now, studentId, amount, month, paymentMethod, today).fees) == SumAmounts(s.fees) + amount
  {
    var f := Fee(Num(now), studentId, amount, month, paymentMethod, today);
    SumAmountsAppend(s.fees, [f]);
  }

  /** Fees of 500 and 450 give a revenue of 950; no fees give 0. */
  lemma RevenueExample(f1: Fee, f2: Fee)
    requires f1.amount == 500 && f2.amount == 450
    ensures SumAmounts([f1, f2]) == 950
    ensures SumAmounts([]) == 0
  {
    assert [f2][1..] == [];
    assert SumAmounts([f2]) == 450;
    assert [f1, f2][1..] == [f2];
  }

  function Min(a: int, b: int): int {
    if a <= b then a else b
  }

  /** `r` is the tail end of `xs`. */
  ghost predicate IsSuffix<T>(r: seq<T>, xs: seq<T>) {
    |r| <= |xs| && xs[|xs| - |r|..] == r
  }

  /** `Array.prototype.slice(begin)` with one argument: a negative `begin`
      counts from the end and is clamped at the front, a non-negative one is
      clamped at the end. */
  function JsSlice<T>(xs: seq<T>, begin: int): (r: seq<T>)
    ensures begin < 0 ==> |r| == Min(-begin, |xs|)
    ensures 0 <= begin ==> |r| == |xs| - Min(begin, |xs|)
    ensures IsSuffix(r, xs)
  {
    var start := if begin < 0 then (if |xs| + begin < 0 then 0 else |xs| + begin) else Min(begin, |xs|);
    xs[start..]
  }

  /** How many recent fees the dashboard chart shows. */
  const ChartSize: nat := 5

  /** The fees fed to the dashboard chart: the most recently recorded ones,
      in recording order (not sorted by month). */
  function ChartData(fees: seq<Fee>): (r: seq<Fee>)
    ensures |r| == Min(ChartSize, |fees|)
    ensures IsSuffix(r, fees)
  {
    JsSlice(fees, -(ChartSize as int))
  }

  /** While there are at most five fees, the chart shows all of them. */
  lemma ChartShowsShortHistory(fees: seq<Fee>)
    requires |fees| <= ChartSize
    ensures ChartData(fees) == fees
  {
  }

  /** The chart is a sliding window: a new fee enters at the end and, once
      five are shown, the oldest shown one leaves. */
  lemma ChartSlides(fees: seq<Fee>, f: Fee)
    ensures ChartData(fees + [f])
         == (if |fees| < ChartSize then ChartData(fees) else ChartData(fees)[1..]) + [f]
  {
  }
}
