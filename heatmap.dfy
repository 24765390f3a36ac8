/** The heat map's derived view: entries grouped by calendar-day key, one
    cell per day of a window that ends at `endDate`, each cell's share of the
    largest day total. Days are numbered from Thursday 1 January 1970. */
module Heatmap {
  import opened Ledger
  import Decimal

  // ---------------------------------------------------------------------
  // Day keys

  /** `text.split('T')[0]`: the text before the first 'T', all of it when
      there is none. */
  function DateKey(text: string): (k: string)
    ensures k <= text
    ensures 'T' !in k
    ensures |k| < |text| ==> text[|k|] == 'T'
  {
    if text == [] || text[0] == 'T' then [] else [text[0]] + DateKey(text[1..])
  }

  /** A 'T'-free prefix that stops at the end or at a 'T' is the key. */
  lemma {:induction false} DateKeyUnique(text: string, k: string)
    requires k <= text && 'T' !in k
    requires |k| == |text| || text[|k|] == 'T'
    ensures DateKey(text) == k
  {
    if k != [] {
      assert text[0] == k[0];
      assert k[0] in k;
      DateKeyUnique(text[1..], k[1..]);
      assert k == [k[0]] + k[1..];
    }
  }

  /** The canonical key of a day number (its decimal text); it stands for
      the "YYYY-MM-DD" text that the date library produces. */
  function DayKey(day: int): (k: string)
    ensures 'T' !in k
  {
    if day >= 0 then Decimal.NatStr(day) else "-" + Decimal.NatStr(-day)
  }

  lemma DayKeyInjective(a: int, b: int)
    ensures DayKey(a) == DayKey(b) ==> a == b
  {
    if a >= 0 && b >= 0 {
      Decimal.NatStrInjective(a, b);
    } else if a < 0 && b < 0 {
      assert DayKey(a)[1..] == Decimal.NatStr(-a);
      assert DayKey(b)[1..] == Decimal.NatStr(-b);
      Decimal.NatStrInjective(-a, -b);
    } else {
      assert Decimal.IsDigit(DayKey(if a >= 0 then a else b)[0]);
      assert DayKey(if a >= 0 then b else a)[0] == '-';
      assert DayKey(a)[0] != DayKey(b)[0];
    }
  }

  /** The stored text of an instant on day `day` at time of day `time`. */
  function Stamp(day: int, time: string): string {
    DayKey(day) + "T" + time
  }

  lemma KeyOfStamp(day: int, time: string)
    ensures DateKey(Stamp(day, time)) == DayKey(day)
  {
    DateKeyUnique(Stamp(day, time), DayKey(day));
  }

  /** `getDay()` for a day number: 0 is Sunday; day 0 was a Thursday. */
  function Weekday(day: int): (w: nat)
    ensures w < 7
  {
    (day + 4) % 7
  }

  // ---------------------------------------------------------------------
  // Buckets

  function KeyOf(e: Entry): string {
    DateKey(e.date)
  }

  /** `e.category || 'Other'`: a missing or empty category counts as Other. */
  function CategoryOrOther(e: Entry): (c: string)
    ensures c != ""
    ensures e.category.Some? && e.category.value != "" ==> c == e.category.value
    ensures e.category.None? || e.category.value == "" ==> c == "Other"
  {
    if e.category.Some? && e.category.value != "" then e.category.value else "Other"
  }

  /** What the aggregation keeps per key. `categories` stands for a JS Set,
      which iterates in first-insertion order. */
  datatype DayData = DayData(amount: int, entries: seq<Entry>, categories: seq<string>)

  const EmptyDay: DayData := DayData(0, [], [])

  /** `Set.add`: appends `c` unless it is already present. */
  function AddDistinct(s: seq<string>, c: string): (r: seq<string>)
    ensures c in r && s <= r
    ensures forall x :: x in r <==> x in s || x == c
    ensures |r| == if c in s then |s| else |s| + 1
  {
    if c in s then s else s + [c]
  }

  /** One step of the `forEach`: `e` added to its day's bucket. */
  function Extend(b: DayData, e: Entry): DayData {
    DayData(b.amount + e.amountSpent, b.entries + [e], AddDistinct(b.categories, CategoryOrOther(e)))
  }

  /** The bucket of key `k` after the `forEach` has visited all of `s`. */
  function Bucket(s: seq<Entry>, k: string): DayData {
    if s == [] then EmptyDay
    else
      var b := Bucket(s[..|s| - 1], k);
      if KeyOf(s[|s| - 1]) == k then Extend(b, s[|s| - 1]) else b
  }

  /** The running `max` after visiting all of `s`: after each entry it is
      compared with that entry's bucket total so far. */
  function RunningMax(s: seq<Entry>): int {
    if s == [] then 0
    else
      var p := RunningMax(s[..|s| - 1]);
      var a := Bucket(s, KeyOf(s[|s| - 1])).amount;
      if a > p then a else p
  }

  function Lookup(data: map<string, DayData>, k: string): DayData {
    if k in data then data[k] else EmptyDay
  }

  /** `if (!data[dateStr]) data[dateStr] = { ... }` changes no lookup. */
  lemma SeedKeepsLookups(data: map<string, DayData>, key: string)
    ensures var seeded := if key in data then data else data[key := EmptyDay];
      key in seeded && forall k :: Lookup(seeded, k) == Lookup(data, k)
  {
  }

  /** Storing the extended bucket of `e`'s key turns the buckets of `s` into
      the buckets of `s + [e]`. */
  lemma StoreExtended(data: map<string, DayData>, s: seq<Entry>, e: Entry)
    requires forall k :: Lookup(data, k) == Bucket(s, k)
    ensures var key := KeyOf(e);
      forall k :: Lookup(data[key := Extend(Lookup(data, key), e)], k) == Bucket(s + [e], k)
    ensures var a := Extend(Lookup(data, KeyOf(e)), e).amount;
      RunningMax(s + [e]) == if a > RunningMax(s) then a else RunningMax(s)
  {
    var key := KeyOf(e);
    forall k ensures Lookup(data[key := Extend(Lookup(data, key), e)], k) == Bucket(s + [e], k) {
      BucketSnoc(s, e, k);
    }
    BucketSnoc(s, e, key);
    RunningMaxSnoc(s, e);
  }

  lemma BucketSnoc(s: seq<Entry>, e: Entry, k: string)
    ensures Bucket(s + [e], k) == if KeyOf(e) == k then Extend(Bucket(s, k), e) else Bucket(s, k)
  {
    assert (s + [e])[..|s|] == s;
  }

  lemma RunningMaxSnoc(s: seq<Entry>, e: Entry)
    ensures var a := Bucket(s + [e], KeyOf(e)).amount;
      RunningMax(s + [e]) == if a > RunningMax(s) then a else RunningMax(s)
  {
    assert (s + [e])[..|s|] == s;
  }

  // ---------------------------------------------------------------------
  // Reference definitions: filter first, then aggregate

  /** The entries of `s` whose key is `k`, in input order. */
  function DayEntries(s: seq<Entry>, k: string): seq<Entry> {
    if s == [] then []
    else DayEntries(s[..|s| - 1], k) + (if KeyOf(s[|s| - 1]) == k then [s[|s| - 1]] else [])
  }

  /** The distinct categories of `es`, in order of first appearance. */
  function DistinctCategories(es: seq<Entry>): seq<string> {
    if es == [] then [] else AddDistinct(DistinctCategories(es[..|es| - 1]), CategoryOrOther(es[|es| - 1]))
  }

  /** The total spent on day key `k`. */
  function DayTotal(s: seq<Entry>, k: string): int {
    TotalAmount(DayEntries(s, k))
  }

  /** The bucket built step by step is the filtered entries, their total and
      their distinct categories. */
  lemma {:induction false} BucketIsFiltered(s: seq<Entry>, k: string)
    ensures Bucket(s, k) == DayData(DayTotal(s, k), DayEntries(s, k), DistinctCategories(DayEntries(s, k)))
  {
    if s != [] {
      var init, e := s[..|s| - 1], s[|s| - 1];
      BucketIsFiltered(init, k);
      var f := DayEntries(init, k);
      if KeyOf(e) == k {
        assert DayEntries(s, k) == f + [e];
        assert (f + [e])[..|f|] == f;
      } else {
        assert DayEntries(s, k) == f + [] == f;
      }
    }
  }

  lemma {:induction false} DayEntriesMembership(s: seq<Entry>, k: string, e: Entry)
    ensures e in DayEntries(s, k) <==> e in s && KeyOf(e) == k
  {
    if s != [] {
      var init := s[..|s| - 1];
      DayEntriesMembership(init, k, e);
      assert s == init + [s[|s| - 1]];
    }
  }

  /** Filtering commutes with concatenation: input order is kept. */
  lemma {:induction false} DayEntriesConcat(a: seq<Entry>, b: seq<Entry>, k: string)
    ensures DayEntries(a + b, k) == DayEntries(a, k) + DayEntries(b, k)
  {
    if b == [] {
      assert a + b == a;
    } else {
      var init := b[..|b| - 1];
      assert (a + b)[..|a + b| - 1] == a + init;
      DayEntriesConcat(a, init, k);
    }
  }

  lemma {:induction false} DistinctCategoriesSpec(es: seq<Entry>)
    ensures var r := DistinctCategories(es);
      (forall i, j :: 0 <= i < j < |r| ==> r[i] != r[j]) &&
      (forall c :: c in r <==> exists e :: e in es && CategoryOrOther(e) == c)
    ensures es != [] ==> DistinctCategories(es) != [] && DistinctCategories(es)[0] == CategoryOrOther(es[0])
  {
    if es != [] {
      var init, e := es[..|es| - 1], es[|es| - 1];
      DistinctCategoriesSpec(init);
      assert es == init + [e];
      assert DistinctCategories(es) == AddDistinct(DistinctCategories(init), CategoryOrOther(e));
      forall c ensures c in DistinctCategories(es) <==> exists x :: x in es && CategoryOrOther(x) == c {
        if c in DistinctCategories(es) && c != CategoryOrOther(e) {
          assert c in DistinctCategories(init);
          var x :| x in init && CategoryOrOther(x) == c;
          assert x in es;
        }
        if c == CategoryOrOther(e) {
          assert e in es;
        }
      }
      if init != [] {
        assert init[0] == es[0];
      }
    }
  }

  // ---------------------------------------------------------------------
  // The running maximum

  /** Every day total, inside the window or not, is at most the running max. */
  lemma {:induction false} RunningMaxBoundsEveryDay(s: seq<Entry>, k: string)
    ensures RunningMax(s) >= 0
    ensures Bucket(s, k).amount <= RunningMax(s)
  {
    if s != [] {
      RunningMaxBoundsEveryDay(s[..|s| - 1], k);
    }
  }

  lemma {:induction false} BucketAmountNonNegative(s: seq<Entry>, k: string)
    requires NonNegativeAmounts(s)
    ensures Bucket(s, k).amount >= 0
  {
    if s != [] {
      BucketAmountNonNegative(s[..|s| - 1], k);
    }
  }

  /** With non-negative amounts the running max is reached by some day key
      of the input. */
  lemma {:induction false} RunningMaxAttained(s: seq<Entry>)
    requires NonNegativeAmounts(s)
    ensures s == [] ==> RunningMax(s) == 0
    ensures s != [] ==> exists i :: 0 <= i < |s| && Bucket(s, KeyOf(s[i])).amount == RunningMax(s)
  {
    if s != [] {
      var init, e := s[..|s| - 1], s[|s| - 1];
      var p := RunningMax(init);
      var a := Bucket(s, KeyOf(e)).amount;
      assert s == init + [e];
      BucketSnoc(init, e, KeyOf(e));
      BucketAmountNonNegative(init, KeyOf(e));
      if a > p {
        assert Bucket(s, KeyOf(s[|s| - 1])).amount == RunningMax(s);
      } else if init == [] {
        assert Bucket(s, KeyOf(s[0])).amount == RunningMax(s);
      } else {
        RunningMaxAttained(init);
        var i :| 0 <= i < |init| && Bucket(init, KeyOf(init[i])).amount == p;
        BucketSnoc(init, e, KeyOf(init[i]));
        RunningMaxBoundsEveryDay(init, KeyOf(e));
        if KeyOf(init[i]) == KeyOf(e) {
          assert Bucket(s, KeyOf(s[|s| - 1])).amount == RunningMax(s);
        } else {
          assert s[i] == init[i];
          assert Bucket(s, KeyOf(s[i])).amount == RunningMax(s);
        }
      }
    }
  }

  /** The running max is exactly the largest day total when amounts are
      non-negative. */
  lemma RunningMaxIsLargestDayTotal(s: seq<Entry>)
    requires NonNegativeAmounts(s)
    ensures RunningMax(s) >= 0
    ensures forall k :: DayTotal(s, k) <= RunningMax(s)
    ensures s != [] ==> exists i :: 0 <= i < |s| && DayTotal(s, KeyOf(s[i])) == RunningMax(s)
  {
    forall k ensures DayTotal(s, k) <= RunningMax(s) {
      RunningMaxBoundsEveryDay(s, k);
      BucketIsFiltered(s, k);
    }
    RunningMaxBoundsEveryDay(s, "");
    RunningMaxAttained(s);
    if s != [] {
      var i :| 0 <= i < |s| && Bucket(s, KeyOf(s[i])).amount == RunningMax(s);
      BucketIsFiltered(s, KeyOf(s[i]));
    }
  }

  /** Without the non-negativity the running max can exceed every final day
      total: 5.00 then -3.00 on the same day leave a total of 2.00 and a max
      of 5.00. */
  lemma RunningMaxNeedsNonNegativeAmounts()
    ensures var e1 := Entry("a", Stamp(0, "09:00"), 500, 0, "", "", None, "");
      var e2 := Entry("b", Stamp(0, "18:00"), -300, 0, "", "", None, "");
      RunningMax([e1, e2]) == 500 && DayTotal([e1, e2], DayKey(0)) == 200
  {
    var e1 := Entry("a", Stamp(0, "09:00"), 500, 0, "", "", None, "");
    var e2 := Entry("b", Stamp(0, "18:00"), -300, 0, "", "", None, "");
    KeyOfStamp(0, "09:00");
    KeyOfStamp(0, "18:00");
    RiseThenFall(e1, e2, DayKey(0));
  }

  /** A purchase of 5.00 and then a refund of 3.00 on the same day key. */
  lemma RiseThenFall(e1: Entry, e2: Entry, k: string)
    requires KeyOf(e1) == k && KeyOf(e2) == k
    requires e1.amountSpent == 500 && e2.amountSpent == -300
    ensures RunningMax([e1, e2]) == 500 && DayTotal([e1, e2], k) == 200
  {
    assert [] + [e1] == [e1] && [e1] + [e2] == [e1, e2];
    BucketSnoc([], e1, k);
    BucketSnoc([e1], e2, k);
    RunningMaxSnoc([], e1);
    RunningMaxSnoc([e1], e2);
    BucketIsFiltered([e1, e2], k);
  }

  // ---------------------------------------------------------------------
  // Cells

  /** One day of the window. */
  datatype Cell = Cell(date: int, amount: int, entries: seq<Entry>, intensity: real, categories: seq<string>)

  /** `max > 0 ? amount / max : 0`. */
  function Intensity(amount: int, max: int): real {
    if max > 0 then amount as real / max as real else 0.0
  }

  /** The cell of day `day`, looked up by its key, normalised by `max`. */
  function CellOn(entries: seq<Entry>, day: int, max: int): Cell {
    var b := Bucket(entries, DayKey(day));
    Cell(day, b.amount, b.entries, Intensity(b.amount, max), b.categories)
  }

  /** The `numDays` cells ending at `endDate`, oldest first, normalised by
      the running max over the whole input. */
  function Window(entries: seq<Entry>, numDays: nat, endDate: int): (w: seq<Cell>)
    ensures |w| == numDays
  {
    seq(numDays, i requires 0 <= i < numDays => CellOn(entries, endDate - (numDays - 1 - i), RunningMax(entries)))
  }

  /** The buckets of `data` are those of the entries `s`. */
  ghost predicate BucketsOf(data: map<string, DayData>, s: seq<Entry>) {
    forall k :: Lookup(data, k) == Bucket(s, k)
  }

  /** The callback of the `forEach`: the entry's bucket is created if
      missing, then extended by the entry, and `max` follows its total. Run
      on the state after the entries `visited`, it leaves the state after
      `visited + [e]`. */
  method VisitEntry(data: map<string, DayData>, max: int, e: Entry, ghost visited: seq<Entry>)
    returns (data': map<string, DayData>, max': int)
    requires BucketsOf(data, visited) && max == RunningMax(visited)
    ensures BucketsOf(data', visited + [e]) && max' == RunningMax(visited + [e])
  {
    data' := data;
    var dateStr := DateKey(e.date);
    if dateStr !in data' {
      data' := data'[dateStr := EmptyDay];
    }
    SeedKeepsLookups(data, dateStr);
    assert BucketsOf(data', visited);
    var day := data'[dateStr];
    day := DayData(day.amount + e.amountSpent, day.entries + [e], AddDistinct(day.categories, CategoryOrOther(e)));
    assert day == Extend(Lookup(data', dateStr), e);
    StoreExtended(data', visited, e);
    data' := data'[dateStr := day];
    max' := max;
    if data'[dateStr].amount > max' {
      max' := data'[dateStr].amount;
    }
  }

  /** The `forEach` of the `useMemo`: every entry is added to the bucket of
      its day key, and `max` follows each updated bucket total. */
  method BucketEntries(entries: seq<Entry>) returns (data: map<string, DayData>, max: int)
    ensures forall k :: Lookup(data, k) == Bucket(entries, k)
    ensures max == RunningMax(entries)
  {
    data, max := map[], 0;
    var n := 0;
    while n < |entries|
      invariant 0 <= n <= |entries|
      invariant BucketsOf(data, entries[..n])
      invariant max == RunningMax(entries[..n])
    {
      var e := entries[n];
      assert entries[..n + 1] == entries[..n] + [e];
      data, max := VisitEntry(data, max, e, entries[..n]);
      n := n + 1;
    }
    assert entries[..n] == entries;
  }

  /** The cell the loop pushes for day `d` is the cell of that day. */
  lemma CellOfBucket(entries: seq<Entry>, d: int, max: int, dayData: DayData)
    requires dayData == Bucket(entries, DayKey(d))
    ensures Cell(d, dayData.amount, dayData.entries,
                 if max > 0 then dayData.amount as real / max as real else 0.0,
                 dayData.categories) == CellOn(entries, d, max)
  {
  }

  /** Cells built one day at a time, oldest first, are the window. */
  lemma CellsAreWindow(entries: seq<Entry>, numDays: nat, endDate: int, cells: seq<Cell>)
    requires |cells| == numDays
    requires forall j :: 0 <= j < numDays ==> cells[j] == CellOn(entries, endDate - (numDays - 1 - j), RunningMax(entries))
    ensures cells == Window(entries, numDays, endDate)
    ensures forall j :: 0 <= j < numDays ==> cells[j].date == endDate - (numDays - 1 - j)
  {
  }

  /** The `useMemo` that builds the cells: bucket every entry, then emit one
      cell per day from `numDays - 1` days before `endDate` up to `endDate`. */
  method BuildCells(entries: seq<Entry>, numDays: nat, endDate: int) returns (cells: seq<Cell>, maxSpend: int)
    ensures maxSpend == RunningMax(entries)
    ensures |cells| == numDays
    ensures forall i :: 0 <= i < numDays ==> cells[i].date == endDate - (numDays - 1 - i)
    ensures cells == Window(entries, numDays, endDate)
  {
    var data, max := BucketEntries(entries);
    var result: seq<Cell> := [];
    var i: int := numDays - 1;
    while i >= 0
      invariant -1 <= i <= numDays - 1
      invariant |result| == numDays - 1 - i
      invariant forall j :: 0 <= j < |result| ==> result[j] == CellOn(entries, endDate - (numDays - 1 - j), max)
    {
      var d := endDate - i;
      var dateStr := DayKey(d);
      var dayData := if dateStr in data then data[dateStr] else EmptyDay;
      assert dayData == Bucket(entries, dateStr);
      var cell := Cell(d, dayData.amount, dayData.entries,
                       if max > 0 then dayData.amount as real / max as real else 0.0,
                       dayData.categories);
      CellOfBucket(entries, d, max, dayData);
      result := result + [cell];
      i := i - 1;
    }
    CellsAreWindow(entries, numDays, endDate, result);
    cells, maxSpend := result, max;
  }

  // ---------------------------------------------------------------------
  // Properties of the window

  /** A cell holds exactly the entries of its day's key, in input order, their
      total and their distinct categories. */
  lemma WindowCellContents(entries: seq<Entry>, numDays: nat, endDate: int, i: nat)
    requires i < numDays
    ensures var c := Window(entries, numDays, endDate)[i];
      var k := DayKey(endDate - (numDays - 1 - i));
      c.date == endDate - (numDays - 1 - i) &&
      c.amount == DayTotal(entries, k) &&
      c.entries == DayEntries(entries, k) &&
      c.categories == DistinctCategories(DayEntries(entries, k))
  {
    BucketIsFiltered(entries, DayKey(endDate - (numDays - 1 - i)));
  }

  /** A day with no entry of its key is empty, and only such a day is. */
  lemma {:induction false} EmptyCellIffNoEntryOfThatDay(entries: seq<Entry>, day: int, max: int)
    ensures var c := CellOn(entries, day, max);
      c.entries == [] <==> forall e :: e in entries ==> KeyOf(e) != DayKey(day)
    ensures var c := CellOn(entries, day, max);
      c.entries == [] ==> c.amount == 0 && c.categories == [] && c.intensity == 0.0
  {
    var k := DayKey(day);
    BucketIsFiltered(entries, k);
    var f := DayEntries(entries, k);
    forall e ensures e in f <==> e in entries && KeyOf(e) == k {
      DayEntriesMembership(entries, k, e);
    }
    if f != [] {
      assert f[0] in f;
    }
  }

  /** An entry stamped on day `d` appears in the cell of day `d'` exactly
      when `d' == d`. */
  lemma StampedEntryLandsOnItsDay(entries: seq<Entry>, e: Entry, d: int, time: string, d': int, max: int)
    requires e in entries && e.date == Stamp(d, time)
    ensures e in CellOn(entries, d', max).entries <==> d' == d
  {
    KeyOfStamp(d, time);
    DayKeyInjective(d, d');
    BucketIsFiltered(entries, DayKey(d'));
    DayEntriesMembership(entries, DayKey(d'), e);
  }

  lemma RatioInUnitInterval(a: real, m: real)
    requires 0.0 <= a <= m && m > 0.0
    ensures 0.0 <= a / m <= 1.0
    ensures a == m ==> a / m == 1.0
  {
  }

  /** With non-negative amounts every intensity is in [0, 1], the busiest day
      of the input (when it lies in the window) has intensity 1, and all are
      0 when the max is 0. */
  lemma IntensityInUnitInterval(entries: seq<Entry>, numDays: nat, endDate: int, i: nat)
    requires NonNegativeAmounts(entries)
    requires i < numDays
    ensures var c := Window(entries, numDays, endDate)[i];
      0.0 <= c.intensity <= 1.0 &&
      (RunningMax(entries) == 0 ==> c.intensity == 0.0) &&
      (RunningMax(entries) > 0 && c.amount == RunningMax(entries) ==> c.intensity == 1.0)
  {
    var k := DayKey(endDate - (numDays - 1 - i));
    var a, m := Bucket(entries, k).amount, RunningMax(entries);
    assert Window(entries, numDays, endDate)[i] == CellOn(entries, endDate - (numDays - 1 - i), m);
    RunningMaxBoundsEveryDay(entries, k);
    BucketAmountNonNegative(entries, k);
    if m > 0 {
      RatioInUnitInterval(a as real, m as real);
    }
  }

  /** The max is NOT limited to the window: a single-day window on day 0
      holding 10.00 next to 100.00 spent on day 5 gets intensity 0.1. */
  lemma MaxIncludesDaysOutsideWindow()
    ensures var e1 := Entry("a", Stamp(5, "12:00"), 10000, 0, "", "", None, "");
      var e2 := Entry("b", Stamp(0, "12:00"), 1000, 0, "", "", None, "");
      var w := Window([e1, e2], 1, 0);
      |w| == 1 && w[0].amount == 1000 && w[0].intensity == 0.1
  {
    var e1 := Entry("a", Stamp(5, "12:00"), 10000, 0, "", "", None, "");
    var e2 := Entry("b", Stamp(0, "12:00"), 1000, 0, "", "", None, "");
    KeyOfStamp(5, "12:00");
    KeyOfStamp(0, "12:00");
    DayKeyInjective(5, 0);
    LargeDayFirst(e1, e2, DayKey(5), DayKey(0));
    assert Window([e1, e2], 1, 0)[0] == CellOn([e1, e2], 0, 10000);
  }

  /** 100.00 on one day key, then 10.00 on another. */
  lemma LargeDayFirst(e1: Entry, e2: Entry, k1: string, k2: string)
    requires k1 != k2 && KeyOf(e1) == k1 && KeyOf(e2) == k2
    requires e1.amountSpent == 10000 && e2.amountSpent == 1000
    ensures Bucket([e1, e2], k2).amount == 1000 && RunningMax([e1, e2]) == 10000
  {
    assert [] + [e1] == [e1] && [e1] + [e2] == [e1, e2];
    BucketSnoc([], e1, k1);
    BucketSnoc([], e1, k2);
    BucketSnoc([e1], e2, k2);
    RunningMaxSnoc([], e1);
    RunningMaxSnoc([e1], e2);
  }

  /** The first two purchases of the worked example, both on one day. */
  lemma ExampleSameDayPair(e1: Entry, e2: Entry, k0: string, k1: string, k2: string)
    requires k0 != k1 && k0 != k2
    requires KeyOf(e1) == k0 && KeyOf(e2) == k0
    requires e1.amountSpent == 1000 && e2.amountSpent == 500
    ensures Bucket([e1, e2], k0).amount == 1500 && Bucket([e1, e2], k1) == EmptyDay && Bucket([e1, e2], k2) == EmptyDay
    ensures RunningMax([e1, e2]) == 1500
  {
    assert [] + [e1] == [e1] && [e1] + [e2] == [e1, e2];
    BucketSnoc([], e1, k0);
    BucketSnoc([], e1, k1);
    BucketSnoc([], e1, k2);
    RunningMaxSnoc([], e1);
    BucketSnoc([e1], e2, k0);
    BucketSnoc([e1], e2, k1);
    BucketSnoc([e1], e2, k2);
    RunningMaxSnoc([e1], e2);
  }

  /** The buckets of the worked example below. */
  lemma ExampleBuckets(e1: Entry, e2: Entry, e3: Entry, k0: string, k1: string, k2: string)
    requires k0 != k1 && k0 != k2 && k1 != k2
    requires KeyOf(e1) == k0 && KeyOf(e2) == k0 && KeyOf(e3) == k2
    requires e1.amountSpent == 1000 && e2.amountSpent == 500 && e3.amountSpent == 300
    ensures var s := [e1, e2, e3];
      Bucket(s, k0).amount == 1500 && Bucket(s, k1) == EmptyDay && Bucket(s, k2).amount == 300 &&
      RunningMax(s) == 1500
  {
    ExampleSameDayPair(e1, e2, k0, k1, k2);
    assert [e1, e2] + [e3] == [e1, e2, e3];
    BucketSnoc([e1, e2], e3, k0);
    BucketSnoc([e1, e2], e3, k1);
    BucketSnoc([e1, e2], e3, k2);
    RunningMaxSnoc([e1, e2], e3);
  }

  /** The worked example: 10.00 and 5.00 on day 0, 3.00 on day 2, a 3-day
      window ending on day 2. */
  lemma ThreeDayExample(t1: string, t2: string, t3: string)
    ensures var e1 := Entry("a", Stamp(0, t1), 1000, 0, "", "", None, "");
      var e2 := Entry("b", Stamp(0, t2), 500, 0, "", "", None, "");
      var e3 := Entry("c", Stamp(2, t3), 300, 0, "", "", None, "");
      var w := Window([e1, e2, e3], 3, 2);
      |w| == 3 &&
      w[0].date == 0 && w[0].amount == 1500 && w[0].intensity == 1.0 &&
      w[1].date == 1 && w[1].amount == 0 && w[1].intensity == 0.0 && w[1].entries == [] &&
      w[2].date == 2 && w[2].amount == 300 && w[2].intensity == 0.2
  {
    var e1 := Entry("a", Stamp(0, t1), 1000, 0, "", "", None, "");
    var e2 := Entry("b", Stamp(0, t2), 500, 0, "", "", None, "");
    var e3 := Entry("c", Stamp(2, t3), 300, 0, "", "", None, "");
    var s := [e1, e2, e3];
    KeyOfStamp(0, t1);
    KeyOfStamp(0, t2);
    KeyOfStamp(2, t3);
    DayKeyInjective(0, 1);
    DayKeyInjective(0, 2);
    DayKeyInjective(1, 2);
    ExampleBuckets(e1, e2, e3, DayKey(0), DayKey(1), DayKey(2));
    var w := Window(s, 3, 2);
    assert w[0] == CellOn(s, 0, 1500) && w[1] == CellOn(s, 1, 1500) && w[2] == CellOn(s, 2, 1500);
  }
}
