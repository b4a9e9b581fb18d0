/**
 * The derived views of the transaction list: the filter pipeline with its
 * newest-first ordering, and the sorted list of distinct categories offered
 * by the category filter.
 */
module Views {
  import opened Entities
  import opened Text
  import opened Seqs

  /** The five filter inputs; an empty value switches that filter off. */
  datatype Filters = Filters(kind: string, category: string, dateFrom: string, dateTo: string, search: string)

  /** `t` passes every filter that is switched on (dates compare as strings, notes case-insensitively). */
  predicate Matches(t: Transaction, f: Filters) {
    && (f.kind == "" || t.kind == f.kind)
    && (f.category == "" || t.category == f.category)
    && (f.dateFrom == "" || LexLe(f.dateFrom, t.date))
    && (f.dateTo == "" || LexLe(t.date, f.dateTo))
    && (Lower(f.search) == "" || (t.notes != "" && Contains(Lower(t.notes), Lower(f.search))))
  }

  /** The tests of the five `filter` calls of `applyFilters`. */
  function KindTest(f: Filters): Transaction -> bool { (t: Transaction) => t.kind == f.kind }
  function CategoryTest(f: Filters): Transaction -> bool { (t: Transaction) => t.category == f.category }
  function FromTest(f: Filters): Transaction -> bool { (t: Transaction) => LexLe(f.dateFrom, t.date) }
  function ToTest(f: Filters): Transaction -> bool { (t: Transaction) => LexLe(t.date, f.dateTo) }
  function NotesTest(needle: string): Transaction -> bool {
    (t: Transaction) => t.notes != "" && Contains(Lower(t.notes), needle)
  }

  /** The chain of `filter` calls of `applyFilters`, one per filter that is switched on. */
  function FilterChain(ts: seq<Transaction>, f: Filters): seq<Transaction> {
    var byKind := if f.kind != "" then Where(ts, KindTest(f)) else ts;
    var byCategory := if f.category != "" then Where(byKind, CategoryTest(f)) else byKind;
    var fromDate := if f.dateFrom != "" then Where(byCategory, FromTest(f)) else byCategory;
    var toDate := if f.dateTo != "" then Where(fromDate, ToTest(f)) else fromDate;
    var needle := Lower(f.search);
    if needle != "" then Where(toDate, NotesTest(needle)) else toDate
  }

  /** Newest first: no entry has a later date than the one before it. */
  predicate NewestFirst(s: seq<Transaction>) {
    forall i, j :: 0 <= i < j < |s| ==> LexLe(s[j].date, s[i].date)
  }

  /** Putting an entry no older than the head in front keeps a list newest first. */
  lemma ConsNewestFirst(h: Transaction, s: seq<Transaction>)
    requires NewestFirst(s)
    requires |s| == 0 || LexLe(s[0].date, h.date)
    ensures NewestFirst([h] + s)
  {
    var r := [h] + s;
    forall i, j | 0 <= i < j < |r| ensures LexLe(r[j].date, r[i].date) {
      if i == 0 && j > 1 {
        LexLeTransitive(s[j - 1].date, s[0].date, h.date);
      }
    }
  }

  /** Insert `t` before the first entry that is not newer, so that equal dates keep their order. */
  function InsertNewestFirst(t: Transaction, s: seq<Transaction>): (r: seq<Transaction>)
    requires NewestFirst(s)
    ensures NewestFirst(r)
    ensures multiset(r) == multiset(s) + multiset{t}
    ensures r[0] == t || (|s| > 0 && r[0] == s[0])
    decreases |s|
  {
    if |s| == 0 then [t]
    else if LexLe(s[0].date, t.date) then
      ConsNewestFirst(t, s);
      [t] + s
    else
      var rest := InsertNewestFirst(t, s[1..]);
      assert s == [s[0]] + s[1..];
      LexLeTotal(s[0].date, t.date);
      ConsNewestFirst(s[0], rest);
      [s[0]] + rest
  }

  /** The `sort((a, b) => new Date(b.date) - new Date(a.date))` step: a stable newest-first sort. */
  function SortNewestFirst(s: seq<Transaction>): (r: seq<Transaction>)
    ensures NewestFirst(r)
    ensures multiset(r) == multiset(s)
    decreases |s|
  {
    if |s| == 0 then []
    else
      assert s == [s[0]] + s[1..];
      InsertNewestFirst(s[0], SortNewestFirst(s[1..]))
  }

  /** Whether an entry is dated `d`: the entries the comparator cannot tell apart. */
  function SameDate(d: string): Transaction -> bool { (t: Transaction) => t.date == d }

  /** Entries of two different dates can pass each other without changing what either date's filter keeps. */
  lemma PassDifferentDate(x: Transaction, t: Transaction, rest: seq<Transaction>, tail: seq<Transaction>, d: string)
    requires x.date != t.date
    requires Where(rest, SameDate(d)) == Where([t] + tail, SameDate(d))
    ensures Where([x] + rest, SameDate(d)) == Where([t] + ([x] + tail), SameDate(d))
  {
    var keep := SameDate(d);
    var a, b, c := Where([x], keep), Where([t], keep), Where(tail, keep);
    WhereConcat([x], rest, keep);
    WhereConcat([t], tail, keep);
    WhereConcat([t], [x] + tail, keep);
    WhereConcat([x], tail, keep);
    assert a == [] || b == [];
  }

  /** Inserting `t` puts it before every entry of its own date, where it stood in `[t] + s`. */
  lemma {:induction false} InsertStable(t: Transaction, s: seq<Transaction>, d: string)
    requires NewestFirst(s)
    ensures Where(InsertNewestFirst(t, s), SameDate(d)) == Where([t] + s, SameDate(d))
    decreases |s|
  {
    if |s| > 0 && !LexLe(s[0].date, t.date) {
      var rest := InsertNewestFirst(t, s[1..]);
      assert InsertNewestFirst(t, s) == [s[0]] + rest;
      InsertStable(t, s[1..], d);
      LexLeReflexive(t.date);
      PassDifferentDate(s[0], t, rest, s[1..], d);
      assert s == [s[0]] + s[1..];
    }
  }

  /** The sort is stable: the entries of any one date come out in the order they went in. */
  lemma {:induction false} SortNewestFirstStable(s: seq<Transaction>, d: string)
    ensures Where(SortNewestFirst(s), SameDate(d)) == Where(s, SameDate(d))
    decreases |s|
  {
    if |s| > 0 {
      var keep := SameDate(d);
      var sorted := SortNewestFirst(s[1..]);
      SortNewestFirstStable(s[1..], d);
      InsertStable(s[0], sorted, d);
      assert s == [s[0]] + s[1..];
      WhereConcat([s[0]], sorted, keep);
      WhereConcat([s[0]], s[1..], keep);
    }
  }

  /** `applyFilters`: the filter chain followed by the newest-first sort. */
  function ApplyFilters(ts: seq<Transaction>, f: Filters): seq<Transaction> {
    SortNewestFirst(FilterChain(ts, f))
  }

  /** How often `x` survives one optional step of the chain. */
  lemma StepCount(s: seq<Transaction>, on: bool, keep: Transaction -> bool, x: Transaction)
    ensures multiset(if on then Where(s, keep) else s)[x] == if on && !keep(x) then 0 else multiset(s)[x]
  {
    WhereMultiset(s, keep);
  }

  lemma FilterChainCount(ts: seq<Transaction>, f: Filters, x: Transaction)
    ensures multiset(FilterChain(ts, f))[x] == if Matches(x, f) then multiset(ts)[x] else 0
  {
    var byKind := if f.kind != "" then Where(ts, KindTest(f)) else ts;
    StepCount(ts, f.kind != "", KindTest(f), x);
    var byCategory := if f.category != "" then Where(byKind, CategoryTest(f)) else byKind;
    StepCount(byKind, f.category != "", CategoryTest(f), x);
    var fromDate := if f.dateFrom != "" then Where(byCategory, FromTest(f)) else byCategory;
    StepCount(byCategory, f.dateFrom != "", FromTest(f), x);
    var toDate := if f.dateTo != "" then Where(fromDate, ToTest(f)) else fromDate;
    StepCount(fromDate, f.dateTo != "", ToTest(f), x);
    StepCount(toDate, Lower(f.search) != "", NotesTest(Lower(f.search)), x);
  }

  /**
   * What `applyFilters` leaves in `filteredTransactions`: exactly the
   * transactions passing every active filter, each as often as in the list,
   * newest first.
   */
  lemma ApplyFiltersSpec(ts: seq<Transaction>, f: Filters)
    ensures forall t :: multiset(ApplyFilters(ts, f))[t] == if Matches(t, f) then multiset(ts)[t] else 0
    ensures multiset(ApplyFilters(ts, f)) <= multiset(ts)
    ensures forall k :: 0 <= k < |ApplyFilters(ts, f)| ==> Matches(ApplyFilters(ts, f)[k], f)
    ensures NewestFirst(ApplyFilters(ts, f))
  {
    var r := ApplyFilters(ts, f);
    forall x ensures multiset(r)[x] == if Matches(x, f) then multiset(ts)[x] else 0 {
      FilterChainCount(ts, f, x);
    }
    forall k | 0 <= k < |r| ensures Matches(r[k], f) {
      assert r[k] in multiset(r);
    }
  }

  /** With every filter off the view is the whole list, newest first. */
  lemma NoFiltersKeepsAll(ts: seq<Transaction>)
    ensures multiset(ApplyFilters(ts, Filters("", "", "", "", ""))) == multiset(ts)
  {
    ApplyFiltersSpec(ts, Filters("", "", "", "", ""));
  }

  /** No duplicates and ascending: each entry strictly before the next in string order. */
  predicate StrictlyAscending(s: seq<string>) {
    forall i, j :: 0 <= i < j < |s| ==> LexLe(s[i], s[j]) && s[i] != s[j]
  }

  /** `[...new Set(ts.map(t => t.category))]`: each category once, in order of first occurrence. */
  function DistinctCategories(ts: seq<Transaction>): (r: seq<string>)
    ensures forall i, j :: 0 <= i < j < |r| ==> r[i] != r[j]
    ensures forall c :: c in r <==> exists t :: t in ts && t.category == c
    decreases |ts|
  {
    if |ts| == 0 then []
    else
      var init := ts[..|ts| - 1];
      var last := ts[|ts| - 1];
      assert ts == init + [last];
      var seen := DistinctCategories(init);
      if last.category in seen then seen else seen + [last.category]
  }

  /** Insert a category not yet present into an ascending list, keeping it ascending. */
  function InsertAscending(c: string, s: seq<string>): (r: seq<string>)
    requires StrictlyAscending(s) && c !in s
    ensures StrictlyAscending(r)
    ensures |r| == |s| + 1
    ensures forall x :: x in r <==> x == c || x in s
    ensures r[0] == c || r[0] == s[0]
    decreases |s|
  {
    if |s| == 0 then [c]
    else if LexLe(c, s[0]) then
      assert StrictlyAscending([c] + s) by {
        forall k | 0 <= k < |s| ensures LexLe(c, s[k]) {
          if k > 0 {
            LexLeTransitive(c, s[0], s[k]);
          }
        }
      }
      [c] + s
    else
      var rest := InsertAscending(c, s[1..]);
      LexLeTotal(c, s[0]);
      assert s == [s[0]] + s[1..];
      assert LexLe(s[0], rest[0]);
      assert StrictlyAscending([s[0]] + rest) by {
        forall k | 0 <= k < |rest| ensures LexLe(s[0], rest[k]) && s[0] != rest[k] {
          if k > 0 {
            LexLeTransitive(s[0], rest[0], rest[k]);
          }
          assert rest[k] in rest;
        }
      }
      [s[0]] + rest
  }

  /** The default `sort()` of a list without duplicates. */
  function SortAscending(s: seq<string>): (r: seq<string>)
    requires forall i, j :: 0 <= i < j < |s| ==> s[i] != s[j]
    ensures StrictlyAscending(r)
    ensures forall x :: x in r <==> x in s
    decreases |s|
  {
    if |s| == 0 then []
    else
      assert s == [s[0]] + s[1..];
      InsertAscending(s[0], SortAscending(s[1..]))
  }

  /** The option list of `updateCategoryFilter`: distinct categories, sorted. */
  function Categories(ts: seq<Transaction>): seq<string> {
    SortAscending(DistinctCategories(ts))
  }

  /** The category list has no duplicates, is sorted, and holds exactly the categories in use. */
  lemma CategoriesSpec(ts: seq<Transaction>)
    ensures StrictlyAscending(Categories(ts))
    ensures forall c :: c in Categories(ts) <==> exists t :: t in ts && t.category == c
  {
  }
}
