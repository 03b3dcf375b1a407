/** The "latest first" order shared by the two project galleries: a
    month-name table, the comparator both pass to `sort`, and the stable
    sort itself. */
module Chronology {
  import Seqs

  /** A project's `date` field. */
  datatype MonthYear = MonthYear(month: string, year: int)

  /** The calendar, in order, and the three-letter forms the data also uses. */
  const MonthNames: seq<string> :=
    ["January", "February", "March", "April", "May", "June",
     "July", "August", "September", "October", "November", "December"]
  const ShortNames: seq<string> :=
    ["Jan", "Feb", "Mar", "Apr", "May", "Jun", "Jul", "Aug", "Sep", "Oct", "Nov", "Dec"]

  /** The month-name table that stands in for parsing `"<month> 1, <year>"`
      with `Date` and taking `getMonth()`. */
  const MonthTable: map<string, int> := map[
    "January" := 0, "Jan" := 0, "February" := 1, "Feb" := 1, "March" := 2, "Mar" := 2,
    "April" := 3, "Apr" := 3, "May" := 4, "June" := 5, "Jun" := 5,
    "July" := 6, "Jul" := 6, "August" := 7, "Aug" := 7, "September" := 8, "Sep" := 8,
    "October" := 9, "Oct" := 9, "November" := 10, "Nov" := 10, "December" := 11, "Dec" := 11]

  /** The month index of a date's month name, 0 for January; -1 for a name
      the table does not know. */
  function MonthIndex(name: string): (r: int)
    ensures -1 <= r < 12
    ensures r == -1 <==> name !in MonthTable
  {
    if name in MonthTable then MonthTable[name] else -1
  }

  /** The table agrees with calendar order for both spellings of every
      month, and the short forms are the first three letters of the full ones. */
  lemma MonthIndexFollowsCalendar(i: int)
    requires 0 <= i < 12
    ensures MonthIndex(MonthNames[i]) == i
    ensures MonthIndex(ShortNames[i]) == i
    ensures ShortNames[i] == MonthNames[i][..3]
  {
  }

  /** `a` is strictly more recent than `b`: a later year, or the same year
      and a later month. */
  predicate Newer(a: MonthYear, b: MonthYear) {
    a.year > b.year || (a.year == b.year && MonthIndex(a.month) > MonthIndex(b.month))
  }

  /** `a` and `b` have the same (year, month) key. */
  predicate SameKey(a: MonthYear, b: MonthYear) {
    a.year == b.year && MonthIndex(a.month) == MonthIndex(b.month)
  }

  /** The comparator both galleries pass to `sort`: the year difference
      `b - a`, or when the years agree the month difference `b - a`. */
  function Compare(a: MonthYear, b: MonthYear): (r: int)
    ensures r < 0 <==> Newer(a, b)
    ensures r == 0 <==> SameKey(a, b)
    ensures r > 0 <==> Newer(b, a)
  {
    var yearDiff := b.year - a.year;
    if yearDiff != 0 then yearDiff
    else MonthIndex(b.month) - MonthIndex(a.month)
  }

  /** Latest first: no element is newer than one before it. */
  ghost predicate SortedByDate<T>(s: seq<T>, date: T -> MonthYear) {
    forall i, j :: 0 <= i < j < |s| ==> !Newer(date(s[j]), date(s[i]))
  }

  /** The test "has key `k`" on elements, given their dates. */
  function HasKey<T>(date: T -> MonthYear, k: MonthYear): T -> bool {
    x => SameKey(date(x), k)
  }

  /** The elements of `s` whose date has key `k`, in the order of `s`. */
  function WithKey<T>(s: seq<T>, date: T -> MonthYear, k: MonthYear): seq<T> {
    Seqs.Filter(s, HasKey(date, k))
  }

  /** Puts `x` before the first element that is not newer than it. */
  function InsertByDate<T>(x: T, s: seq<T>, date: T -> MonthYear): (r: seq<T>)
    ensures |r| == |s| + 1
    ensures multiset(r) == multiset(s) + multiset{x}
  {
    if s == [] || Compare(date(x), date(s[0])) <= 0 then [x] + s
    else
      assert s == [s[0]] + s[1..];
      [s[0]] + InsertByDate(x, s[1..], date)
  }

  /** `[...s].sort(comparator)` with the stable sort JavaScript specifies:
      the result is a permutation of `s` (SortByDateIsSorted and
      SortByDateIsStable give its order). */
  function SortByDate<T>(s: seq<T>, date: T -> MonthYear): (r: seq<T>)
    ensures |r| == |s|
    ensures multiset(r) == multiset(s)
    decreases |s|
  {
    if s == [] then []
    else
      assert s == [s[0]] + s[1..];
      InsertByDate(s[0], SortByDate(s[1..], date), date)
  }

  lemma {:induction false} InsertKeepsSorted<T>(x: T, s: seq<T>, date: T -> MonthYear)
    requires SortedByDate(s, date)
    ensures SortedByDate(InsertByDate(x, s, date), date)
    decreases |s|
  {
    if s == [] || Compare(date(x), date(s[0])) <= 0 {
    } else {
      var tail := InsertByDate(x, s[1..], date);
      InsertKeepsSorted(x, s[1..], date);
      assert InsertByDate(x, s, date) == [s[0]] + tail;
      forall y | y in tail ensures !Newer(date(y), date(s[0])) {
        assert y in multiset(tail);
        assert y == x || y in s[1..];
      }
    }
  }

  /** The sort's result is latest first. */
  lemma {:induction false} SortByDateIsSorted<T>(s: seq<T>, date: T -> MonthYear)
    ensures SortedByDate(SortByDate(s, date), date)
    decreases |s|
  {
    if s != [] {
      SortByDateIsSorted(s[1..], date);
      InsertKeepsSorted(s[0], SortByDate(s[1..], date), date);
    }
  }

  lemma WithKeyCons<T>(x: T, t: seq<T>, date: T -> MonthYear, k: MonthYear)
    ensures WithKey([x] + t, date, k) == (if SameKey(date(x), k) then [x] else []) + WithKey(t, date, k)
  {
    Seqs.FilterCons(x, t, HasKey(date, k));
  }

  /** Two parts of which one is empty can be put in either order. */
  lemma SwapAroundEmpty<T>(a: seq<T>, b: seq<T>, w: seq<T>)
    requires a == [] || b == []
    ensures b + (a + w) == a + (b + w)
  {
  }

  /** Inserting `x` in front of the elements with its key keeps every key's
      sub-list as it is in `[x] + s`: the elements it is moved past are
      strictly newer, so none of them shares its key. */
  lemma {:induction false} InsertIsStable<T>(x: T, s: seq<T>, date: T -> MonthYear, k: MonthYear)
    ensures WithKey(InsertByDate(x, s, date), date, k) == WithKey([x] + s, date, k)
    decreases |s|
  {
    if s != [] && Compare(date(x), date(s[0])) > 0 {
      var t := s[1..];
      var inserted := InsertByDate(x, t, date);
      assert InsertByDate(x, s, date) == [s[0]] + inserted;
      assert s == [s[0]] + t;
      var a := if SameKey(date(x), k) then [x] else [];
      var b := if SameKey(date(s[0]), k) then [s[0]] else [];
      InsertIsStable(x, t, date, k);
      WithKeyCons(s[0], inserted, date, k);
      WithKeyCons(x, t, date, k);
      WithKeyCons(s[0], t, date, k);
      WithKeyCons(x, s, date, k);
      SwapAroundEmpty(a, b, WithKey(t, date, k));
    }
  }

  /** Stability: the elements that share a key appear in the sort's result
      in the order they had in `s`. */
  lemma {:induction false} SortByDateIsStable<T>(s: seq<T>, date: T -> MonthYear, k: MonthYear)
    ensures WithKey(SortByDate(s, date), date, k) == WithKey(s, date, k)
    decreases |s|
  {
    if s != [] {
      var rest := SortByDate(s[1..], date);
      SortByDateIsStable(s[1..], date, k);
      InsertIsStable(s[0], rest, date, k);
      WithKeyCons(s[0], rest, date, k);
      WithKeyCons(s[0], s[1..], date, k);
      assert s == [s[0]] + s[1..];
    }
  }

  /** What both galleries render: the records sorted latest first by year
      and then month, a permutation of the input in which records with the
      same month and year keep their order. */
  function LatestFirst<T>(s: seq<T>, date: T -> MonthYear): (r: seq<T>)
    ensures multiset(r) == multiset(s)
    ensures forall i :: 0 <= i < |r| - 1 ==>
      date(r[i]).year > date(r[i + 1]).year ||
      (date(r[i]).year == date(r[i + 1]).year && MonthIndex(date(r[i]).month) >= MonthIndex(date(r[i + 1]).month))
    ensures forall k :: WithKey(r, date, k) == WithKey(s, date, k)
  {
    var r := SortByDate(s, date);
    SortByDateIsSorted(s, date);
    forall k ensures WithKey(r, date, k) == WithKey(s, date, k) {
      SortByDateIsStable(s, date, k);
    }
    r
  }

  /** Sorting a list that is already latest first changes nothing, so
      sorting twice gives the order of sorting once. */
  lemma {:induction false} SortOfSortedIsIdentity<T>(s: seq<T>, date: T -> MonthYear)
    requires SortedByDate(s, date)
    ensures SortByDate(s, date) == s
    decreases |s|
  {
    if s != [] {
      assert SortedByDate(s[1..], date);
      SortOfSortedIsIdentity(s[1..], date);
      assert s == [s[0]] + s[1..];
    }
  }

  lemma SortIsIdempotent<T>(s: seq<T>, date: T -> MonthYear)
    ensures SortByDate(SortByDate(s, date), date) == SortByDate(s, date)
  {
    SortByDateIsSorted(s, date);
    SortOfSortedIsIdentity(SortByDate(s, date), date);
  }

  /** An element of `s` newer than every other element of `s` comes first
      in the sort. */
  lemma FirstIsNewest<T>(s: seq<T>, date: T -> MonthYear, newest: T)
    requires newest in s
    requires forall y :: y in s && y != newest ==> Newer(date(newest), date(y))
    ensures SortByDate(s, date) != [] && SortByDate(s, date)[0] == newest
  {
    var r := SortByDate(s, date);
    SortByDateIsSorted(s, date);
    assert newest in multiset(r);
    var i :| 0 <= i < |r| && r[i] == newest;
    var first := r[0];
    assert first in multiset(s);
    assert first == newest || Newer(date(newest), date(first));
    assert i == 0 || !Newer(date(newest), date(first));
  }

  /** An element of `s` older than every other element of `s` comes last. */
  lemma LastIsOldest<T>(s: seq<T>, date: T -> MonthYear, oldest: T)
    requires oldest in s
    requires forall y :: y in s && y != oldest ==> Newer(date(y), date(oldest))
    ensures |SortByDate(s, date)| == |s| && SortByDate(s, date)[|s| - 1] == oldest
  {
    var r := SortByDate(s, date);
    SortByDateIsSorted(s, date);
    assert oldest in multiset(r);
    var i :| 0 <= i < |r| && r[i] == oldest;
    var last := |r| - 1;
    var final := r[last];
    assert final in multiset(s);
    assert final == oldest || Newer(date(final), date(oldest));
    assert i == last || !Newer(date(final), date(oldest));
  }
}
