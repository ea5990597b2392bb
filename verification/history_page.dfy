/**
 * The history page's list: the loaded shifts filtered by shift type and by
 * a search string, then sorted in place, descending, by the chosen column.
 */
module HistoryPage {
  import opened Wrappers
  import opened Seqs
  import opened Calendar
  import opened Types
  import opened Text

  /** `SortKey`: `'datum'`, `'betrag'` or `'euro_pro_stunde'`. */
  datatype SortKey = ByDate | ByAmount | ByHourly

  /** `FilterSchicht`: `'all'`, `'f'` or `'s'`. */
  datatype KindFilter = AllKinds | OnlyEarly | OnlyLate

  /**
   * The number the comparator subtracts for a key. Dates compare by their
   * millisecond timestamps, which grow with the day number.
   */
  function SortValue(key: SortKey, s: Shift): real {
    match key
    case ByDate => DayOf(s) as real
    case ByAmount => s.betrag
    case ByHourly => s.euroProStunde
  }

  /** The sort key as a function value, for the comparator. */
  function KeyOf(key: SortKey): Shift -> real {
    (s: Shift) => SortValue(key, s)
  }

  /** Non-increasing in `rank`: what `sort((a, b) => rank(b) - rank(a))` produces. */
  predicate SortedBy(s: seq<Shift>, rank: Shift -> real) {
    forall p, q :: 0 <= p < q < |s| ==> rank(s[p]) >= rank(s[q])
  }

  /** Non-increasing in the chosen column. */
  predicate SortedDesc(s: seq<Shift>, key: SortKey) {
    SortedBy(s, KeyOf(key))
  }

  /** The shift-type filter's test (`s.schicht === filterSchicht`). */
  function OfFilter(kind: KindFilter): Shift -> bool {
    (s: Shift) => match kind
      case AllKinds => true
      case OnlyEarly => s.schicht == Early
      case OnlyLate => s.schicht == Late
  }

  /**
   * The search test for an already lowercased query `q`: the lowercased note,
   * the formatted date or the lowercased weekday name contains it.
   * `formatDate` and `getWeekday` are locale formatting and come in as
   * parameters.
   */
  function MatchesSearch(q: string, formatDate: Date -> string, weekdayName: Date -> string): Shift -> bool {
    (s: Shift) =>
      (s.notiz.Some? && Contains(ToLower(s.notiz.value), q))
      || Contains(formatDate(s.datum), q)
      || Contains(ToLower(weekdayName(s.datum)), q)
  }

  /**
   * The two filter steps in order: by type unless the filter is `'all'`, then
   * by the lowercased (untrimmed) search string unless it trims to nothing.
   */
  function HistoryFilter(shifts: seq<Shift>, kind: KindFilter, search: string,
                         formatDate: Date -> string, weekdayName: Date -> string): seq<Shift>
  {
    var byKind := if kind != AllKinds then Filter(shifts, OfFilter(kind)) else shifts;
    if Trim(search) != [] then Filter(byKind, MatchesSearch(ToLower(search), formatDate, weekdayName))
    else byKind
  }

  /** A shift is listed exactly when it is loaded, passes the type filter and, for a non-blank search, matches it. */
  lemma HistoryFilterMembers(shifts: seq<Shift>, kind: KindFilter, search: string,
                             formatDate: Date -> string, weekdayName: Date -> string)
    ensures forall s :: s in HistoryFilter(shifts, kind, search, formatDate, weekdayName) <==>
      s in shifts && OfFilter(kind)(s)
      && (IsBlank(search) || MatchesSearch(ToLower(search), formatDate, weekdayName)(s))
  {
    TrimEmptyIffBlank(search);
    var byKind := if kind != AllKinds then Filter(shifts, OfFilter(kind)) else shifts;
    if kind != AllKinds {
      FilterMembers(shifts, OfFilter(kind));
    }
    FilterMembers(byKind, MatchesSearch(ToLower(search), formatDate, weekdayName));
  }

  /** With `'all'` and a blank search nothing is dropped and the order is kept. */
  lemma NoFilterKeepsAll(shifts: seq<Shift>, search: string,
                         formatDate: Date -> string, weekdayName: Date -> string)
    requires IsBlank(search)
    ensures HistoryFilter(shifts, AllKinds, search, formatDate, weekdayName) == shifts
  {
    TrimEmptyIffBlank(search);
  }

  /** A shift of the selected type whose lowercased note contains the lowercased query is kept. */
  lemma NoteHitIsKept(shifts: seq<Shift>, kind: KindFilter, search: string,
                      formatDate: Date -> string, weekdayName: Date -> string, s: Shift)
    requires s in shifts && OfFilter(kind)(s)
    requires s.notiz.Some? && Contains(ToLower(s.notiz.value), ToLower(search))
    ensures s in HistoryFilter(shifts, kind, search, formatDate, weekdayName)
  {
    HistoryFilterMembers(shifts, kind, search, formatDate, weekdayName);
  }

  /** The filters only drop shifts: nothing is invented or duplicated. */
  lemma HistoryFilterShrinks(shifts: seq<Shift>, kind: KindFilter, search: string,
                             formatDate: Date -> string, weekdayName: Date -> string)
    ensures multiset(HistoryFilter(shifts, kind, search, formatDate, weekdayName)) <= multiset(shifts)
    ensures |HistoryFilter(shifts, kind, search, formatDate, weekdayName)| <= |shifts|
  {
    var byKind := if kind != AllKinds then Filter(shifts, OfFilter(kind)) else shifts;
    if kind != AllKinds {
      FilterSubMultiset(shifts, OfFilter(kind));
    }
    FilterSubMultiset(byKind, MatchesSearch(ToLower(search), formatDate, weekdayName));
  }

  /** Exchanges two neighbouring elements. */
  method Swap(a: array<Shift>, j: int)
    requires 0 < j < a.Length
    modifies a
    ensures a[..] == old(a[..])[j - 1 := old(a[j])][j := old(a[j - 1])]
    ensures multiset(a[..]) == multiset(old(a[..]))
  {
    a[j - 1], a[j] := a[j], a[j - 1];
  }

  /**
   * One insertion step: with the first `i` elements already in order, moves
   * element `i` left past every smaller one.
   */
  method InsertAt(a: array<Shift>, i: int, rank: Shift -> real)
    requires 0 <= i < a.Length
    requires SortedBy(a[..i], rank)
    modifies a
    ensures SortedBy(a[..i + 1], rank)
    ensures a[i + 1..] == old(a[i + 1..])
    ensures multiset(a[..]) == multiset(old(a[..]))
  {
    var j := i;
    while j > 0 && rank(a[j - 1]) < rank(a[j])
      invariant 0 <= j <= i
      invariant a[i + 1..] == old(a[i + 1..])
      invariant multiset(a[..]) == multiset(old(a[..]))
      invariant forall p, q :: 0 <= p < q <= i && p != j && q != j ==> rank(a[p]) >= rank(a[q])
      invariant forall q :: j < q <= i ==> rank(a[j]) >= rank(a[q])
    {
      Swap(a, j);
      j := j - 1;
    }
  }

  /** `result.sort((a, b) => rank(b) - rank(a))`, as an insertion sort. */
  method SortDescending(a: array<Shift>, rank: Shift -> real)
    modifies a
    ensures SortedBy(a[..], rank)
    ensures multiset(a[..]) == multiset(old(a[..]))
  {
    var i := 0;
    while i < a.Length
      invariant 0 <= i <= a.Length
      invariant SortedBy(a[..i], rank)
      invariant multiset(a[..]) == multiset(old(a[..]))
    {
      InsertAt(a, i, rank);
      i := i + 1;
    }
    assert a[..a.Length] == a[..];
  }

  /** Copies the kept shifts into a fresh array and sorts that array in place. */
  method SortedCopy(kept: seq<Shift>, key: SortKey) returns (result: seq<Shift>)
    ensures multiset(result) == multiset(kept)
    ensures |result| == |kept|
    ensures SortedDesc(result, key)
  {
    var a := new Shift[|kept|](k requires 0 <= k < |kept| => kept[k]);
    assert a[..] == kept;
    SortDescending(a, KeyOf(key));
    result := a[..];
  }

  /**
   * The page's `filteredShifts`: `[]` while nothing is loaded, otherwise a
   * copy of the loaded array, filtered, then sorted in place. The loaded
   * array itself is only read.
   */
  method FilteredShifts(shifts: Option<array<Shift>>, key: SortKey, kind: KindFilter, search: string,
                        formatDate: Date -> string, weekdayName: Date -> string)
    returns (result: seq<Shift>)
    ensures shifts.None? ==> result == []
    ensures shifts.Some? ==>
      multiset(result) == multiset(HistoryFilter(shifts.value[..], kind, search, formatDate, weekdayName))
    ensures shifts.Some? ==> |result| <= shifts.value.Length
    ensures SortedDesc(result, key)
  {
    if shifts.None? {
      return [];
    }
    var kept := HistoryFilter(shifts.value[..], kind, search, formatDate, weekdayName);
    HistoryFilterShrinks(shifts.value[..], kind, search, formatDate, weekdayName);
    result := SortedCopy(kept, key);
  }
}
