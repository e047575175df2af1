/**
 * The alert table: a search box filters the alerts, a chosen field and
 * direction sort them, and the result is shown ten to a page. The search
 * term, the sort field and direction and the current page are the
 * component's state; the filtered, sorted and paged lists are recomputed
 * from that state and the data on every render.
 */
module AlertTable {
  import opened Seqs
  import opened Sorting
  import opened Text
  import opened Alerts

  const ItemsPerPage: nat := 10

  /** The fields of an alert the table can sort by (`keyof AlertData`). */
  datatype SortField = Timestamp | SrcIp | DestIp | DestPort | Proto | Category | Severity

  datatype SortDirection = Asc | Desc

  // ---------------------------------------------------------------- filter

  /**
   * The search predicate: the term is looked for, case-sensitively, in the
   * source and destination IPs and in the port's decimal string, and
   * case-insensitively in the category and the protocol.
   */
  predicate Matches(a: Alert, term: string)
  {
    || Includes(a.srcIp, term)
    || Includes(a.destIp, term)
    || Includes(Lower(a.category), Lower(term))
    || Includes(Lower(a.proto), Lower(term))
    || Includes(IntToString(a.destPort), term)
  }

  function MatchesTerm(term: string): Alert -> bool
  {
    a => Matches(a, term)
  }

  /** `data.filter(...)` with the search predicate. */
  function FilteredData(data: seq<Alert>, term: string): seq<Alert>
  {
    Filter(data, MatchesTerm(term))
  }

  /** An alert passes the search exactly when the term occurs in one of the searched fields. */
  lemma MatchesMeaning(a: Alert, term: string)
    ensures Matches(a, term) <==>
      || IsSubstring(term, a.srcIp)
      || IsSubstring(term, a.destIp)
      || IsSubstring(Lower(term), Lower(a.category))
      || IsSubstring(Lower(term), Lower(a.proto))
      || IsSubstring(term, IntToString(a.destPort))
  {
    IncludesIsSubstring(a.srcIp, term);
    IncludesIsSubstring(a.destIp, term);
    IncludesIsSubstring(Lower(a.category), Lower(term));
    IncludesIsSubstring(Lower(a.proto), Lower(term));
    IncludesIsSubstring(IntToString(a.destPort), term);
  }

  /**
   * The filtered list keeps the data's order, holds only matching alerts
   * and every matching alert, each as many times as the data holds it;
   * with an empty term it is the whole data.
   */
  lemma FilteredDataCorrect(data: seq<Alert>, term: string)
    ensures IsSubsequence(FilteredData(data, term), data)
    ensures forall i :: 0 <= i < |FilteredData(data, term)| ==> Matches(FilteredData(data, term)[i], term)
    ensures forall i :: 0 <= i < |data| && Matches(data[i], term) ==> data[i] in FilteredData(data, term)
    ensures forall a :: multiset(FilteredData(data, term))[a] == if Matches(a, term) then multiset(data)[a] else 0
    ensures term == "" ==> FilteredData(data, term) == data
  {
    FilterIsSubsequence(data, MatchesTerm(term));
    FilterCounts(data, MatchesTerm(term));
    if term == "" {
      forall i | 0 <= i < |data| ensures MatchesTerm(term)(data[i]) {
        IncludesEmpty(data[i].srcIp);
      }
      FilterAll(data, MatchesTerm(term));
    }
  }

  // ------------------------------------------------------------------ sort

  /** `String(a[field])` for the fields compared as text. */
  function FieldText(field: SortField, a: Alert): string
  {
    match field
    case SrcIp => a.srcIp
    case DestIp => a.destIp
    case Proto => a.proto
    case Category => a.category
    case Timestamp => IntToString(a.timestamp)
    case DestPort => IntToString(a.destPort)
    case Severity => IntToString(a.severity)
  }

  /** `x.localeCompare(y)`, modelled by character order (`LexLe`): negative, zero or positive. */
  function LocaleCompare(x: string, y: string): int
  {
    if x == y then 0 else if LexLe(x, y) then -1 else 1
  }

  /** The comparison is zero exactly for equal strings and not positive exactly when `x` comes first. */
  lemma LocaleCompareMeaning(x: string, y: string)
    ensures LocaleCompare(x, y) == 0 <==> x == y
    ensures LocaleCompare(x, y) <= 0 <==> LexLe(x, y)
    ensures LocaleCompare(x, y) == -LocaleCompare(y, x)
  {
    LexLeReflexive(x);
    if x != y {
      LexLeTotal(x, y);
      if LexLe(x, y) && LexLe(y, x) {
        LexLeAntisymmetric(x, y);
      }
    }
  }

  /** The table's comparator for a field and a direction. */
  function Compare(field: SortField, dir: SortDirection, a: Alert, b: Alert): int
  {
    match field
    case Timestamp => if dir == Asc then a.timestamp - b.timestamp else b.timestamp - a.timestamp
    case Severity => if dir == Asc then a.severity - b.severity else b.severity - a.severity
    case DestPort => if dir == Asc then a.destPort - b.destPort else b.destPort - a.destPort
    case _ =>
      var valueA, valueB := Lower(FieldText(field, a)), Lower(FieldText(field, b));
      if dir == Asc then LocaleCompare(valueA, valueB) else LocaleCompare(valueB, valueA)
  }

  /** `a` may stay in front of `b`: the comparator does not return a positive number. */
  function SortLe(field: SortField, dir: SortDirection): (Alert, Alert) -> bool
  {
    (a, b) => Compare(field, dir, a, b) <= 0
  }

  /** `[...filteredData].sort(comparator)`: a sorted copy; the filtered list itself is not touched. */
  function SortedData(filtered: seq<Alert>, field: SortField, dir: SortDirection): seq<Alert>
  {
    StableSort(filtered, SortLe(field, dir))
  }

  /** Ascending order on the sort key: the instant, the number, or the lower-cased text. */
  predicate KeyLe(field: SortField, a: Alert, b: Alert)
  {
    match field
    case Timestamp => a.timestamp <= b.timestamp
    case Severity => a.severity <= b.severity
    case DestPort => a.destPort <= b.destPort
    case _ => LexLe(Lower(FieldText(field, a)), Lower(FieldText(field, b)))
  }

  /** Two alerts have the same sort key. */
  predicate SameKey(field: SortField, a: Alert, b: Alert)
  {
    match field
    case Timestamp => a.timestamp == b.timestamp
    case Severity => a.severity == b.severity
    case DestPort => a.destPort == b.destPort
    case _ => Lower(FieldText(field, a)) == Lower(FieldText(field, b))
  }

  /** The comparator orders by the key, ascending or descending. */
  lemma SortLeMeaning(field: SortField, dir: SortDirection, a: Alert, b: Alert)
    ensures SortLe(field, dir)(a, b) <==> if dir == Asc then KeyLe(field, a, b) else KeyLe(field, b, a)
  {
    var x, y := Lower(FieldText(field, a)), Lower(FieldText(field, b));
    LocaleCompareMeaning(x, y);
    LocaleCompareMeaning(y, x);
  }

  /** Two alerts compare equal exactly when their keys are equal. */
  lemma TieMeansSameKey(field: SortField, dir: SortDirection, a: Alert, b: Alert)
    ensures Tie(SortLe(field, dir), a, b) <==> SameKey(field, a, b)
  {
    SortLeMeaning(field, dir, a, b);
    SortLeMeaning(field, dir, b, a);
    var x, y := Lower(FieldText(field, a)), Lower(FieldText(field, b));
    if LexLe(x, y) && LexLe(y, x) {
      LexLeAntisymmetric(x, y);
    }
    LexLeReflexive(x);
  }

  /** For every field and direction the comparator is consistent: a total preorder. */
  lemma SortLeIsPreorder(field: SortField, dir: SortDirection)
    ensures TotalPreorder(SortLe(field, dir))
  {
    var le := SortLe(field, dir);
    forall a, b ensures le(a, b) || le(b, a) {
      SortLeMeaning(field, dir, a, b);
      SortLeMeaning(field, dir, b, a);
      LexLeTotal(Lower(FieldText(field, a)), Lower(FieldText(field, b)));
    }
    forall a, b, c | le(a, b) && le(b, c) ensures le(a, c) {
      SortLeMeaning(field, dir, a, b);
      SortLeMeaning(field, dir, b, c);
      SortLeMeaning(field, dir, a, c);
      var x, y, z := Lower(FieldText(field, a)), Lower(FieldText(field, b)), Lower(FieldText(field, c));
      if dir == Asc {
        if LexLe(x, y) && LexLe(y, z) {
          LexLeTransitive(x, y, z);
        }
      } else {
        if LexLe(z, y) && LexLe(y, x) {
          LexLeTransitive(z, y, x);
        }
      }
    }
  }

  /**
   * The sorted list is a permutation of the filtered one, ordered by the key
   * (non-decreasing for `Asc`, non-increasing for `Desc`), and alerts with
   * equal keys keep their filtered order.
   */
  lemma SortedDataCorrect(filtered: seq<Alert>, field: SortField, dir: SortDirection)
    ensures multiset(SortedData(filtered, field, dir)) == multiset(filtered)
    ensures |SortedData(filtered, field, dir)| == |filtered|
    ensures dir == Asc ==> forall i, j :: 0 <= i < j < |SortedData(filtered, field, dir)| ==>
              KeyLe(field, SortedData(filtered, field, dir)[i], SortedData(filtered, field, dir)[j])
    ensures dir == Desc ==> forall i, j :: 0 <= i < j < |SortedData(filtered, field, dir)| ==>
              KeyLe(field, SortedData(filtered, field, dir)[j], SortedData(filtered, field, dir)[i])
    ensures SameTies(SortedData(filtered, field, dir), filtered, SortLe(field, dir))
  {
    var r := SortedData(filtered, field, dir);
    SortLeIsPreorder(field, dir);
    StableSortCorrect(filtered, SortLe(field, dir));
    forall i, j | 0 <= i < j < |r| ensures if dir == Asc then KeyLe(field, r[i], r[j]) else KeyLe(field, r[j], r[i]) {
      SortLeMeaning(field, dir, r[i], r[j]);
    }
  }

  /**
   * When no two different filtered alerts share a key, clicking the sort
   * field again reverses the table: the descending order is the ascending
   * one read backwards.
   */
  lemma DirectionReverses(filtered: seq<Alert>, field: SortField)
    requires forall a, b :: a in filtered && b in filtered && SameKey(field, a, b) ==> a == b
    ensures SortedData(filtered, field, Desc) == Reverse(SortedData(filtered, field, Asc))
  {
    var up, down := SortedData(filtered, field, Asc), SortedData(filtered, field, Desc);
    var back := Reverse(up);
    var le := SortLe(field, Desc);
    SortedDataCorrect(filtered, field, Asc);
    SortedDataCorrect(filtered, field, Desc);
    ReversePermutes(up);
    forall i, j | 0 <= i < j < |back| ensures le(back[i], back[j]) {
      SortLeMeaning(field, Desc, back[i], back[j]);
    }
    forall i, j | 0 <= i < j < |down| ensures le(down[i], down[j]) {
      SortLeMeaning(field, Desc, down[i], down[j]);
    }
    forall x, y | x in back && y in back && Tie(le, x, y) ensures x == y {
      TieMeansSameKey(field, Desc, x, y);
      assert x in multiset(filtered) && y in multiset(filtered);
    }
    SortedUnique(back, down, le);
  }

  // ------------------------------------------------------------ pagination

  /** `Math.ceil(n / itemsPerPage)`. */
  function TotalPages(n: nat): nat
  {
    (n + ItemsPerPage - 1) / ItemsPerPage
  }

  /** The page count is the least number of ten-alert pages holding `n` alerts; it is 0 for no alerts. */
  lemma TotalPagesIsCeiling(n: nat)
    ensures TotalPages(n) * ItemsPerPage >= n
    ensures n > 0 ==> (TotalPages(n) - 1) * ItemsPerPage < n
    ensures TotalPages(n) == 0 <==> n == 0
  {
  }

  /** `sortedData.slice(startIndex, startIndex + itemsPerPage)` for the page `page`. */
  function PageOf(sorted: seq<Alert>, page: int): seq<Alert>
  {
    var start := (page - 1) * ItemsPerPage;
    Slice(sorted, start, start + ItemsPerPage)
  }

  /**
   * Page `p >= 1` holds the alerts from position `(p - 1) * 10` up to ten
   * further, fewer on the last page, and nothing past the end; every page
   * from 1 to the page count is non-empty; page 0 is empty.
   */
  lemma PageOfCorrect(sorted: seq<Alert>, page: int)
    ensures page >= 1 ==> |PageOf(sorted, page)| <= ItemsPerPage
    ensures page >= 1 && (page - 1) * ItemsPerPage < |sorted| ==>
              PageOf(sorted, page) == sorted[(page - 1) * ItemsPerPage..Min(page * ItemsPerPage, |sorted|)]
    ensures page >= 1 && (page - 1) * ItemsPerPage >= |sorted| ==> PageOf(sorted, page) == []
    ensures 1 <= page <= TotalPages(|sorted|) ==> PageOf(sorted, page) != []
    ensures page == 0 ==> PageOf(sorted, page) == []
  {
  }

  // -------------------------------------------------------- state updates

  /** `handleSort(field)`: the same field flips the direction; another field is selected descending. */
  function SortAfterClick(current: SortField, dir: SortDirection, clicked: SortField): (SortField, SortDirection)
  {
    if clicked == current then (current, if dir == Asc then Desc else Asc) else (clicked, Desc)
  }

  /** Clicking the current field twice restores the direction; a new field always starts descending. */
  lemma SortAfterClickProperties(current: SortField, dir: SortDirection, clicked: SortField)
    ensures SortAfterClick(current, dir, clicked).0 == clicked
    ensures clicked == current ==> SortAfterClick(current, dir, clicked).1 != dir
    ensures clicked == current ==> SortAfterClick(SortAfterClick(current, dir, clicked).0, SortAfterClick(current, dir, clicked).1, clicked) == (current, dir)
    ensures clicked != current ==> SortAfterClick(current, dir, clicked).1 == Desc
  {
  }

  /** The Previous button: `Math.max(1, currentPage - 1)`. */
  function PreviousPage(page: int): int
  {
    Max(1, page - 1)
  }

  /** The Next button: `Math.min(totalPages, currentPage + 1)`. */
  function NextPage(page: int, totalPages: nat): int
  {
    Min(totalPages, page + 1)
  }

  /**
   * Previous never goes below page 1, and Next never goes past the last
   * page; a page in [1, totalPages] stays there under both.
   */
  lemma NavigationStaysInRange(page: int, totalPages: nat)
    ensures PreviousPage(page) >= 1
    ensures NextPage(page, totalPages) <= totalPages
    ensures 1 <= page <= totalPages ==> 1 <= PreviousPage(page) <= totalPages
    ensures 1 <= page <= totalPages ==> 1 <= NextPage(page, totalPages) <= totalPages
    ensures 1 <= page < totalPages ==> NextPage(page, totalPages) == page + 1
    ensures page > 1 ==> PreviousPage(page) == page - 1
  {
  }

  /** The component's state, as its four `useState` hooks hold it. */
  class TableState {
    var searchTerm: string
    var currentPage: int
    var sortField: SortField
    var sortDirection: SortDirection

    /** The page count for the current search over `data`. */
    function TotalPagesFor(data: seq<Alert>): nat
      reads this
    {
      TotalPages(|FilteredData(data, searchTerm)|)
    }

    /** What the table body shows for `data`. */
    function View(data: seq<Alert>): seq<Alert>
      reads this
    {
      PageOf(SortedData(FilteredData(data, searchTerm), sortField, sortDirection), currentPage)
    }

    /** The invariant every reachable state keeps: the page is at least 1. */
    predicate Valid()
      reads this
    {
      currentPage >= 1
    }

    /** The initial state: no search, page 1, newest first. */
    constructor()
      ensures Valid()
      ensures searchTerm == "" && currentPage == 1 && sortField == Timestamp && sortDirection == Desc
    {
      searchTerm, currentPage, sortField, sortDirection := "", 1, Timestamp, Desc;
    }

    /** `handleSort(field)`; the page and the search are kept. */
    method HandleSort(field: SortField)
      requires Valid()
      modifies this
      ensures Valid()
      ensures (sortField, sortDirection) == SortAfterClick(old(sortField), old(sortDirection), field)
      ensures searchTerm == old(searchTerm) && currentPage == old(currentPage)
    {
      if field == sortField {
        sortDirection := if sortDirection == Asc then Desc else Asc;
      } else {
        sortField := field;
        sortDirection := Desc;
      }
    }

    /** The search box's `onChange`: the new term, back to page 1. */
    method SetSearchTerm(term: string)
      requires Valid()
      modifies this
      ensures Valid()
      ensures searchTerm == term && currentPage == 1
      ensures sortField == old(sortField) && sortDirection == old(sortDirection)
    {
      searchTerm := term;
      currentPage := 1;
    }

    /**
     * The Previous button, given the data the table is showing; it is only
     * shown when there is more than one page and is disabled on page 1.
     */
    method GoToPreviousPage(data: seq<Alert>)
      requires Valid()
      requires TotalPagesFor(data) > 1 && currentPage != 1
      modifies this
      ensures Valid()
      ensures currentPage == PreviousPage(old(currentPage)) >= 1
      ensures searchTerm == old(searchTerm) && sortField == old(sortField) && sortDirection == old(sortDirection)
    {
      currentPage := Max(1, currentPage - 1);
    }

    /**
     * The Next button, given the data the table is showing; it is only
     * shown when there is more than one page and is disabled on the last.
     */
    method GoToNextPage(data: seq<Alert>)
      requires Valid()
      requires TotalPagesFor(data) > 1 && currentPage != TotalPagesFor(data)
      modifies this
      ensures Valid()
      ensures currentPage == NextPage(old(currentPage), TotalPagesFor(data)) <= TotalPagesFor(data)
      ensures old(1 <= currentPage <= TotalPagesFor(data)) ==> 1 <= currentPage <= TotalPagesFor(data)
      ensures searchTerm == old(searchTerm) && sortField == old(sortField) && sortDirection == old(sortDirection)
    {
      var totalPages := TotalPages(|FilteredData(data, searchTerm)|);
      currentPage := Min(totalPages, currentPage + 1);
    }
  }
  /**
   * The table body shows at most ten alerts once the page is at least 1,
   * and every alert it shows is one of the data's alerts that passes the
   * current search.
   */
  lemma ViewCorrect(table: TableState, data: seq<Alert>)
    ensures table.currentPage >= 1 ==> |table.View(data)| <= ItemsPerPage
    ensures forall a :: a in table.View(data) ==> a in data && Matches(a, table.searchTerm)
  {
    var filtered := FilteredData(data, table.searchTerm);
    var sorted := SortedData(filtered, table.sortField, table.sortDirection);
    PageOfCorrect(sorted, table.currentPage);
    SliceElements(sorted, (table.currentPage - 1) * ItemsPerPage, (table.currentPage - 1) * ItemsPerPage + ItemsPerPage);
    SortedDataCorrect(filtered, table.sortField, table.sortDirection);
    forall a | a in sorted ensures a in data && Matches(a, table.searchTerm) {
      assert a in multiset(filtered);
    }
  }
}
