/**
 * The entry list (components/DiaryList.tsx): loading the years and the entries of the chosen
 * year, and the search box that narrows the shown entries.
 */
module DiaryList {
  import opened Seqs
  import opened Text
  import opened Types
  import Db

  // ---------------------------------------------------------------- search

  /**
   * The search test of one entry: the lower-cased query occurs in the lower-cased content or
   * in some lower-cased tag. `lower` stands for `toLowerCase`.
   */
  predicate Matches(e: DiaryEntry, query: string, lower: string -> string) {
    Includes(lower(e.content), lower(query)) ||
    exists t :: t in e.tags && Includes(lower(t), lower(query))
  }

  /**
   * `filteredEntries`: a blank query shows every entry; otherwise exactly the matching
   * entries, in their order. The query itself is used untrimmed.
   */
  function FilteredEntries(entries: seq<DiaryEntry>, query: string, lower: string -> string): (r: seq<DiaryEntry>)
    ensures IsBlank(query) ==> r == entries
    ensures !IsBlank(query) ==> forall e :: e in r <==> e in entries && Matches(e, query, lower)
    ensures !IsBlank(query) ==>
      forall e :: multiset(r)[e] == if Matches(e, query, lower) then multiset(entries)[e] else 0
    ensures IsSubsequence(r, entries)
  {
    if IsBlank(query) then
      assert IsSubsequence(entries, entries) by { SubsequenceOfItself(entries); }
      entries
    else
      var keep := (e: DiaryEntry) => Matches(e, query, lower);
      FilterIsSubsequence(entries, keep);
      assert forall e :: multiset(Filter(entries, keep))[e] == if keep(e) then multiset(entries)[e] else 0 by {
        forall e ensures multiset(Filter(entries, keep))[e] == if keep(e) then multiset(entries)[e] else 0 {
          FilterCounts(entries, keep, e);
        }
      }
      Filter(entries, keep)
  }

  lemma {:induction false} SubsequenceOfItself<T>(s: seq<T>)
    ensures IsSubsequence(s, s)
  {
    if s != [] {
      SubsequenceOfItself(s[1..]);
    }
  }

  /** A query occurring in the lower-cased content at some position selects the entry. */
  lemma ContentHitIsShown(entries: seq<DiaryEntry>, e: DiaryEntry, query: string, lower: string -> string, i: nat)
    requires e in entries && !IsBlank(query)
    requires i <= |lower(e.content)| && OccursAt(lower(e.content), lower(query), i)
    ensures e in FilteredEntries(entries, query, lower)
  {
    IncludesIffOccurs(lower(e.content), lower(query));
  }

  // ---------------------------------------------------------------- year choice

  /** The year shown after loading: kept if it has entries, else the first (latest) loaded year. */
  function SnapYear(years: seq<int>, current: int): (r: int)
    ensures years != [] ==> r in years
    ensures current in years || years == [] ==> r == current
    ensures years != [] && current !in years ==> r == years[0]
  {
    if |years| > 0 && current !in years then years[0] else current
  }

  /** A year without entries is replaced by the newest stored year. */
  lemma SnapToNewest(diaries: map<int, DiaryEntry>, thisYear: int, current: int)
    ensures var years := Db.GetAllYears(diaries, thisYear);
      current !in years ==> forall y :: y in years ==> y <= SnapYear(years, current)
  {
    Db.DescendingHead(Db.GetAllYears(diaries, thisYear));
  }

  /** Loading again with the same years keeps the snapped year: the reload triggered by it settles. */
  lemma SnapYearSettles(years: seq<int>, current: int)
    ensures SnapYear(years, SnapYear(years, current)) == SnapYear(years, current)
  {
  }

  // ---------------------------------------------------------------- the page

  class DiaryListPage {
    var entries: seq<DiaryEntry>
    var years: seq<int>
    var currentYear: int
    var loading: bool
    var searchQuery: string
    var isSearching: bool

    /** The page opens on the current calendar year, loading, with no search. */
    constructor (thisYear: int)
      ensures entries == [] && years == [] && currentYear == thisYear
      ensures loading && searchQuery == "" && !isSearching
    {
      entries, years, currentYear := [], [], thisYear;
      loading, searchQuery, isSearching := true, "", false;
    }

    /**
     * `fetchData`: loads the years, snaps the chosen year to one that has entries, and loads
     * the entries of the year the load started with (the chosen year as the effect saw it;
     * a change of year runs the effect again). `thisYear` is the clock's current year.
     */
    method FetchData(db: Db.Database, thisYear: int)
      modifies this`years, this`currentYear, this`entries, this`loading
      ensures years == Db.GetAllYears(db.diaries, thisYear)
      ensures currentYear == SnapYear(years, old(currentYear))
      ensures currentYear in years
      ensures entries == Db.GetDiariesByYear(db.diaries, old(currentYear))
      ensures !loading
    {
      loading := true;
      var year := currentYear;
      var y := Db.GetAllYears(db.diaries, thisYear);
      years := y;
      if |y| > 0 && currentYear !in y {
        currentYear := y[0];
      }
      entries := Db.GetDiariesByYear(db.diaries, year);
      loading := false;
    }

    /** The year selector. */
    method SelectYear(year: int)
      modifies this`currentYear
      ensures currentYear == year
    {
      currentYear := year;
    }

    /** The search button. */
    method StartSearch()
      modifies this`isSearching
      ensures isSearching
    {
      isSearching := true;
    }

    /** Typing into the search box. */
    method SetSearchQuery(query: string)
      modifies this`searchQuery
      ensures searchQuery == query
    {
      searchQuery := query;
    }

    /** The cancel button: leaves search mode and clears the query, so every entry shows again. */
    method CancelSearch()
      modifies this`isSearching, this`searchQuery
      ensures !isSearching && searchQuery == ""
      ensures forall lower: string -> string :: Shown(lower) == entries
    {
      isSearching := false;
      searchQuery := "";
    }

    /** The entries on screen. */
    function Shown(lower: string -> string): seq<DiaryEntry>
      reads this
    {
      FilteredEntries(entries, searchQuery, lower)
    }
  }
}
