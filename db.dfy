/**
 * The diary store (db.ts): a `diaries` table keyed by an auto-incremented integer and a
 * `settings` table keyed by its `key` field, with the helper operations the components call.
 */
module Db {
  import opened Opt
  import opened Text
  import opened Types

  // ---------------------------------------------------------------- the tables

  /**
   * The two tables as maps. `nextId` is the `++id` key generator: a record put without an id
   * gets `nextId`, and a record put with an id at or above it moves it past that id.
   */
  class Database {
    var diaries: map<int, DiaryEntry>
    var settings: map<string, SettingValue>
    var nextId: int

    /** Every stored entry carries its own key, and every key is below the generator. */
    ghost predicate Valid()
      reads this
    {
      1 <= nextId &&
      forall k :: k in diaries ==> k < nextId && diaries[k].id == Some(k)
    }

    constructor ()
      ensures Valid()
      ensures diaries == map[] && settings == map[] && nextId == 1
    {
      diaries := map[];
      settings := map[];
      nextId := 1;
    }

    /**
     * `saveDiary`: `put` of an entry. An entry with an id replaces whatever that key held;
     * an entry without one is stored under a key never used before, written into its `id`.
     */
    method SaveDiary(entry: DiaryEntry) returns (key: int)
      requires Valid()
      modifies this
      ensures Valid()
      ensures entry.id.Some? ==> key == entry.id.value
      ensures entry.id.None? ==> key == old(nextId) && key !in old(diaries)
      ensures diaries == old(diaries)[key := entry.(id := Some(key))]
      ensures nextId == if key < old(nextId) then old(nextId) else key + 1
      ensures settings == old(settings)
    {
      if entry.id.Some? {
        key := entry.id.value;
      } else {
        key := nextId;
      }
      if key >= nextId {
        nextId := key + 1;
      }
      diaries := diaries[key := entry.(id := Some(key))];
    }

    /** `deleteDiary`: removes the entry under `id`, if any, and nothing else. */
    method DeleteDiary(id: int)
      requires Valid()
      modifies this`diaries
      ensures Valid()
      ensures diaries == old(diaries) - {id}
      ensures id !in diaries
      ensures forall k :: k in old(diaries) && k != id ==> k in diaries && diaries[k] == old(diaries)[k]
    {
      diaries := diaries - {id};
    }

    /** `setSetting`: `put` of `{key, value}` into the table keyed by `key`. */
    method SetSetting(key: string, value: SettingValue)
      modifies this`settings
      ensures settings == old(settings)[key := value]
      ensures forall default :: GetSetting(settings, key, default) == value
      ensures forall k, default :: k != key ==>
        GetSetting(settings, k, default) == GetSetting(old(settings), k, default)
    {
      settings := settings[key := value];
    }
  }

  // ---------------------------------------------------------------- settings lookups

  /**
   * `getSetting(key, defaultValue)`: the stored record is an object, so it is truthy whenever
   * present and its value is returned, whatever that value is.
   */
  function GetSetting(settings: map<string, SettingValue>, key: string, default: SettingValue): (r: SettingValue)
    ensures key in settings ==> r == settings[key]
    ensures key !in settings ==> r == default
  {
    if key in settings then settings[key] else default
  }

  /** A string setting read with a string default; a stored boolean reads as the default. */
  function TextSetting(settings: map<string, SettingValue>, key: string, default: string): (s: string)
    ensures key in settings && settings[key].TextValue? ==> s == settings[key].text
    ensures !(key in settings && settings[key].TextValue?) ==> s == default
  {
    match GetSetting(settings, key, TextValue(default))
    case TextValue(s) => s
    case FlagValue(_) => default
  }

  /** A boolean setting read with a boolean default; a stored string reads as the default. */
  function FlagSetting(settings: map<string, SettingValue>, key: string, default: bool): (b: bool)
    ensures key in settings && settings[key].FlagValue? ==> b == settings[key].flag
    ensures !(key in settings && settings[key].FlagValue?) ==> b == default
  {
    match GetSetting(settings, key, FlagValue(default))
    case FlagValue(b) => b
    case TextValue(_) => default
  }

  // ---------------------------------------------------------------- years

  /** The years that occur among the stored entries. */
  function YearsOf(diaries: map<int, DiaryEntry>): set<int> {
    set k | k in diaries :: diaries[k].year
  }

  lemma {:induction false} MaxExists(s: set<int>)
    requires s != {}
    ensures exists m :: m in s && forall x :: x in s ==> x <= m
    decreases |s|
  {
    if forall x :: x !in s { assert false; }
    var y :| y in s;
    var rest := s - {y};
    if rest == {} {
      forall x | x in s ensures x <= y {
        assert x !in rest;
      }
    } else {
      MaxExists(rest);
      var m :| m in rest && forall x :: x in rest ==> x <= m;
      var top := if m < y then y else m;
      forall x | x in s ensures x <= top {
        if x != y {
          assert x in rest;
        }
      }
      assert top in s;
    }
  }

  /** The numbers of `s`, each once, largest first: `Array.from(s).sort((a, b) => b - a)`. */
  function SortDescending(s: set<int>): (r: seq<int>)
    ensures forall x :: x in r <==> x in s
    ensures forall i, j :: 0 <= i < j < |r| ==> r[i] > r[j]
    decreases |s|
  {
    if s == {} then []
    else
      MaxExists(s);
      var m :| m in s && forall x :: x in s ==> x <= m;
      var rest := SortDescending(s - {m});
      PrependDescending(m, rest);
      [m] + rest
  }

  lemma PrependDescending(m: int, rest: seq<int>)
    requires forall i, j :: 0 <= i < j < |rest| ==> rest[i] > rest[j]
    requires forall x :: x in rest ==> x < m
    ensures forall i, j :: 0 <= i < j < |[m] + rest| ==> ([m] + rest)[i] > ([m] + rest)[j]
  {
    forall i, j | 0 <= i < j < |[m] + rest| ensures ([m] + rest)[i] > ([m] + rest)[j] {
      assert ([m] + rest)[j] == rest[j - 1];
      if i == 0 {
        assert rest[j - 1] in rest;
      } else {
        assert ([m] + rest)[i] == rest[i - 1];
      }
    }
  }

  /**
   * `getAllYears`: the distinct years of the stored entries, largest first, or the single
   * current year when the table is empty.
   */
  function GetAllYears(diaries: map<int, DiaryEntry>, currentYear: int): (years: seq<int>)
    ensures years != []
    ensures forall i, j :: 0 <= i < j < |years| ==> years[i] > years[j]
    ensures diaries == map[] ==> years == [currentYear]
    ensures diaries != map[] ==> forall y :: y in years <==> exists k :: k in diaries && diaries[k].year == y
  {
    var ys := YearsOf(diaries);
    assert diaries != map[] ==> ys != {} by {
      if diaries != map[] {
        if forall k :: k !in diaries { assert false; }
        var k :| k in diaries;
        assert diaries[k].year in ys;
      }
    }
    if ys == {} then [currentYear] else SortDescending(ys)
  }

  /** The head of a strictly descending list is its largest element and occurs nowhere else. */
  lemma DescendingHead(a: seq<int>)
    requires a != []
    requires forall i, j :: 0 <= i < j < |a| ==> a[i] > a[j]
    ensures forall x :: x in a ==> x <= a[0]
    ensures forall x :: x in a[1..] <==> x in a && x != a[0]
  {
    assert a == [a[0]] + a[1..];
    forall x | x in a[1..] ensures x < a[0] {
      var i :| 0 <= i < |a[1..]| && a[1..][i] == x;
      assert a[i + 1] == x;
    }
  }

  /** A strictly descending list is fixed by its elements. */
  lemma {:induction false} DescendingUnique(a: seq<int>, b: seq<int>)
    requires forall i, j :: 0 <= i < j < |a| ==> a[i] > a[j]
    requires forall i, j :: 0 <= i < j < |b| ==> b[i] > b[j]
    requires forall x :: x in a <==> x in b
    ensures a == b
  {
    assert a != [] ==> a[0] in a && a[0] in b;
    assert b != [] ==> b[0] in b && b[0] in a;
    if a != [] {
      DescendingHead(a);
      DescendingHead(b);
      assert a[0] in b && b[0] in a;
      assert a[0] == b[0];
      DescendingUnique(a[1..], b[1..]);
      assert a == [a[0]] + a[1..] && b == [b[0]] + b[1..];
    }
  }

  /**
   * The year list is the only strictly descending list of the stored years: the selector
   * shows each year once, newest first, whatever order the entries were stored in.
   */
  lemma GetAllYearsUnique(diaries: map<int, DiaryEntry>, currentYear: int, ys: seq<int>)
    requires diaries != map[]
    requires forall i, j :: 0 <= i < j < |ys| ==> ys[i] > ys[j]
    requires forall y :: y in ys <==> exists k :: k in diaries && diaries[k].year == y
    ensures ys == GetAllYears(diaries, currentYear)
  {
    DescendingUnique(ys, GetAllYears(diaries, currentYear));
  }

  // ---------------------------------------------------------------- entries of a year

  /**
   * The order of `getDiariesByYear`: the later date first, and for the same date the larger
   * key first (the year index is read in reverse key order, then stably sorted by date).
   */
  predicate Before(diaries: map<int, DiaryEntry>, j: int, k: int)
    requires j in diaries && k in diaries
  {
    StrLess(diaries[k].date, diaries[j].date) ||
    (diaries[j].date == diaries[k].date && j > k)
  }

  lemma BeforeTransitive(diaries: map<int, DiaryEntry>, a: int, b: int, c: int)
    requires a in diaries && b in diaries && c in diaries
    requires Before(diaries, a, b) && Before(diaries, b, c)
    ensures Before(diaries, a, c)
  {
    var da, db, dc := diaries[a].date, diaries[b].date, diaries[c].date;
    if StrLess(db, da) && StrLess(dc, db) {
      StrLessTransitive(dc, db, da);
    }
  }

  lemma BeforeAsymmetric(diaries: map<int, DiaryEntry>, a: int, b: int)
    requires a in diaries && b in diaries
    ensures !(Before(diaries, a, b) && Before(diaries, b, a))
  {
    StrLessAsymmetric(diaries[a].date, diaries[b].date);
    StrLessIrreflexive(diaries[a].date);
  }

  lemma BeforeTotal(diaries: map<int, DiaryEntry>, a: int, b: int)
    requires a in diaries && b in diaries && a != b
    ensures Before(diaries, a, b) || Before(diaries, b, a)
  {
    if diaries[a].date != diaries[b].date {
      StrLessTotal(diaries[a].date, diaries[b].date);
    }
  }

  lemma {:induction false} FirstExists(diaries: map<int, DiaryEntry>, ks: set<int>)
    requires ks != {} && ks <= diaries.Keys
    ensures exists k :: k in ks && forall j :: j in ks && j != k ==> Before(diaries, k, j)
    decreases |ks|
  {
    if forall x :: x !in ks { assert false; }
    var y :| y in ks;
    var rest := ks - {y};
    if rest == {} {
      forall j | j in ks ensures j == y {
        assert j !in rest;
      }
    } else {
      FirstExists(diaries, rest);
      var m :| m in rest && forall j :: j in rest && j != m ==> Before(diaries, m, j);
      BeforeTotal(diaries, m, y);
      if Before(diaries, y, m) {
        forall j | j in ks && j != y ensures Before(diaries, y, j) {
          if j != m {
            assert j in rest;
            BeforeTransitive(diaries, y, m, j);
          }
        }
      } else {
        forall j | j in ks && j != m ensures Before(diaries, m, j) {
          if j != y {
            assert j in rest;
          }
        }
      }
    }
  }

  /** At most one key of `ks` comes before all the others. */
  lemma FirstUnique(diaries: map<int, DiaryEntry>, ks: set<int>, a: int, b: int)
    requires ks <= diaries.Keys && a in ks && b in ks
    requires forall j :: j in ks && j != a ==> Before(diaries, a, j)
    requires forall j :: j in ks && j != b ==> Before(diaries, b, j)
    ensures a == b
  {
    if a != b {
      BeforeAsymmetric(diaries, a, b);
    }
  }

  /** The key of `ks` that is listed first. */
  function FirstKey(diaries: map<int, DiaryEntry>, ks: set<int>): (k: int)
    requires ks != {} && ks <= diaries.Keys
    ensures k in ks
    ensures forall j :: j in ks && j != k ==> Before(diaries, k, j)
  {
    FirstExists(diaries, ks);
    assert forall x :: x in ks ==> x in diaries;
    assert forall a, b ::
      (a in ks && b in ks &&
       (forall j :: j in ks && j != a ==> Before(diaries, a, j)) &&
       (forall j :: j in ks && j != b ==> Before(diaries, b, j))) ==> a == b
    by {
      forall a, b | a in ks && b in ks &&
        (forall j :: j in ks && j != a ==> Before(diaries, a, j)) &&
        (forall j :: j in ks && j != b ==> Before(diaries, b, j))
        ensures a == b
      {
        FirstUnique(diaries, ks, a, b);
      }
    }
    var k :| k in ks && forall j :: j in ks && j != k ==> Before(diaries, k, j);
    k
  }

  /** Putting the first key in front of the rest, ordered, orders all of `ks`. */
  lemma PrependOrdered(diaries: map<int, DiaryEntry>, ks: set<int>, k: int, rest: seq<int>)
    requires ks <= diaries.Keys && k in ks
    requires forall j :: j in ks && j != k ==> Before(diaries, k, j)
    requires |rest| == |ks - {k}|
    requires forall x :: x in rest <==> x in ks - {k}
    requires forall i :: 0 <= i < |rest| ==> rest[i] in diaries
    requires forall i, j :: 0 <= i < j < |rest| ==> Before(diaries, rest[i], rest[j])
    ensures |[k] + rest| == |ks|
    ensures forall x :: x in [k] + rest <==> x in ks
    ensures forall i :: 0 <= i < |[k] + rest| ==> ([k] + rest)[i] in diaries
    ensures forall i, j :: 0 <= i < j < |[k] + rest| ==> Before(diaries, ([k] + rest)[i], ([k] + rest)[j])
  {
    var r := [k] + rest;
    assert forall x :: x in r <==> x == k || x in rest;
    forall i | 0 <= i < |r| ensures r[i] in diaries {
      if i > 0 {
        assert r[i] == rest[i - 1];
      }
    }
    forall i, j | 0 <= i < j < |r| ensures Before(diaries, r[i], r[j]) {
      assert r[j] == rest[j - 1];
      assert rest[j - 1] in rest;
      if i > 0 {
        assert r[i] == rest[i - 1];
      }
    }
  }

  /** The keys `ks` in listing order. */
  function OrderKeys(diaries: map<int, DiaryEntry>, ks: set<int>): (r: seq<int>)
    requires ks <= diaries.Keys
    ensures |r| == |ks|
    ensures forall k :: k in r <==> k in ks
    ensures forall i :: 0 <= i < |r| ==> r[i] in diaries
    ensures forall i, j :: 0 <= i < j < |r| ==> Before(diaries, r[i], r[j])
    decreases |ks|
  {
    if ks == {} then []
    else
      var k := FirstKey(diaries, ks);
      var rest := OrderKeys(diaries, ks - {k});
      PrependOrdered(diaries, ks, k, rest);
      [k] + rest
  }

  /** The keys of the entries stored for `year`. */
  function YearKeys(diaries: map<int, DiaryEntry>, year: int): set<int> {
    set k | k in diaries && diaries[k].year == year
  }

  /** The entries under the keys `ks`, in that order. */
  function EntriesAt(diaries: map<int, DiaryEntry>, ks: seq<int>): (r: seq<DiaryEntry>)
    requires forall i :: 0 <= i < |ks| ==> ks[i] in diaries
    ensures |r| == |ks|
    ensures forall i :: 0 <= i < |ks| ==> r[i] == diaries[ks[i]]
  {
    seq(|ks|, i requires 0 <= i < |ks| => diaries[ks[i]])
  }

  lemma ListingHoldsYear(diaries: map<int, DiaryEntry>, year: int, ks: seq<int>, r: seq<DiaryEntry>)
    requires forall k :: k in ks <==> k in YearKeys(diaries, year)
    requires forall i :: 0 <= i < |ks| ==> ks[i] in diaries
    requires r == EntriesAt(diaries, ks)
    ensures forall i :: 0 <= i < |r| ==> r[i] in diaries.Values && r[i].year == year
    ensures forall k :: k in diaries && diaries[k].year == year ==> diaries[k] in r
  {
    forall i | 0 <= i < |r| ensures r[i] in diaries.Values && r[i].year == year {
      var k := ks[i];
      assert k in ks;
      assert k in YearKeys(diaries, year);
      assert r[i] == diaries[k];
    }
    forall k | k in diaries && diaries[k].year == year ensures diaries[k] in r {
      assert k in YearKeys(diaries, year);
      var i :| 0 <= i < |ks| && ks[i] == k;
      assert r[i] == diaries[k];
    }
  }

  lemma ListingByDate(diaries: map<int, DiaryEntry>, ks: seq<int>, r: seq<DiaryEntry>)
    requires forall i :: 0 <= i < |ks| ==> ks[i] in diaries
    requires forall i, j :: 0 <= i < j < |ks| ==> Before(diaries, ks[i], ks[j])
    requires r == EntriesAt(diaries, ks)
    ensures forall i, j :: 0 <= i < j < |r| ==> !StrLess(r[i].date, r[j].date)
  {
    forall i, j | 0 <= i < j < |r| ensures !StrLess(r[i].date, r[j].date) {
      assert Before(diaries, ks[i], ks[j]);
      StrLessAsymmetric(r[i].date, r[j].date);
      StrLessIrreflexive(r[i].date);
    }
  }

  /**
   * `getDiariesByYear(year)`: every entry stored for `year`, once per key, the latest date
   * first.
   */
  function GetDiariesByYear(diaries: map<int, DiaryEntry>, year: int): (r: seq<DiaryEntry>)
    ensures |r| == |YearKeys(diaries, year)|
    ensures forall i :: 0 <= i < |r| ==> r[i] in diaries.Values && r[i].year == year
    ensures forall k :: k in diaries && diaries[k].year == year ==> diaries[k] in r
    ensures forall i, j :: 0 <= i < j < |r| ==> !StrLess(r[i].date, r[j].date)
  {
    var ks := OrderKeys(diaries, YearKeys(diaries, year));
    var r := EntriesAt(diaries, ks);
    ListingHoldsYear(diaries, year, ks, r);
    ListingByDate(diaries, ks, r);
    r
  }
}
