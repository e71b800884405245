/**
 * The date-folder locator: keep the listing entries that are dated folders, sort them
 * newest first with a stable sort, and take the first.
 */
module Locator {
  import opened Wrappers
  import opened Dates
  import opened DateNames

  /** One entry of `matched_folders`: the parsed date and the listing name it came from. */
  datatype Dated = Dated(date: Date, name: string)

  /** `matched_folders` once the loop over the listing is done: the accepted entries, in listing order. */
  function DatedEntries(items: seq<string>): (d: seq<Dated>)
    ensures |d| <= |items|
  {
    if items == [] then []
    else
      var rest := DatedEntries(items[..|items| - 1]);
      var last := items[|items| - 1];
      match FolderDate(last)
      case Some(date) => rest + [Dated(date, last)]
      case None => rest
  }

  /** Every collected entry comes from the listing, with the date its name denotes. */
  lemma {:induction false} DatedEntriesSound(items: seq<string>)
    ensures forall m :: 0 <= m < |DatedEntries(items)| ==>
      DatedEntries(items)[m].name in items && FolderDate(DatedEntries(items)[m].name) == Some(DatedEntries(items)[m].date)
  {
    if items != [] {
      var init := items[..|items| - 1];
      DatedEntriesSound(init);
      assert forall x :: x in init ==> x in items;
    }
  }

  /** Every collected name is a listing entry. */
  lemma DatedEntriesNamed(items: seq<string>)
    ensures forall m :: 0 <= m < |DatedEntries(items)| ==> DatedEntries(items)[m].name in items
  {
    DatedEntriesSound(items);
  }

  /** A listing whose last entry is dated collects that entry last. */
  lemma DatedEntriesEndWith(items: seq<string>)
    requires items != [] && FolderDate(items[|items| - 1]).Some?
    ensures DatedEntries(items) != []
    ensures DatedEntries(items)[|DatedEntries(items)| - 1] == Dated(FolderDate(items[|items| - 1]).value, items[|items| - 1])
  {
  }

  /** Every listing entry with a date is collected. */
  lemma {:induction false} DatedEntriesComplete(items: seq<string>)
    ensures forall j :: 0 <= j < |items| && FolderDate(items[j]).Some? ==>
      Dated(FolderDate(items[j]).value, items[j]) in DatedEntries(items)
  {
    if items != [] {
      var init := items[..|items| - 1];
      DatedEntriesComplete(init);
      forall j | 0 <= j < |items| - 1 && FolderDate(items[j]).Some?
        ensures Dated(FolderDate(items[j]).value, items[j]) in DatedEntries(items)
      {
        assert init[j] == items[j];
      }
    }
  }

  /** The entries collected from a prefix of the listing are a prefix of those collected from all of it. */
  lemma {:induction false} DatedEntriesPrefix(items: seq<string>, n: nat)
    requires n <= |items|
    ensures DatedEntries(items[..n]) <= DatedEntries(items)
    decreases |items| - n
  {
    if n < |items| {
      var init := items[..|items| - 1];
      assert init[..n] == items[..n];
      DatedEntriesPrefix(init, n);
    } else {
      assert items[..n] == items;
    }
  }

  /** Dates never increase from left to right. */
  predicate NewestFirst(s: seq<Dated>)
  {
    forall i, j :: 0 <= i < j < |s| ==> NotAfter(s[j].date, s[i].date)
  }

  /** Places `x` in front of the first entry of `t` that is not newer than it. */
  function Insert(x: Dated, t: seq<Dated>): (r: seq<Dated>)
    ensures |r| == |t| + 1
  {
    if t == [] || NotAfter(t[0].date, x.date) then [x] + t else [t[0]] + Insert(x, t[1..])
  }

  /** `list.sort(key=date, reverse=True)`: a stable sort, newest first. */
  function SortNewestFirst(s: seq<Dated>): (r: seq<Dated>)
    ensures |r| == |s|
  {
    if s == [] then [] else Insert(s[0], SortNewestFirst(s[1..]))
  }

  lemma {:induction false} InsertPermutes(x: Dated, t: seq<Dated>)
    ensures multiset(Insert(x, t)) == multiset(t) + multiset{x}
  {
    if !(t == [] || NotAfter(t[0].date, x.date)) {
      InsertPermutes(x, t[1..]);
      assert t == [t[0]] + t[1..];
    }
  }

  /** Inserting an entry no newer than `y` into entries no newer than `y` gives entries no newer than `y`. */
  lemma InsertBelow(x: Dated, t: seq<Dated>, y: Date)
    requires NotAfter(x.date, y)
    requires forall i :: 0 <= i < |t| ==> NotAfter(t[i].date, y)
    ensures forall i :: 0 <= i < |Insert(x, t)| ==> NotAfter(Insert(x, t)[i].date, y)
  {
    var r := Insert(x, t);
    InsertPermutes(x, t);
    forall i | 0 <= i < |r| ensures NotAfter(r[i].date, y) {
      assert r[i] in multiset(r);
      assert r[i] == x || r[i] in t;
    }
  }

  lemma {:induction false} InsertKeepsOrder(x: Dated, t: seq<Dated>)
    requires NewestFirst(t)
    ensures NewestFirst(Insert(x, t))
  {
    if t == [] || NotAfter(t[0].date, x.date) {
      var r := [x] + t;
      forall i, j | 0 <= i < j < |r| ensures NotAfter(r[j].date, r[i].date) {
        if i == 0 {
          assert r[j] == t[j - 1];
          assert NotAfter(t[j - 1].date, t[0].date);
        }
      }
    } else {
      var t' := t[1..];
      InsertKeepsOrder(x, t');
      assert forall i :: 0 <= i < |t'| ==> NotAfter(t'[i].date, t[0].date) by {
        forall i | 0 <= i < |t'| ensures NotAfter(t'[i].date, t[0].date) {
          assert t'[i] == t[i + 1];
        }
      }
      InsertBelow(x, t', t[0].date);
      StackOnTop(t[0], Insert(x, t'));
    }
  }

  /** An entry no older than every entry of a newest-first list can go in front of it. */
  lemma StackOnTop(y: Dated, rest: seq<Dated>)
    requires NewestFirst(rest)
    requires forall i :: 0 <= i < |rest| ==> NotAfter(rest[i].date, y.date)
    ensures NewestFirst([y] + rest)
  {
    var r := [y] + rest;
    forall i, j | 0 <= i < j < |r| ensures NotAfter(r[j].date, r[i].date) {
      assert r[j] == rest[j - 1];
      if i > 0 {
        assert r[i] == rest[i - 1];
      }
    }
  }

  /** The sort yields the same entries, newest first. */
  lemma {:induction false} SortNewestFirstCorrect(s: seq<Dated>)
    ensures NewestFirst(SortNewestFirst(s))
    ensures multiset(SortNewestFirst(s)) == multiset(s)
  {
    if s != [] {
      SortNewestFirstCorrect(s[1..]);
      InsertKeepsOrder(s[0], SortNewestFirst(s[1..]));
      InsertPermutes(s[0], SortNewestFirst(s[1..]));
      assert s == [s[0]] + s[1..];
    }
  }

  /**
   * The first entry after the sort is the newest, and among the newest the one that
   * came first: the sort is stable, so ties keep their listing order.
   */
  lemma {:induction false} SortHeadIsFirstNewest(s: seq<Dated>) returns (k: nat)
    requires |s| > 0
    ensures k < |s| && SortNewestFirst(s)[0] == s[k]
    ensures forall j :: 0 <= j < |s| ==> NotAfter(s[j].date, s[k].date)
    ensures forall j :: 0 <= j < k ==> Before(s[j].date, s[k].date)
  {
    if |s| == 1 {
      k := 0;
    } else {
      var k' := SortHeadIsFirstNewest(s[1..]);
      var t := SortNewestFirst(s[1..]);
      if NotAfter(t[0].date, s[0].date) {
        k := 0;
        forall j | 0 <= j < |s| ensures NotAfter(s[j].date, s[0].date) {
          if j > 0 {
            assert s[j] == s[1..][j - 1];
            NotAfterIsTotalOrder(s[j].date, t[0].date, s[0].date);
          }
        }
      } else {
        k := k' + 1;
        NotAfterIsTotalOrder(s[0].date, t[0].date, t[0].date);
        forall j | 0 <= j < |s| ensures NotAfter(s[j].date, s[k].date) {
          if j > 0 {
            assert s[j] == s[1..][j - 1];
          }
        }
        forall j | 0 <= j < k ensures Before(s[j].date, s[k].date) {
          if j > 0 {
            assert s[j] == s[1..][j - 1];
          }
        }
      }
    }
  }

  /** Position of the first occurrence of `x` in `s`. */
  function FirstIndex(s: seq<string>, x: string): (i: nat)
    requires x in s
    ensures i < |s| && s[i] == x
    ensures forall j :: 0 <= j < i ==> s[j] != x
  {
    if s[0] == x then 0 else 1 + FirstIndex(s[1..], x)
  }

  /** A name that occurs among the first `n` entries first occurs before position `n`. */
  lemma FirstIndexWithin(s: seq<string>, x: string, n: nat)
    requires n <= |s| && x in s[..n]
    ensures x in s && FirstIndex(s, x) < n
  {
    var i :| 0 <= i < n && s[..n][i] == x;
    assert s[i] == x;
  }

  /** No dated folder of the listing is newer than `name`. */
  ghost predicate IsNewest(items: seq<string>, name: string)
  {
    && name in items
    && FolderDate(name).Some?
    && forall x :: x in items && FolderDate(x).Some? ==> NotAfter(FolderDate(x).value, FolderDate(name).value)
  }

  /** No entry before the first occurrence of `name` has the same date. */
  ghost predicate ComesFirst(items: seq<string>, name: string)
    requires name in items
  {
    forall j :: 0 <= j < FirstIndex(items, name) ==> FolderDate(items[j]) != FolderDate(name)
  }

  /**
   * `name` is what the locator should answer for `items`: a dated folder of the listing
   * that no other dated folder is newer than, with no entry of the same date before it.
   */
  ghost predicate IsLatestDateFolder(items: seq<string>, name: string)
  {
    IsNewest(items, name) && ComesFirst(items, name)
  }

  lemma SortedHeadIsNewest(items: seq<string>, k: nat)
    requires k < |DatedEntries(items)|
    requires forall j :: 0 <= j < |DatedEntries(items)| ==> NotAfter(DatedEntries(items)[j].date, DatedEntries(items)[k].date)
    ensures IsNewest(items, DatedEntries(items)[k].name)
  {
    var d := DatedEntries(items);
    var h := d[k];
    DatedEntriesSound(items);
    DatedEntriesComplete(items);
    forall x | x in items && FolderDate(x).Some?
      ensures NotAfter(FolderDate(x).value, h.date)
    {
      var j :| 0 <= j < |items| && items[j] == x;
      var e := Dated(FolderDate(x).value, x);
      assert e in d;
      var m :| 0 <= m < |d| && d[m] == e;
    }
  }

  /** In a list whose entries before position `k` are all older than entry `k`, a prefix ending in an entry of that date reaches past `k`. */
  lemma PrefixEndingInEqualDate(d: seq<Dated>, dp: seq<Dated>, k: nat)
    requires dp <= d && k < |d| && dp != []
    requires forall i :: 0 <= i < k ==> Before(d[i].date, d[k].date)
    requires dp[|dp| - 1].date == d[k].date
    ensures k < |dp|
  {
    assert d[|dp| - 1] == dp[|dp| - 1];
  }

  /** An entry of the listing with the same date as the `k`-th collected one is collected at `k` or later. */
  lemma SameDateCollectedLater(items: seq<string>, k: nat, j: nat)
    requires k < |DatedEntries(items)| && j < |items|
    requires forall i :: 0 <= i < k ==> Before(DatedEntries(items)[i].date, DatedEntries(items)[k].date)
    requires FolderDate(items[j]) == Some(DatedEntries(items)[k].date)
    ensures k < |DatedEntries(items[..j + 1])|
  {
    var p := items[..j + 1];
    DatedEntriesPrefix(items, j + 1);
    assert p[j] == items[j];
    DatedEntriesEndWith(p);
    PrefixEndingInEqualDate(DatedEntries(items), DatedEntries(p), k);
  }

  /** An entry at position `k` of a list is also at `k` in any prefix that reaches past `k`, so it has the prefix's names. */
  lemma PrefixEntryNamed(d: seq<Dated>, dp: seq<Dated>, k: nat, names: seq<string>)
    requires dp <= d && k < |dp|
    requires forall m :: 0 <= m < |dp| ==> dp[m].name in names
    ensures d[k].name in names
  {
    assert dp[k] == d[k];
  }

  /** A name collected at position `k` from the first `j + 1` entries first occurs at or before `j`. */
  lemma CollectedWithin(items: seq<string>, k: nat, j: nat)
    requires j < |items| && k < |DatedEntries(items[..j + 1])| && k < |DatedEntries(items)|
    ensures DatedEntries(items)[k].name in items && FirstIndex(items, DatedEntries(items)[k].name) <= j
  {
    var p := items[..j + 1];
    DatedEntriesPrefix(items, j + 1);
    DatedEntriesNamed(p);
    PrefixEntryNamed(DatedEntries(items), DatedEntries(p), k, p);
    FirstIndexWithin(items, DatedEntries(items)[k].name, j + 1);
  }

  lemma SortedHeadComesFirst(items: seq<string>, k: nat)
    requires k < |DatedEntries(items)|
    requires forall j :: 0 <= j < k ==> Before(DatedEntries(items)[j].date, DatedEntries(items)[k].date)
    requires DatedEntries(items)[k].name in items
    requires FolderDate(DatedEntries(items)[k].name) == Some(DatedEntries(items)[k].date)
    ensures ComesFirst(items, DatedEntries(items)[k].name)
  {
    var d := DatedEntries(items);
    var h := d[k];
    var first := FirstIndex(items, h.name);
    forall j | 0 <= j < first
      ensures FolderDate(items[j]) != Some(h.date)
    {
      if FolderDate(items[j]) == Some(h.date) {
        SameDateCollectedLater(items, k, j);
        CollectedWithin(items, k, j);
      }
    }
  }

  /** Sorting the collected entries newest first and taking the first gives the latest dated folder. */
  lemma SortedHeadIsLatest(items: seq<string>)
    requires DatedEntries(items) != []
    ensures IsLatestDateFolder(items, SortNewestFirst(DatedEntries(items))[0].name)
  {
    var d := DatedEntries(items);
    var k := SortHeadIsFirstNewest(d);
    DatedEntriesSound(items);
    SortedHeadIsNewest(items, k);
    SortedHeadComesFirst(items, k);
  }

  /** The latest dated folder of a listing is unique: the locator's answer is determined by the listing. */
  lemma LatestIsUnique(items: seq<string>, a: string, b: string)
    requires IsLatestDateFolder(items, a) && IsLatestDateFolder(items, b)
    ensures a == b
  {
    var da, db := FolderDate(a).value, FolderDate(b).value;
    NotAfterIsTotalOrder(da, db, db);
    assert FolderDate(a) == FolderDate(b);
  }

  lemma TwoDayDates()
    ensures FolderDate("2024-01-01") == Some(Date(2024, 1, 1))
    ensures FolderDate("2024-01-02") == Some(Date(2024, 1, 2))
    ensures FolderDate("readme.txt") == None
  {
    FolderDateOfShape("2024-01-01");
    FolderDateOfShape("2024-01-02");
    var r := "readme.txt";
    assert !HasDateShape(r[..10]) by { assert r[..10][..4][0] == 'r'; }
  }

  /** A listing with two dated folders and a file: the newer folder is the answer. */
  lemma TwoDayListing()
    ensures IsLatestDateFolder(["2024-01-01", "2024-01-02", "readme.txt"], "2024-01-02")
    ensures forall name :: IsLatestDateFolder(["2024-01-01", "2024-01-02", "readme.txt"], name) ==> name == "2024-01-02"
  {
    var items := ["2024-01-01", "2024-01-02", "readme.txt"];
    TwoDayDates();
    assert items[0] != items[1];
    assert FirstIndex(items, items[1]) == 1;
    assert IsLatestDateFolder(items, items[1]);
    forall name | IsLatestDateFolder(items, name) ensures name == "2024-01-02" {
      LatestIsUnique(items, name, "2024-01-02");
    }
  }
}
