/**
 * compare_uids_by_year.py: the uids of `INBOX` on the server that the
 * database does not hold, bucketed by the year of each message's date and
 * reported year by year in ascending order with a total.
 *
 * The server's uid set and the messages its fetch returns are inputs.
 */
module CompareUids {
  import opened Wrappers
  import opened Store
  import opened UidLists
  import opened Tally

  /** The bucket of a message without a date (compare_uids_by_year.py:43). */
  const NoDateYear: nat := 1900

  /** A fetched message: its uid and the year of its date, `None` when the date is falsy. */
  datatype FetchedMessage = FetchedMessage(uid: Uid, year: Option<nat>)

  /** The bucket key of a message (compare_uids_by_year.py:40-43). */
  function YearOf(m: FetchedMessage): (y: nat)
    ensures m.year.None? ==> y == NoDateYear
    ensures m.year.Some? ==> y == m.year.value
  {
    m.year.GetOr(NoDateYear)
  }

  /**
   * `server_uids - downloaded_uids` (compare_uids_by_year.py:60): disjoint
   * from the stored uids, within the server's, and holding every server uid
   * that is not stored.
   */
  function MissingUids(server: set<Uid>, downloaded: set<Uid>): (r: set<Uid>)
    ensures r !! downloaded
    ensures r <= server
    ensures forall u :: u in server && u !in downloaded ==> u in r
  {
    server - downloaded
  }

  /** The uids in the bucket of year `y`, in fetch order. */
  function UidsOfYear(f: seq<FetchedMessage>, y: nat): seq<Uid> {
    if f == [] then []
    else UidsOfYear(f[..|f| - 1], y) + (if YearOf(f[|f| - 1]) == y then [f[|f| - 1].uid] else [])
  }

  /**
   * A bucket holds the uid of every fetched message of its year and no
   * other uid, and its size is the number of messages of that year.
   */
  lemma {:induction false} UidsOfYearSpec(f: seq<FetchedMessage>, y: nat)
    ensures forall u :: u in UidsOfYear(f, y) <==> exists i :: 0 <= i < |f| && f[i].uid == u && YearOf(f[i]) == y
    ensures |UidsOfYear(f, y)| == Count(f, YearOf, y)
    decreases |f|
  {
    if f != [] {
      var init := f[..|f| - 1];
      UidsOfYearSpec(init, y);
      forall u ensures u in UidsOfYear(f, y) <==> exists i :: 0 <= i < |f| && f[i].uid == u && YearOf(f[i]) == y {
        if exists i :: 0 <= i < |f| && f[i].uid == u && YearOf(f[i]) == y {
          var i :| 0 <= i < |f| && f[i].uid == u && YearOf(f[i]) == y;
          if i < |init| {
            assert init[i] == f[i];
          }
        }
        if u in UidsOfYear(init, y) {
          var i :| 0 <= i < |init| && init[i].uid == u && YearOf(init[i]) == y;
          assert f[i] == init[i];
        }
      }
    }
  }

  /**
   * Every fetched message lands in exactly one bucket: with distinct uids,
   * a message's uid is in the bucket of year `y` exactly when `y` is its
   * year (1900 for a message without a date).
   */
  lemma ExactlyOneBucket(f: seq<FetchedMessage>, i: nat, y: nat)
    requires i < |f|
    requires forall j, k :: 0 <= j < k < |f| ==> f[j].uid != f[k].uid
    ensures f[i].uid in UidsOfYear(f, y) <==> y == YearOf(f[i])
  {
    UidsOfYearSpec(f, y);
  }

  /**
   * `year_map` and the order of its keys describe the messages `f`: one key
   * per year met, each holding the uids of that year in fetch order.
   */
  ghost predicate Categorized(yearMap: map<nat, seq<Uid>>, order: seq<nat>, f: seq<FetchedMessage>) {
    && yearMap.Keys == KeysOf(f, YearOf)
    && (forall y :: y in yearMap ==> yearMap[y] == UidsOfYear(f, y))
    && Distinct(order)
    && (forall y :: y in order <==> y in yearMap)
  }

  /** One pass of the loop (compare_uids_by_year.py:40-44): the message's uid is appended to the list of its year. */
  method AddMessage(yearMap: map<nat, seq<Uid>>, order: seq<nat>, ghost f: seq<FetchedMessage>, m: FetchedMessage)
    returns (yearMap': map<nat, seq<Uid>>, order': seq<nat>)
    requires Categorized(yearMap, order, f)
    ensures Categorized(yearMap', order', f + [m])
  {
    var year := YearOf(m);
    assert (f + [m])[..|f|] == f;
    KeysOfSnoc(f, m, YearOf);
    if year in yearMap {
      yearMap', order' := yearMap[year := yearMap[year] + [m.uid]], order;
    } else {
      assert UidsOfYear(f, year) == [] by {
        UidsOfYearSpec(f, year);
        CountPositive(f, YearOf, year);
      }
      yearMap', order' := yearMap[year := [m.uid]], order + [year];
    }
  }

  /**
   * `categorize_by_year` (compare_uids_by_year.py:37-45): appends each
   * fetched uid to the list of its year. `order` is the order in which the
   * `defaultdict` first met each year.
   */
  method CategorizeByYear(fetched: seq<FetchedMessage>) returns (yearMap: map<nat, seq<Uid>>, order: seq<nat>)
    ensures yearMap.Keys == KeysOf(fetched, YearOf)
    ensures forall y :: y in yearMap ==> yearMap[y] == UidsOfYear(fetched, y)
    ensures Distinct(order)
    ensures forall y :: y in order <==> y in yearMap
  {
    yearMap, order := map[], [];
    var i := 0;
    while i < |fetched|
      invariant i <= |fetched|
      invariant Categorized(yearMap, order, fetched[..i])
    {
      yearMap, order := AddMessage(yearMap, order, fetched[..i], fetched[i]);
      assert fetched[..i + 1] == fetched[..i] + [fetched[i]];
      i := i + 1;
    }
    assert fetched[..i] == fetched;
  }

  /** `sorted(year_map.keys())`: the distinct years in ascending order. */
  function SortYears(order: seq<nat>): (years: seq<nat>)
    requires Distinct(order)
    ensures Sorted(years) && Distinct(years)
    ensures forall y :: y in years <==> y in order
  {
    var r := Sort(order);
    DistinctPermutation(order, r);
    assert forall y :: y in r <==> y in order by {
      forall y ensures y in r <==> y in order {
        assert y in r <==> y in multiset(r);
        assert y in order <==> y in multiset(order);
      }
    }
    r
  }

  /**
   * The report loop (compare_uids_by_year.py:66-72): the years in ascending
   * order, each with its count, and the running `total`.
   */
  method Report(yearMap: map<nat, seq<Uid>>, order: seq<nat>) returns (years: seq<nat>, counts: seq<nat>, total: nat)
    requires Distinct(order)
    requires forall y :: y in order <==> y in yearMap
    ensures Sorted(years) && Distinct(years)
    ensures forall y :: y in years <==> y in yearMap
    ensures |counts| == |years|
    ensures forall i :: 0 <= i < |years| ==> counts[i] == |yearMap[years[i]]|
    ensures total == Sum(counts)
  {
    years := SortYears(order);
    counts, total := [], 0;
    var i := 0;
    while i < |years|
      invariant i <= |years|
      invariant forall k :: 0 <= k < |years| ==> years[k] in yearMap
      invariant |counts| == i
      invariant forall k :: 0 <= k < i ==> counts[k] == |yearMap[years[k]]|
      invariant total == Sum(counts)
    {
      var count := |yearMap[years[i]]|;
      SumSnoc(counts, count);
      counts := counts + [count];
      total := total + count;
      i := i + 1;
    }
  }

  /**
   * `main` after the connection (compare_uids_by_year.py:54-72): the missing
   * uids are the server's minus those stored for the folder; `fetched` is
   * what the fetch of the missing uids returned. The years come out in
   * ascending order and `total` is the number of messages fetched.
   */
  method Compare(db: Database, folder: Folder, serverUids: set<Uid>, fetched: seq<FetchedMessage>)
    returns (missing: set<Uid>, years: seq<nat>, counts: seq<nat>, total: nat)
    ensures missing !! db.ExistingUids(folder) && missing <= serverUids
    ensures forall u :: u in serverUids && (u, folder) !in db.downloaded ==> u in missing
    ensures Sorted(years) && Distinct(years)
    ensures forall y :: y in years <==> exists i :: 0 <= i < |fetched| && YearOf(fetched[i]) == y
    ensures |counts| == |years|
    ensures forall i :: 0 <= i < |years| ==> counts[i] == |UidsOfYear(fetched, years[i])|
    ensures total == Sum(counts) == |fetched|
  {
    missing := MissingUids(serverUids, db.ExistingUids(folder));
    var yearMap, order := CategorizeByYear(fetched);
    years, counts, total := Report(yearMap, order);
    forall i | 0 <= i < |years| ensures counts[i] == Count(fetched, YearOf, years[i]) {
      UidsOfYearSpec(fetched, years[i]);
    }
    SumOfCounts(fetched, YearOf, years, counts);
    CountsAddUp(fetched, YearOf, years);
  }
}
