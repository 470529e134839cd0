/** Following cursors to the end, while the log grows, lists every entry exactly once, newest first. */
module Paging {
  import opened Tables
  import opened Audit

  // ---- sorting ---------------------------------------------------------------------------------

  ghost predicate Sorted(s: seq<Entry>) { forall i, j :: 0 <= i < j < |s| ==> Newer(s[i], s[j]) }

  ghost predicate DistinctIds(s: seq<Entry>) { forall i, j :: 0 <= i < j < |s| ==> s[i].id != s[j].id }

  lemma {:induction false} InsertHolds(e: Entry, s: seq<Entry>)
    ensures multiset(Insert(e, s)) == multiset{e} + multiset(s)
  {
    if s != [] && !Newer(e, s[0]) {
      InsertHolds(e, s[1..]);
      assert s == [s[0]] + s[1..];
    }
  }

  lemma {:induction false} InsertSorted(e: Entry, s: seq<Entry>)
    requires Sorted(s) && forall i :: 0 <= i < |s| ==> s[i].id != e.id
    ensures Sorted(Insert(e, s))
  {
    if s != [] && !Newer(e, s[0]) {
      InsertSorted(e, s[1..]);
      InsertHolds(e, s[1..]);
      var rest := Insert(e, s[1..]);
      forall j | 0 <= j < |rest| ensures Newer(s[0], rest[j]) {
        assert rest[j] in multiset(rest);
        if rest[j] != e { assert rest[j] in s[1..]; }
      }
    }
  }

  /** The listing is in strictly descending order and holds exactly what was selected. */
  lemma {:induction false} DescendingSorts(s: seq<Entry>)
    requires DistinctIds(s)
    ensures Sorted(Descending(s)) && multiset(Descending(s)) == multiset(s)
  {
    if s != [] {
      var rest := Descending(s[1..]);
      DescendingSorts(s[1..]);
      forall i | 0 <= i < |rest| ensures rest[i].id != s[0].id {
        assert rest[i] in multiset(rest);
        assert rest[i] in s[1..];
      }
      InsertSorted(s[0], rest);
      InsertHolds(s[0], rest);
      assert s == [s[0]] + s[1..];
    }
  }

  // ---- selecting from a position on ------------------------------------------------------------

  function Cut(s: seq<Entry>, at: Option<(nat, Id)>): seq<Entry> {
    if s == [] then []
    else if Before(s[0], at) then [s[0]] + Cut(s[1..], at)
    else Cut(s[1..], at)
  }

  lemma CutCons(e: Entry, s: seq<Entry>, at: Option<(nat, Id)>)
    ensures Cut([e] + s, at) == (if Before(e, at) then [e] + Cut(s, at) else Cut(s, at))
  {
    assert ([e] + s)[1..] == s;
  }

  lemma {:induction false} SelectIsCut(log: seq<Entry>, f: Filters, at: Option<(nat, Id)>)
    ensures Select(log, f, at) == Cut(Select(log, f, None), at)
  {
    if log != [] {
      SelectIsCut(log[1..], f, at);
      var rest := Select(log[1..], f, None);
      if Matches(f, log[0]) { CutCons(log[0], rest, at); }
    }
  }

  lemma {:induction false} InsertCut(e: Entry, s: seq<Entry>, at: Option<(nat, Id)>)
    requires Sorted(s)
    ensures Cut(Insert(e, s), at) == if Before(e, at) then Insert(e, Cut(s, at)) else Cut(s, at)
  {
    if s == [] || Newer(e, s[0]) {
      CutCons(e, s, at);
      if Before(e, at) { InsertFront(e, s, at); }
    } else {
      assert s == [s[0]] + s[1..];
      CutCons(s[0], s[1..], at);
      CutCons(s[0], Insert(e, s[1..]), at);
      InsertCut(e, s[1..], at);
      if Before(e, at) { InsertBehind(e, s, at); }
    }
  }

  /** What is not newer than the first of a list goes behind it, or to the rest alone. */
  lemma InsertBehind(e: Entry, s: seq<Entry>, at: Option<(nat, Id)>)
    requires s != [] && !Newer(e, s[0])
    ensures Insert(e, Cut(s, at)) == if Before(s[0], at) then [s[0]] + Insert(e, Cut(s[1..], at)) else Insert(e, Cut(s[1..], at))
  {
    if Before(s[0], at) {
      var c := Cut(s, at);
      assert c[0] == s[0] && c[1..] == Cut(s[1..], at);
    }
  }

  /** What is newer than all of a list goes to the front of any part of it. */
  lemma {:induction false} InsertFront(e: Entry, s: seq<Entry>, at: Option<(nat, Id)>)
    requires Sorted(s) && (s != [] ==> Newer(e, s[0]))
    ensures Insert(e, Cut(s, at)) == [e] + Cut(s, at)
  {
    if s == [] {
      assert [e] + [] == [e];
    } else if Before(s[0], at) {
      assert Cut(s, at)[0] == s[0];
    } else {
      InsertFront(e, s[1..], at);
    }
  }

  lemma {:induction false} DescendingCut(s: seq<Entry>, at: Option<(nat, Id)>)
    requires DistinctIds(s)
    ensures Descending(Cut(s, at)) == Cut(Descending(s), at)
  {
    if s != [] {
      DescendingCut(s[1..], at);
      DescendingSorts(s[1..]);
      InsertCut(s[0], Descending(s[1..]), at);
      assert s == [s[0]] + s[1..];
      CutCons(s[0], s[1..], at);
      if Before(s[0], at) { assert ([s[0]] + Cut(s[1..], at))[1..] == Cut(s[1..], at); }
    }
  }

  lemma {:induction false} CutNone(s: seq<Entry>, at: Option<(nat, Id)>)
    requires forall i :: 0 <= i < |s| ==> !Before(s[i], at)
    ensures Cut(s, at) == []
  {
    if s != [] { CutNone(s[1..], at); }
  }

  lemma {:induction false} CutAll(s: seq<Entry>, at: Option<(nat, Id)>)
    requires forall i :: 0 <= i < |s| ==> Before(s[i], at)
    ensures Cut(s, at) == s
  {
    if s != [] { CutAll(s[1..], at); }
  }

  lemma {:induction false} CutConcat(a: seq<Entry>, b: seq<Entry>, at: Option<(nat, Id)>)
    ensures Cut(a + b, at) == Cut(a, at) + Cut(b, at)
  {
    if a == [] {
      assert a + b == b;
    } else {
      assert (a + b)[1..] == a[1..] + b;
      CutConcat(a[1..], b, at);
    }
  }

  lemma {:induction false} SelectConcat(a: seq<Entry>, b: seq<Entry>, f: Filters)
    ensures Select(a + b, f, None) == Select(a, f, None) + Select(b, f, None)
  {
    if a == [] {
      assert a + b == b;
    } else {
      assert (a + b)[1..] == a[1..] + b;
      SelectConcat(a[1..], b, f);
    }
  }

  lemma {:induction false} SelectWithin(log: seq<Entry>, f: Filters)
    requires DistinctIds(log)
    ensures DistinctIds(Select(log, f, None))
    ensures forall e :: e in Select(log, f, None) <==> e in log && Matches(f, e)
  {
    if log != [] {
      SelectWithin(log[1..], f);
      assert log == [log[0]] + log[1..];
      var rest := Select(log[1..], f, None);
      forall i | 0 <= i < |rest| ensures rest[i].id != log[0].id {
        assert rest[i] in log[1..];
      }
    }
  }

  // ---- one page of a growing log ----------------------------------------------------------------

  function PositionAfter(e: Entry): Option<(nat, Id)> { Some((e.ts / 1000 * 1000, e.id)) }

  /** The position of a row is behind that row and all before it. */
  lemma CutPrefix(full: seq<Entry>, m: nat)
    requires Sorted(full) && 0 < m <= |full|
    ensures Cut(full, PositionAfter(full[m - 1])) == Cut(full[m..], PositionAfter(full[m - 1]))
  {
    var at := PositionAfter(full[m - 1]);
    var a, b := full[..m], full[m..];
    forall i | 0 <= i < |a| ensures !Before(a[i], at) { if i < m - 1 { assert Newer(full[i], full[m - 1]); } }
    assert full == a + b;
    CutConcat(a, b, at);
    CutNone(a, at);
    assert [] + Cut(b, at) == Cut(b, at);
  }

  ghost predicate AllBefore(s: seq<Entry>, at: Option<(nat, Id)>) { forall i :: 0 <= i < |s| ==> Before(s[i], at) }

  /** Nothing is lost behind the position of a row, rounded down to its millisecond, exactly when every
      later row of the listing is before it. */
  lemma CutListing(full: seq<Entry>, m: nat)
    requires Sorted(full) && 0 < m <= |full|
    ensures var at := PositionAfter(full[m - 1]); Cut(full, at) == full[m..] <==> AllBefore(full[m..], at)
  {
    var at := PositionAfter(full[m - 1]);
    CutPrefix(full, m);
    if AllBefore(full[m..], at) { CutAll(full[m..], at); } else { CutProper(full[m..], at); }
  }

  lemma {:induction false} CutProper(s: seq<Entry>, at: Option<(nat, Id)>)
    requires exists i :: 0 <= i < |s| && !Before(s[i], at)
    ensures |Cut(s, at)| < |s|
  {
    CutShorter(s[1..], at);
    if Before(s[0], at) { CutProper(s[1..], at); }
  }

  lemma {:induction false} CutShorter(s: seq<Entry>, at: Option<(nat, Id)>)
    ensures |Cut(s, at)| <= |s|
  {
    if s != [] { CutShorter(s[1..], at); }
  }

  /** Rows appended since are not before the position. */
  ghost predicate Grown(log: seq<Entry>, later: seq<Entry>, f: Filters, at: Option<(nat, Id)>) {
    && log <= later && DistinctIds(later)
    && forall i :: |log| <= i < |later| && Matches(f, later[i]) ==> !Before(later[i], at)
  }

  /** The appended rows do not appear behind the position. */
  lemma ExtraUnseen(extra: seq<Entry>, f: Filters, at: Option<(nat, Id)>)
    requires DistinctIds(extra) && forall i :: 0 <= i < |extra| && Matches(f, extra[i]) ==> !Before(extra[i], at)
    ensures Cut(Select(extra, f, None), at) == []
  {
    var b := Select(extra, f, None);
    SelectWithin(extra, f);
    forall i | 0 <= i < |b| ensures !Before(b[i], at) {
      assert b[i] in extra;
    }
    CutNone(b, at);
  }

  /** From a position on, a grown log shows what the original listing shows. */
  lemma GrownSelect(log: seq<Entry>, later: seq<Entry>, f: Filters, at: Option<(nat, Id)>)
    requires Grown(log, later, f, at) && DistinctIds(log)
    ensures Descending(Select(later, f, at)) == Cut(Listing(log, f), at)
  {
    var extra := later[|log|..];
    assert later == log + extra;
    var a, b := Select(log, f, None), Select(extra, f, None);
    SelectIsCut(later, f, at);
    SelectConcat(log, extra, f);
    CutConcat(a, b, at);
    assert DistinctIds(extra) by {
      forall i, j | 0 <= i < j < |extra| ensures extra[i].id != extra[j].id {
        assert later[|log| + i].id != later[|log| + j].id;
      }
    }
    forall i | 0 <= i < |extra| && Matches(f, extra[i]) ensures !Before(extra[i], at) { assert later[|log| + i] == extra[i]; }
    ExtraUnseen(extra, f, at);
    assert Cut(a, at) + [] == Cut(a, at);
    SelectWithin(log, f);
    DescendingCut(a, at);
  }

  // ---- following the cursors -------------------------------------------------------------------

  /** The k-th request, and its page; `None` when the query fails. */
  type Fetch = (nat, Option<string>) -> Option<Page>

  /** Requests against a log that is `logs(k)` at the k-th of them. */
  function Against(fmt: Format, logs: nat -> seq<Entry>, f: Filters): Fetch {
    (k: nat, cursor: Option<string>) => ListPage(fmt, logs(k), f, cursor)
  }

  /** The entries of at most `n` pages and the cursor after them. */
  function Follow(fetch: Fetch, k: nat, cursor: Option<string>, n: nat): Option<(seq<Entry>, Option<string>)>
    decreases n
  {
    if n == 0 then Some(([], cursor))
    else
      var page := fetch(k, cursor);
      if page.None? then None
      else if page.value.nextCursor.None? then Some((page.value.entries, None))
      else
        var more := Follow(fetch, k + 1, page.value.nextCursor, n - 1);
        if more.None? then None else Some((page.value.entries + more.value.0, more.value.1))
  }

  /** Timestamps of the rows the listing shows are whole milliseconds. */
  ghost predicate WholeMilliseconds(s: seq<Entry>) { forall i :: 0 <= i < |s| ==> s[i].ts % 1000 == 0 }

  /** The log as it grows: every row appended after the first fetch that matches is newer than the last
      row of the first page. */
  ghost predicate Growing(logs: nat -> seq<Entry>, f: Filters) {
    var full := Listing(logs(0), f);
    forall k :: logs(0) <= logs(k) && DistinctIds(logs(k)) &&
      (|full| > PageSize(f) ==> forall i :: |logs(0)| <= i < |logs(k)| && Matches(f, logs(k)[i]) ==> Newer(logs(k)[i], full[PageSize(f) - 1]))
  }

  function Least(a: nat, b: nat): nat { if a < b then a else b }

  /** A later row that the cursor behind `last` passes over: of the same millisecond, but not behind its
      beginning in the order. */
  predicate Skipped(last: Entry, e: Entry) { e.ts / 1000 == last.ts / 1000 && (e.ts % 1000 > 0 || e.id >= last.id) }

  /** No row after the m-th is passed over when a page ends there. */
  ghost predicate CleanCut(full: seq<Entry>, m: nat)
    requires 0 < m <= |full|
  {
    forall i :: m <= i < |full| ==> !Skipped(full[m - 1], full[i])
  }

  lemma SkippedIff(last: Entry, e: Entry)
    requires Newer(last, e)
    ensures Skipped(last, e) <==> !Before(e, PositionAfter(last))
  {
  }

  lemma CleanCutIff(full: seq<Entry>, m: nat)
    requires Sorted(full) && 0 < m <= |full|
    ensures Cut(full, PositionAfter(full[m - 1])) == full[m..] <==> CleanCut(full, m)
  {
    var rest, last := full[m..], full[m - 1];
    forall i | 0 <= i < |rest| ensures Before(rest[i], PositionAfter(last)) <==> !Skipped(last, full[m + i]) { SkippedIff(last, rest[i]); }
    assert CleanCut(full, m) <==> AllBefore(rest, PositionAfter(last)) by {
      if AllBefore(rest, PositionAfter(last)) {
        forall i | m <= i < |full| ensures !Skipped(last, full[i]) { assert rest[i - m] == full[i]; }
      }
    }
    CutListing(full, m);
  }

  lemma WholeIsClean(full: seq<Entry>, m: nat)
    requires Sorted(full) && WholeMilliseconds(full) && 0 < m <= |full|
    ensures CleanCut(full, m)
  {
    forall i | m <= i < |full| ensures !Skipped(full[m - 1], full[i]) { assert Newer(full[m - 1], full[i]); }
  }

  /** Rows `m` to `end` of a listing and the cursor behind them. */
  function Stretch(fmt: Format, full: seq<Entry>, m: nat, end: nat): (seq<Entry>, Option<string>)
    requires 0 <= m <= end <= |full|
    requires end > 0 || |full| == 0
  {
    (full[m..end], if end < |full| then Some(EncodeCursor(fmt, full[end - 1])) else None)
  }

  lemma ListingSorted(logs: nat -> seq<Entry>, f: Filters)
    requires Growing(logs, f)
    ensures DistinctIds(logs(0)) && Sorted(Listing(logs(0), f))
  {
    assert logs(0) <= logs(0) && DistinctIds(logs(0));
    SelectWithin(logs(0), f);
    DescendingSorts(Select(logs(0), f, None));
  }

  lemma NextRows(logs: nat -> seq<Entry>, f: Filters, k: nat, m: nat)
    requires Growing(logs, f)
    requires var full := Listing(logs(0), f); PageSize(f) <= m < |full| && CleanCut(full, m)
    ensures var full := Listing(logs(0), f);
            Descending(Select(logs(k), f, PositionAfter(full[m - 1]))) == full[m..]
  {
    var full, size := Listing(logs(0), f), PageSize(f);
    ListingSorted(logs, f);
    var last := full[m - 1];
    var at := PositionAfter(last);
    forall i | |logs(0)| <= i < |logs(k)| && Matches(f, logs(k)[i]) ensures !Before(logs(k)[i], at) {
      assert Newer(logs(k)[i], full[size - 1]);
      if size < m { assert Newer(full[size - 1], last); }
    }
    GrownSelect(logs(0), logs(k), f, at);
    CleanCutIff(full, m);
  }

  function StretchPage(fmt: Format, full: seq<Entry>, m: nat, size: nat): Option<Page>
    requires 0 < size && m < |full|
  {
    var (rows, next) := Stretch(fmt, full, m, Least(m + size, |full|));
    Some(Page(rows, next))
  }

  lemma RestAsPage(fmt: Format, full: seq<Entry>, m: nat, size: nat)
    requires 0 < size && m < |full|
    ensures StretchPage(fmt, full, m, size) == Some(PageOf(fmt, full[m..], size))
  {
    if m + size < |full| { assert full[m..][..size] == full[m..m + size]; } else { assert full[m..] == full[m..|full|]; }
  }

  lemma PageAt(fmt: Format, log: seq<Entry>, f: Filters, e: Entry)
    requires Sound(fmt)
    ensures ListPage(fmt, log, f, Some(EncodeCursor(fmt, e))) ==
            Some(PageOf(fmt, Descending(Select(log, f, PositionAfter(e))), PageSize(f)))
  {
    CursorRoundTrip(fmt, e);
  }

  /** The page after the m-th row. */
  lemma NextPage(fmt: Format, logs: nat -> seq<Entry>, f: Filters, k: nat, m: nat)
    requires Sound(fmt) && Growing(logs, f)
    requires var full := Listing(logs(0), f); PageSize(f) <= m < |full| && CleanCut(full, m)
    ensures var full := Listing(logs(0), f);
            ListPage(fmt, logs(k), f, Some(EncodeCursor(fmt, full[m - 1]))) == StretchPage(fmt, full, m, PageSize(f))
  {
    var full := Listing(logs(0), f);
    PageAt(fmt, logs(k), f, full[m - 1]);
    NextRows(logs, f, k, m);
    RestAsPage(fmt, full, m, PageSize(f));
  }

  /** Where `n` pages behind row `m` end. */
  function EndOf(m: nat, n: nat, size: nat, len: nat): (r: nat)
    ensures Least(m, len) <= r <= len && (n > 0 ==> Least(m + size, len) <= r)
    decreases n
  {
    if n == 0 then Least(m, len) else EndOf(m + size, n - 1, size, len)
  }

  lemma {:induction false} EndOfIs(m: nat, n: nat, size: nat, len: nat)
    ensures EndOf(m, n, size, len) == Least(m + n * size, len)
    decreases n
  {
    if n > 0 {
      EndOfIs(m + size, n - 1, size, len);
      assert n * size == (n - 1) * size + size;
    }
  }

  lemma {:induction false} EndOfPast(m: nat, n: nat, size: nat, len: nat)
    requires m >= len
    ensures EndOf(m, n, size, len) == len
    decreases n
  {
    if n > 0 { EndOfPast(m + size, n - 1, size, len); }
  }

  lemma Joined(fmt: Format, full: seq<Entry>, m: nat, i: nat, end: nat)
    requires m <= i <= end <= |full| && 0 < i
    ensures Stretch(fmt, full, m, end).0 == Stretch(fmt, full, m, i).0 + Stretch(fmt, full, i, end).0
    ensures Stretch(fmt, full, m, end).1 == Stretch(fmt, full, i, end).1
  {
  }

  /** Behind every row from the first page's last on, the next stretch of the listing is the next page. */
  ghost predicate Paged(fetch: Fetch, fmt: Format, size: nat, full: seq<Entry>)
    requires 0 < size
  {
    forall k: nat, m: nat :: size <= m < |full| ==> NextIs(fetch, fmt, size, full, k, m)
  }

  ghost predicate NextIs(fetch: Fetch, fmt: Format, size: nat, full: seq<Entry>, k: nat, m: nat)
    requires 0 < size && 0 < m < |full|
  {
    fetch(k, Some(EncodeCursor(fmt, full[m - 1]))) == StretchPage(fmt, full, m, size)
  }

  lemma {:induction false} FollowFrom(fetch: Fetch, fmt: Format, size: nat, full: seq<Entry>, k: nat, m: nat, n: nat)
    requires 0 < size && Paged(fetch, fmt, size, full) && size <= m < |full|
    ensures Follow(fetch, k, Some(EncodeCursor(fmt, full[m - 1])), n) == Some(Stretch(fmt, full, m, EndOf(m, n, size, |full|)))
    decreases n
  {
    hide EncodeCursor;
    assert NextIs(fetch, fmt, size, full, k, m);
    if n == 0 {
      assert full[m..m] == [];
    } else if m + size < |full| {
      FollowFrom(fetch, fmt, size, full, k + 1, m + size, n - 1);
      Joined(fmt, full, m, m + size, EndOf(m, n, size, |full|));
    } else {
      EndOfPast(m + size, n - 1, size, |full|);
    }
  }

  lemma FollowAll(fetch: Fetch, fmt: Format, size: nat, full: seq<Entry>, n: nat)
    requires 0 < size && Paged(fetch, fmt, size, full) && n > 0 && full != [] && fetch(0, None) == StretchPage(fmt, full, 0, size)
    ensures Follow(fetch, 0, None, n) == Some(Stretch(fmt, full, 0, EndOf(0, n, size, |full|)))
  {
    if |full| > size {
      FollowFrom(fetch, fmt, size, full, 1, size, n - 1);
      Joined(fmt, full, 0, size, EndOf(0, n, size, |full|));
    } else {
      EndOfPast(size, n - 1, size, |full|);
    }
  }

  lemma FollowListed(fetch: Fetch, fmt: Format, size: nat, full: seq<Entry>, n: nat)
    requires 0 < size && Paged(fetch, fmt, size, full) && n > 0 && full != [] && fetch(0, None) == StretchPage(fmt, full, 0, size)
    ensures var end := Least(n * size, |full|);
            end > 0 && Follow(fetch, 0, None, n) ==
            Some((full[..end], if end < |full| then Some(EncodeCursor(fmt, full[end - 1])) else None))
  {
    FollowAll(fetch, fmt, size, full, n);
    EndOfIs(0, n, size, |full|);
    var end := EndOf(0, n, size, |full|);
    assert full[0..end] == full[..end];
  }

  lemma GrowingIsPaged(fmt: Format, logs: nat -> seq<Entry>, f: Filters)
    requires Sound(fmt) && Growing(logs, f) && WholeMilliseconds(Listing(logs(0), f))
    ensures Paged(Against(fmt, logs, f), fmt, PageSize(f), Listing(logs(0), f))
  {
    var full := Listing(logs(0), f);
    forall k: nat, m: nat | PageSize(f) <= m < |full|
      ensures NextIs(Against(fmt, logs, f), fmt, PageSize(f), full, k, m)
    {
      ListingSorted(logs, f);
      WholeIsClean(full, m);
      NextPage(fmt, logs, f, k, m);
    }
  }

  lemma FirstPage(fmt: Format, logs: nat -> seq<Entry>, f: Filters)
    ensures var full := Listing(logs(0), f);
            Against(fmt, logs, f)(0, None) ==
            (if full == [] then Some(Page([], None)) else StretchPage(fmt, full, 0, PageSize(f)))
  {
    var full := Listing(logs(0), f);
    if full != [] {
      RestAsPage(fmt, full, 0, PageSize(f));
      assert full[0..] == full;
    }
  }

  /** Pages refine the full listing: n pages hold its first n times the page size rows, in order and
      once each, and the cursor runs out exactly when nothing is left. Rows appended meanwhile, newer than
      the first page, do not disturb it. */
  lemma PagesRefineListing(fmt: Format, logs: nat -> seq<Entry>, f: Filters, n: nat)
    requires Sound(fmt) && Growing(logs, f) && WholeMilliseconds(Listing(logs(0), f)) && n > 0
    ensures var full := Listing(logs(0), f);
            var end := Least(n * PageSize(f), |full|);
            Follow(Against(fmt, logs, f), 0, None, n) ==
            Some((full[..end], if end < |full| then Some(EncodeCursor(fmt, full[end - 1])) else None))
  {
    var full := Listing(logs(0), f);
    FirstPage(fmt, logs, f);
    if full != [] {
      GrowingIsPaged(fmt, logs, f);
      FollowListed(Against(fmt, logs, f), fmt, PageSize(f), full, n);
    }
  }

  /** So following the cursors to the end yields each matching entry exactly once, newest first. */
  lemma EachExactlyOnce(fmt: Format, logs: nat -> seq<Entry>, f: Filters, n: nat)
    requires Sound(fmt) && Growing(logs, f) && WholeMilliseconds(Listing(logs(0), f)) && n > 0
    requires Follow(Against(fmt, logs, f), 0, None, n).Some? && Follow(Against(fmt, logs, f), 0, None, n).value.1.None?
    ensures var all := Follow(Against(fmt, logs, f), 0, None, n).value.0;
            && (forall i, j :: 0 <= i < j < |all| ==> all[i].ts > all[j].ts || (all[i].ts == all[j].ts && all[i].id > all[j].id))
            && (forall e :: e in all <==>
                  && e in logs(0)
                  && (f.from.Some? ==> f.from.value <= e.ts) && (f.to.Some? ==> e.ts <= f.to.value)
                  && (f.securityEvent ==> e.securityEvent)
                  && (f.actor.None? || f.actor == Some("") || f.actor == Some(e.actor)))
            && (forall e :: multiset(all)[e] <= 1)
  {
    PagesRefineListing(fmt, logs, f, n);
    var full := Listing(logs(0), f);
    assert full[..|full|] == full;
    assert logs(0) <= logs(0) && DistinctIds(logs(0));
    SelectWithin(logs(0), f);
    DescendingSorts(Select(logs(0), f, None));
    forall e ensures e in full <==> e in logs(0) && Matches(f, e) { assert e in full <==> e in multiset(full); }
    forall e ensures multiset(full)[e] <= 1 { SortedOnce(full, e); }
  }

  lemma {:induction false} SortedOnce(s: seq<Entry>, e: Entry)
    requires Sorted(s)
    ensures multiset(s)[e] <= 1
  {
    if s != [] {
      SortedOnce(s[1..], e);
      assert s == [s[0]] + s[1..];
      if e in s[1..] { var i :| 0 <= i < |s[1..]| && s[1..][i] == e; assert Newer(s[0], s[i + 1]); }
    }
  }

  // ---- where the cursor loses rows ---------------------------------------------------------------

  /** Whatever the fractions of a millisecond, the page after the m-th row goes on with the rest of the
      listing exactly when no later row is passed over. */
  lemma NextPageIff(fmt: Format, log: seq<Entry>, f: Filters, m: nat)
    requires Sound(fmt) && DistinctIds(log) && 0 < m <= |Listing(log, f)|
    ensures var full := Listing(log, f);
            Descending(Select(log, f, Bound(PositionOf(fmt, Some(EncodeCursor(fmt, full[m - 1])))))) == full[m..]
            <==> CleanCut(full, m)
  {
    var full := Listing(log, f);
    SelectWithin(log, f);
    DescendingSorts(Select(log, f, None));
    CursorRoundTrip(fmt, full[m - 1]);
    GrownSelect(log, log, f, PositionAfter(full[m - 1]));
    CleanCutIff(full, m);
  }

  lemma {:induction false} DescendingIn(s: seq<Entry>)
    ensures multiset(Descending(s)) == multiset(s)
  {
    if s != [] {
      DescendingIn(s[1..]);
      InsertHolds(s[0], Descending(s[1..]));
      assert s == [s[0]] + s[1..];
    }
  }

  lemma {:induction false} SelectBefore(log: seq<Entry>, f: Filters, at: Option<(nat, Id)>)
    ensures AllBefore(Select(log, f, at), at)
  {
    if log != [] { SelectBefore(log[1..], f, at); }
  }

  lemma ListedBefore(log: seq<Entry>, f: Filters, at: Option<(nat, Id)>)
    ensures AllBefore(Descending(Select(log, f, at)), at)
  {
    var s := Select(log, f, at);
    var d := Descending(s);
    DescendingIn(s);
    SelectBefore(log, f, at);
    forall i | 0 <= i < |d| ensures Before(d[i], at) {
      assert d[i] in multiset(d);
      var j :| 0 <= j < |s| && s[j] == d[i];
    }
  }

  /** Positions only move on. */
  lemma FurtherBefore(x: Entry, q: Entry, e: Entry)
    requires Before(x, PositionAfter(q)) && Before(q, PositionAfter(e))
    ensures Before(x, PositionAfter(e))
  {
  }

  lemma FetchAt(fmt: Format, logs: nat -> seq<Entry>, f: Filters, k: nat, e: Entry)
    requires Sound(fmt)
    ensures Against(fmt, logs, f)(k, Some(EncodeCursor(fmt, e))) ==
            Some(PageOf(fmt, Descending(Select(logs(k), f, PositionAfter(e))), PageSize(f)))
  {
    PageAt(fmt, logs(k), f, e);
  }

  lemma PagesBefore(all: seq<Entry>, size: nat, more: seq<Entry>, e: Entry)
    requires AllBefore(all, PositionAfter(e)) && 0 < size < |all| && AllBefore(more, PositionAfter(all[size - 1]))
    ensures AllBefore(all[..size] + more, PositionAfter(e))
  {
    var rows := all[..size] + more;
    forall i | 0 <= i < |rows| ensures Before(rows[i], PositionAfter(e)) {
      if i >= size {
        assert rows[i] == more[i - size];
        FurtherBefore(rows[i], all[size - 1], e);
      }
    }
  }

  /** Whatever follows a cursor lies before its position, so a row passed over once never comes up again. */
  lemma {:induction false} FollowedBefore(fmt: Format, logs: nat -> seq<Entry>, f: Filters, k: nat, e: Entry, n: nat)
    requires Sound(fmt)
    ensures var r := Follow(Against(fmt, logs, f), k, Some(EncodeCursor(fmt, e)), n);
            r.Some? && AllBefore(r.value.0, PositionAfter(e))
    decreases n
  {
    hide Against, ListPage, EncodeCursor, Descending, Select, PageSize;
    if n > 0 {
      var all, size := Descending(Select(logs(k), f, PositionAfter(e))), PageSize(f);
      FetchAt(fmt, logs, f, k, e);
      ListedBefore(logs(k), f, PositionAfter(e));
      if |all| > size {
        FollowedBefore(fmt, logs, f, k + 1, all[size - 1], n - 1);
        PagesBefore(all, size, Follow(Against(fmt, logs, f), k + 1, Some(EncodeCursor(fmt, all[size - 1])), n - 1).value.0, e);
      }
    }
  }

  /** No page from the m-th row on ends where a row is passed over. */
  ghost predicate CutsClean(full: seq<Entry>, m: nat, size: nat)
    requires 0 < size && 0 < m
    decreases |full| - m
  {
    m >= |full| || (CleanCut(full, m) && CutsClean(full, m + size, size))
  }

  ghost predicate Misses(rows: seq<Entry>, full: seq<Entry>, m: nat) {
    exists i :: m <= i < |full| && full[i] !in rows
  }

  lemma UncleanMisses(full: seq<Entry>, m: nat, rows: seq<Entry>)
    requires Sorted(full) && 0 < m < |full| && !CleanCut(full, m) && AllBefore(rows, PositionAfter(full[m - 1]))
    ensures Misses(rows, full, m)
  {
    var i :| m <= i < |full| && Skipped(full[m - 1], full[i]);
    assert Newer(full[m - 1], full[i]);
    SkippedIff(full[m - 1], full[i]);
  }

  lemma MissesStay(full: seq<Entry>, m: nat, i: nat, more: seq<Entry>, rows: seq<Entry>)
    requires Sorted(full) && m <= i <= |full| && Misses(more, full, i) && rows == full[m..i] + more
    ensures Misses(rows, full, m)
  {
    var j :| i <= j < |full| && full[j] !in more;
    forall l | m <= l < i ensures full[l] != full[j] { assert Newer(full[l], full[j]); }
    assert full[j] !in rows;
  }

  lemma CutsStep(full: seq<Entry>, m: nat, size: nat)
    requires 0 < size && 0 < m < |full|
    ensures CutsClean(full, m, size) <==> CleanCut(full, m) && CutsClean(full, m + size, size)
  {
  }

  lemma NextFetch(fmt: Format, logs: nat -> seq<Entry>, f: Filters, k: nat, m: nat)
    requires Sound(fmt) && Growing(logs, f)
    requires var full := Listing(logs(0), f); PageSize(f) <= m < |full| && CleanCut(full, m)
    ensures var full := Listing(logs(0), f);
            Against(fmt, logs, f)(k, Some(EncodeCursor(fmt, full[m - 1]))) == StretchPage(fmt, full, m, PageSize(f))
  {
    NextPage(fmt, logs, f, k, m);
  }

  lemma {:induction false} FollowCleanIff(fmt: Format, logs: nat -> seq<Entry>, f: Filters, full: seq<Entry>, k: nat, m: nat, n: nat)
    requires Sound(fmt) && Growing(logs, f) && full == Listing(logs(0), f) && Sorted(full)
    requires PageSize(f) <= m < |full| && EndOf(m, n, PageSize(f), |full|) == |full|
    ensures var r := Follow(Against(fmt, logs, f), k, Some(EncodeCursor(fmt, full[m - 1])), n);
            r.Some? && (if CutsClean(full, m, PageSize(f)) then r.value.0 == full[m..] else Misses(r.value.0, full, m))
    decreases n
  {
    hide Against, ListPage, EncodeCursor, Descending, Select, PageSize, Listing, Growing, CleanCut, Misses, Sorted;
    var size := PageSize(f);
    var fetch := Against(fmt, logs, f);
    CutsStep(full, m, size);
    if !CleanCut(full, m) {
      FollowedBefore(fmt, logs, f, k, full[m - 1], n);
      UncleanMisses(full, m, Follow(fetch, k, Some(EncodeCursor(fmt, full[m - 1])), n).value.0);
    } else {
      NextFetch(fmt, logs, f, k, m);
      if m + size < |full| {
        FollowCleanIff(fmt, logs, f, full, k + 1, m + size, n - 1);
        var more := Follow(fetch, k + 1, Some(EncodeCursor(fmt, full[m + size - 1])), n - 1).value.0;
        var rows := Follow(fetch, k, Some(EncodeCursor(fmt, full[m - 1])), n).value.0;
        assert rows == full[m..m + size] + more;
        if CutsClean(full, m + size, size) {
          assert full[m..m + size] + full[m + size..] == full[m..];
        } else {
          MissesStay(full, m, m + size, more, rows);
        }
      } else {
        assert full[m..|full|] == full[m..];
      }
    }
  }

  /** Whatever the fractions of a millisecond: with enough requests, following the cursors yields the whole
      listing when no page ends where a row is passed over, and otherwise misses a row for good. */
  lemma FollowingCompleteIff(fmt: Format, logs: nat -> seq<Entry>, f: Filters, n: nat)
    requires Sound(fmt) && Growing(logs, f) && n > 0 && |Listing(logs(0), f)| <= n * PageSize(f)
    ensures var full := Listing(logs(0), f);
            var r := Follow(Against(fmt, logs, f), 0, None, n);
            r.Some? && (if CutsClean(full, PageSize(f), PageSize(f)) then r.value.0 == full else Misses(r.value.0, full, 0))
  {
    hide Against, ListPage, EncodeCursor, Descending, Select, PageSize, Listing, Growing, CutsClean, Misses, Sorted, Sound;
    var full, size := Listing(logs(0), f), PageSize(f);
    FirstPage(fmt, logs, f);
    ListingSorted(logs, f);
    if |full| > size {
      EndOfIs(0, n, size, |full|);
      FollowCleanIff(fmt, logs, f, full, 1, size, n - 1);
      var more := Follow(Against(fmt, logs, f), 1, Some(EncodeCursor(fmt, full[size - 1])), n - 1).value.0;
      if CutsClean(full, size, size) {
        assert full[0..size] + full[size..] == full;
      } else {
        MissesStay(full, 0, size, more, Follow(Against(fmt, logs, f), 0, None, n).value.0);
      }
    } else {
      ShortListing(full, size);
      if full != [] { assert full[0..|full|] == full; }
    }
  }

  lemma ShortListing(full: seq<Entry>, size: nat)
    requires 0 < size && |full| <= size
    ensures CutsClean(full, size, size)
  {
  }

  /** Two entries of one millisecond: with a page size of one, the older one is never listed. */
  lemma SameMillisecondLost(fmt: Format, id: Id, ts: nat)
    requires Sound(fmt) && ts % 1000 == 1
    ensures var a, b := Entry(id, "", false, ts + 1), Entry(id + 1, "", false, ts);
            var f := Filters(None, None, false, None, Some(1));
            && Listing([a, b], f) == [a, b]
            && ListPage(fmt, [a, b], f, None) == Some(Page([a], Some(EncodeCursor(fmt, a))))
            && ListPage(fmt, [a, b], f, Some(EncodeCursor(fmt, a))) == Some(Page([], None))
  {
    var a, b := Entry(id, "", false, ts + 1), Entry(id + 1, "", false, ts);
    var f := Filters(None, None, false, None, Some(1));
    CursorRoundTrip(fmt, a);
    assert [a, b][1..] == [b] && [b][1..] == [];
    assert Select([b], f, None) == [b] && Select([a, b], f, None) == [a, b];
    assert Descending([b]) == [b];
    assert Newer(a, b) && Descending([a, b]) == [a] + [b];
    assert Select([b], f, PositionAfter(a)) == [] && Select([a, b], f, PositionAfter(a)) == [];
  }
}
