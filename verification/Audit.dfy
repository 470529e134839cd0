/** Reading the audit log page by page: filters, keyset cursor, limit. */
module Audit {
  import opened Tables
  import Base64Url
  import Text

  // Times are microseconds, as stored; the cursor carries whole milliseconds.
  datatype Entry = Entry(id: Id, actor: string, securityEvent: bool, ts: nat)

  datatype Filters = Filters(from: Option<nat>, to: Option<nat>, securityEvent: bool, actor: Option<string>, limit: Option<int>)

  datatype Page = Page(entries: seq<Entry>, nextCursor: Option<string>)

  // How a time in milliseconds and an id are written, how the database reads them, and what text the
  // runtime makes of a base64url string, whether it is one or not.
  datatype Format = Format(iso: nat -> string, readIso: string -> Option<nat>, uuid: Id -> string, readUuid: string -> Option<Id>,
                           unwrap: string -> string)

  const DEFAULT_LIMIT: int := 50
  const MAX_LIMIT: int := 200

  /** What was asked for, at least one and at most two hundred; fifty if nothing was. */
  function PageSize(f: Filters): (r: nat)
    ensures 1 <= r <= 200
    ensures f.limit.None? ==> r == 50
    ensures f.limit.Some? && f.limit.value < r ==> r == 1
    ensures f.limit.Some? && f.limit.value > r ==> r == 200
  {
    var wanted := if f.limit.Some? then f.limit.value else DEFAULT_LIMIT;
    if wanted < 1 then 1 else if wanted > MAX_LIMIT then MAX_LIMIT else wanted
  }

  // ---- order and filters -----------------------------------------------------------------------

  /** Later in (ts, id) order. */
  predicate Newer(a: Entry, b: Entry) { a.ts > b.ts || (a.ts == b.ts && a.id > b.id) }

  predicate Matches(f: Filters, e: Entry) {
    && (f.from.Some? ==> e.ts >= f.from.value)
    && (f.to.Some? ==> e.ts <= f.to.value)
    && (f.securityEvent ==> e.securityEvent)
    && (f.actor.Some? && f.actor.value != "" ==> e.actor == f.actor.value)
  }

  /** `(ts, id) < (position)`. */
  predicate Before(e: Entry, at: Option<(nat, Id)>) {
    at.Some? ==> e.ts < at.value.0 || (e.ts == at.value.0 && e.id < at.value.1)
  }

  function Select(log: seq<Entry>, f: Filters, at: Option<(nat, Id)>): seq<Entry> {
    if log == [] then []
    else if Matches(f, log[0]) && Before(log[0], at) then [log[0]] + Select(log[1..], f, at)
    else Select(log[1..], f, at)
  }

  function Insert(e: Entry, s: seq<Entry>): seq<Entry> {
    if s == [] || Newer(e, s[0]) then [e] + s else [s[0]] + Insert(e, s[1..])
  }

  /** `ORDER BY ts DESC, id DESC`. */
  function Descending(s: seq<Entry>): seq<Entry> {
    if s == [] then [] else Insert(s[0], Descending(s[1..]))
  }

  /** Everything the filters admit, newest first. */
  function Listing(log: seq<Entry>, f: Filters): seq<Entry> { Descending(Select(log, f, None)) }

  // ---- cursors ---------------------------------------------------------------------------------

  function CursorText(fmt: Format, e: Entry): string { fmt.iso(e.ts / 1000) + "|" + fmt.uuid(e.id) }

  function Wrap(text: string): string { Base64Url.Encode(Text.Encode(text)) }

  function EncodeCursor(fmt: Format, e: Entry): string { Wrap(CursorText(fmt, e)) }

  /** The pieces between bars. */
  function Split(s: string): (r: seq<string>)
    ensures r != []
  {
    if s == [] then [[]]
    else
      var rest := Split(s[1..]);
      if s[0] == '|' then [[]] + rest else [[s[0]] + rest[0]] + rest[1..]
  }

  function DecodeCursor(fmt: Format, s: string): Option<(string, string)> {
    var parts := Split(fmt.unwrap(s));
    if |parts| < 2 || parts[0] == [] || parts[1] == [] then None else Some((parts[0], parts[1]))
  }

  datatype Position = Start | At(ts: nat, id: Id) | Unreadable

  /** Where a page starts: a cursor that does not decode is ignored; one that decodes to something that
      is not a time and an id makes the query fail. */
  function PositionOf(fmt: Format, cursor: Option<string>): Position {
    if cursor.None? || cursor.value == "" || DecodeCursor(fmt, cursor.value).None? then Start
    else
      var (ts, id) := DecodeCursor(fmt, cursor.value).value;
      var t, i := fmt.readIso(ts), fmt.readUuid(id);
      if t.Some? && i.Some? then At(t.value * 1000, i.value) else Unreadable
  }

  predicate NoBar(s: string) { '|' !in s }

  /** Times and ids are written without bars, as something, and read back, and so are wrapped texts. */
  ghost predicate Sound(fmt: Format) {
    && (forall t: nat :: NoBar(fmt.iso(t)) && fmt.iso(t) != "" && fmt.readIso(fmt.iso(t)) == Some(t))
    && (forall i: Id :: NoBar(fmt.uuid(i)) && fmt.uuid(i) != "" && fmt.readUuid(fmt.uuid(i)) == Some(i))
    && (forall text: string :: fmt.unwrap(Wrap(text)) == text)
  }

  lemma {:induction false} SplitPlain(s: string)
    requires NoBar(s)
    ensures Split(s) == [s]
  {
    if s != [] {
      assert s[0] in s;
      SplitPlain(s[1..]);
      assert [s[0]] + s[1..] == s;
    }
  }

  lemma {:induction false} SplitAtBar(a: string, b: string)
    requires NoBar(a) && NoBar(b)
    ensures Split(a + "|" + b) == [a, b]
  {
    var s := a + "|" + b;
    if a == [] {
      assert s[1..] == b;
      SplitPlain(b);
    } else {
      assert s[1..] == a[1..] + "|" + b;
      SplitAtBar(a[1..], b);
      assert [a[0]] + a[1..] == a;
    }
  }

  lemma WrapIsText(text: string)
    requires text != ""
    ensures Wrap(text) != ""
  {
    assert Text.Encode(text) == Text.EncodeChar(text[0]) + Text.Encode(text[1..]);
    assert |Base64Url.ToSextets(Text.Encode(text))| > 0;
  }

  /** A decoder as a format needs it exists: base64url and then UTF-8 undo the wrapping. */
  lemma WrapRoundTrip(text: string)
    ensures Base64Url.B64UrlToBytes(Wrap(text)).Some? && Text.DecodeAll(Base64Url.B64UrlToBytes(Wrap(text)).value) == text
  {
    Base64Url.BrowserRoundTrip(Text.Encode(text));
    Text.DecodeEncoded(text);
  }

  /** A cursor reads back as its entry's position, to the millisecond below. */
  lemma CursorRoundTrip(fmt: Format, e: Entry)
    requires Sound(fmt)
    ensures PositionOf(fmt, Some(EncodeCursor(fmt, e))) == At(e.ts / 1000 * 1000, e.id)
  {
    var text := CursorText(fmt, e);
    assert NoBar(fmt.iso(e.ts / 1000)) && NoBar(fmt.uuid(e.id));
    assert text[|fmt.iso(e.ts / 1000)|] == '|';
    WrapIsText(text);
    assert fmt.unwrap(Wrap(text)) == text;
    SplitAtBar(fmt.iso(e.ts / 1000), fmt.uuid(e.id));
  }

  // ---- one page --------------------------------------------------------------------------------

  function Bound(p: Position): Option<(nat, Id)> { if p.At? then Some((p.ts, p.id)) else None }

  function Take<T>(s: seq<T>, n: nat): seq<T> { if |s| <= n then s else s[..n] }

  /** The first rows of a result, with a cursor if there are more. */
  function PageOf(fmt: Format, all: seq<Entry>, limit: nat): Page
    requires limit > 0
  {
    if |all| > limit then Page(all[..limit], Some(EncodeCursor(fmt, all[limit - 1]))) else Page(all, None)
  }

  /** `None` when the query fails. */
  function ListPage(fmt: Format, log: seq<Entry>, f: Filters, cursor: Option<string>): Option<Page> {
    var p := PositionOf(fmt, cursor);
    if p.Unreadable? then None else Some(PageOf(fmt, Descending(Select(log, f, Bound(p))), PageSize(f)))
  }

  lemma TakeMore<T>(s: seq<T>, n: nat)
    ensures |Take(s, n + 1)| > n <==> |s| > n
    ensures |s| > n ==> Take(s, n + 1)[..n] == s[..n] && Take(s, n + 1)[..n] == Take(s, n)
    ensures |s| <= n ==> Take(s, n + 1) == s
  {
  }

  datatype Clause = From(t: nat) | To(t: nat) | Security | Actor(s: string) | Older(ts: nat, id: Id)

  predicate Satisfies(e: Entry, c: Clause) {
    match c
    case From(t) => e.ts >= t
    case To(t) => e.ts <= t
    case Security => e.securityEvent
    case Actor(s) => e.actor == s
    case Older(ts, id) => Before(e, Some((ts, id)))
  }

  predicate SatisfiesAll(e: Entry, clauses: seq<Clause>) { forall i :: 0 <= i < |clauses| ==> Satisfies(e, clauses[i]) }

  function Where(log: seq<Entry>, clauses: seq<Clause>): seq<Entry> {
    if log == [] then []
    else if SatisfiesAll(log[0], clauses) then [log[0]] + Where(log[1..], clauses)
    else Where(log[1..], clauses)
  }

  lemma {:induction false} WhereIsSelect(log: seq<Entry>, clauses: seq<Clause>, f: Filters, at: Option<(nat, Id)>)
    requires forall e :: SatisfiesAll(e, clauses) <==> Matches(f, e) && Before(e, at)
    ensures Where(log, clauses) == Select(log, f, at)
  {
    if log != [] { WhereIsSelect(log[1..], clauses, f, at); }
  }

  lemma Pushed(e: Entry, clauses: seq<Clause>, c: Clause)
    ensures SatisfiesAll(e, clauses + [c]) <==> SatisfiesAll(e, clauses) && Satisfies(e, c)
  {
    var all := clauses + [c];
    if SatisfiesAll(e, all) {
      assert all[|clauses|] == c;
      forall i | 0 <= i < |clauses| ensures Satisfies(e, clauses[i]) { assert all[i] == clauses[i]; }
    }
  }

  class AuditLog {
    const fmt: Format
    var log: seq<Entry>

    constructor (fmt: Format)
      ensures this.fmt == fmt && log == []
    {
      this.fmt, log := fmt, [];
    }

    /** The log only ever grows. */
    method Append(e: Entry)
      modifies this
      ensures log == old(log) + [e]
    {
      log := log + [e];
    }

    /** Collects the conditions, fetches one row more than the page holds and cuts it off again. */
    method ListAuditEntries(f: Filters, cursor: Option<string>) returns (page: Option<Page>)
      ensures page == ListPage(fmt, log, f, cursor)
    {
      var limit := PageSize(f);
      var clauses: seq<Clause> := [];
      if f.from.Some? { clauses := Push(clauses, From(f.from.value)); }
      if f.to.Some? { clauses := Push(clauses, To(f.to.value)); }
      if f.securityEvent { clauses := Push(clauses, Security); }
      if f.actor.Some? && f.actor.value != "" { clauses := Push(clauses, Actor(f.actor.value)); }
      var p := PositionOf(fmt, cursor);
      if p.Unreadable? { return None; }
      if p.At? { clauses := Push(clauses, Older(p.ts, p.id)); }
      WhereIsSelect(log, clauses, f, Bound(p));
      var rows := Take(Descending(Where(log, clauses)), limit + 1);
      page := Some(CutPage(rows, limit, Descending(Where(log, clauses))));
    }

    function CutPage(rows: seq<Entry>, limit: nat, ghost all: seq<Entry>): (r: Page)
      requires limit > 0 && rows == Take(all, limit + 1)
      ensures r == PageOf(fmt, all, limit)
    {
      var hasMore := |rows| > limit;
      var entries := if hasMore then rows[..limit] else rows;
      TakeMore(all, limit);
      Page(entries, if hasMore then Some(EncodeCursor(fmt, entries[limit - 1])) else None)
    }
  }

  method Push(clauses: seq<Clause>, c: Clause) returns (r: seq<Clause>)
    ensures forall e :: SatisfiesAll(e, r) <==> SatisfiesAll(e, clauses) && Satisfies(e, c)
  {
    r := clauses + [c];
    forall e ensures SatisfiesAll(e, r) <==> SatisfiesAll(e, clauses) && Satisfies(e, c) { Pushed(e, clauses, c); }
  }
}
