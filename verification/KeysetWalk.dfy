/** Keyset pagination: the walk a client makes by following next-page cursors. */
module KeysetWalk {
  import opened Prelude
  import opened Cursor

  type Key = seq<string>

  datatype Page<T> = Page(items: seq<T>, next: Option<Token>)

  /** Trims a limit+1 query result and points the cursor at the last row kept. */
  function Build<T>(rows: seq<T>, limit: nat, key: T -> Key): Page<T>
    requires limit > 0
  {
    if |rows| <= limit then Page(rows, None)
    else Page(rows[..limit], Some(Encoded(key(rows[limit - 1]))))
  }

  /** The listing order on sort keys; a listing itself is totally ordered by it. */
  ghost predicate StrictOrder(before: (Key, Key) -> bool) {
    && (forall a :: !before(a, a))
    && (forall a, b, c :: before(a, b) && before(b, c) ==> before(a, c))
  }

  ghost predicate Listed<T>(rows: seq<T>, key: T -> Key, before: (Key, Key) -> bool, width: nat) {
    && (forall r | r in rows :: |key(r)| == width && "" !in key(r))
    && (forall i, j | 0 <= i < j < |rows| :: before(key(rows[i]), key(rows[j])))
  }

  /** The rows strictly after a key: the keyset predicate of the query. */
  function After<T>(rows: seq<T>, key: T -> Key, before: (Key, Key) -> bool, cursor: Option<Key>): seq<T> {
    if cursor.None? || rows == [] then rows
    else (if before(cursor.value, key(rows[0])) then [rows[0]] else []) + After(rows[1..], key, before, cursor)
  }

  function Take<T>(rows: seq<T>, n: nat): seq<T> {
    if |rows| <= n then rows else rows[..n]
  }

  /** One request: decode the cursor, query limit+1 rows after it, build the page. */
  function ListPage<T>(rows: seq<T>, key: T -> Key, before: (Key, Key) -> bool, width: nat, limit: nat, token: Option<Token>)
    : Result<Page<T>, CursorError>
    requires limit > 0
  {
    match token
    case None => Ok(Build(Take(rows, limit + 1), limit, key))
    case Some(t) =>
      match Decoded(t, width)
      case Err(e) => Err(e)
      case Ok(fields) => Ok(Build(Take(After(rows, key, before, Some(fields)), limit + 1), limit, key))
  }

  /** What a client holds after following cursors: the rows received, and whether the listing said it was done. */
  datatype Walked<T> = Walked(items: seq<T>, complete: bool)

  /** Request i sees the table as tables[i]; rows may come and go between requests. */
  function Walk<T>(tables: seq<seq<T>>, key: T -> Key, before: (Key, Key) -> bool, width: nat, limit: nat, token: Option<Token>)
    : Result<Walked<T>, CursorError>
    requires limit > 0
  {
    if tables == [] then Ok(Walked([], false))
    else
      match ListPage(tables[0], key, before, width, limit, token)
      case Err(e) => Err(e)
      case Ok(page) =>
        if page.next.None? then Ok(Walked(page.items, true))
        else
          match Walk(tables[1..], key, before, width, limit, page.next)
          case Err(e) => Err(e)
          case Ok(rest) => Ok(Walked(page.items + rest.items, rest.complete))
  }

  predicate Past(before: (Key, Key) -> bool, cursor: Option<Key>, k: Key) {
    cursor.None? || before(cursor.value, k)
  }

  /** The rows past a cursor are those from position k on. */
  ghost predicate CutAt<T>(rows: seq<T>, key: T -> Key, before: (Key, Key) -> bool, cursor: Option<Key>, k: nat) {
    k <= |rows| && forall i | 0 <= i < |rows| :: Past(before, cursor, key(rows[i])) <==> k <= i
  }

  lemma {:induction false} AfterIsSuffix<T>(rows: seq<T>, key: T -> Key, before: (Key, Key) -> bool, width: nat, cursor: Option<Key>)
    returns (k: nat)
    requires StrictOrder(before) && Listed(rows, key, before, width)
    ensures CutAt(rows, key, before, cursor, k)
    ensures After(rows, key, before, cursor) == rows[k..]
  {
    if cursor.None? || rows == [] {
      k := 0;
    } else {
      var k' := AfterIsSuffix(rows[1..], key, before, width, cursor);
      if before(cursor.value, key(rows[0])) {
        k := 0;
        if rows[1..] != [] {
          assert Past(before, cursor, key(rows[1..][0]));
        }
        assert k' == 0;
      } else {
        k := k' + 1;
      }
      forall i | 0 <= i < |rows| ensures Past(before, cursor, key(rows[i])) <==> k <= i {
        if i > 0 {
          assert rows[i] == rows[1..][i - 1];
        }
      }
    }
  }

  /** A cursor that Encode can carry. */
  predicate Usable(cursor: Option<Key>, width: nat) {
    cursor.Some? ==> |cursor.value| == width && "" !in cursor.value
  }

  function TokenOf(cursor: Option<Key>): Option<Token> {
    if cursor.Some? then Some(Encoded(cursor.value)) else None
  }

  lemma TakeSlice<T>(rows: seq<T>, k: nat, limit: nat)
    requires k + limit < |rows|
    ensures |Take(rows[k..], limit + 1)| == limit + 1 && Take(rows[k..], limit + 1)[..limit] == rows[k..k + limit]
  {
    assert rows[k..][..limit + 1][..limit] == rows[k..k + limit];
  }

  /** A listing is refused exactly for a token that is no cursor of its width, and then for what is wrong with the token. */
  lemma ListingRefusedExactly<T>(rows: seq<T>, key: T -> Key, before: (Key, Key) -> bool, width: nat, limit: nat, token: Token)
    requires limit > 0
    ensures ListPage(rows, key, before, width, limit, Some(token)).Err? <==>
              !exists parts, fields :: |fields| == width && IsCursor(token, parts, fields)
    ensures ListPage(rows, key, before, width, limit, Some(token)).Err? ==>
              Decoded(token, width) == Err(ListPage(rows, key, before, width, limit, Some(token)).error)
  {
    if Decoded(token, width).Ok? {
      var fields := Decoded(token, width).value;
      DecodedExactly(token, width, fields);
      var parts :| IsCursor(token, parts, fields);
    }
    if parts, fields :| |fields| == width && IsCursor(token, parts, fields) {
      DecodedExactly(token, width, fields);
    }
  }

  /** One page is the stretch [k, m) just past the cursor, and its own cursor names row m - 1. */
  lemma PageIsSlice<T>(rows: seq<T>, key: T -> Key, before: (Key, Key) -> bool, width: nat, limit: nat, cursor: Option<Key>)
    returns (k: nat, m: nat)
    requires limit > 0 && StrictOrder(before) && Listed(rows, key, before, width) && Usable(cursor, width)
    ensures CutAt(rows, key, before, cursor, k) && k <= m <= |rows|
    ensures m <= k + limit && (m < |rows| ==> m == k + limit)
    ensures ListPage(rows, key, before, width, limit, TokenOf(cursor))
         == Ok(Page(rows[k..m], if m < |rows| then Some(Encoded(key(rows[m - 1]))) else None))
  {
    if cursor.Some? {
      DecodeInvertsEncode(cursor.value, width);
    }
    k := AfterIsSuffix(rows, key, before, width, cursor);
    m := if |rows| - k <= limit then |rows| else k + limit;
    BuiltSlice(rows, key, limit, k, m);
  }

  lemma BuiltSlice<T>(rows: seq<T>, key: T -> Key, limit: nat, k: nat, m: nat)
    requires limit > 0 && k <= |rows| && m == if |rows| - k <= limit then |rows| else k + limit
    ensures Build(Take(rows[k..], limit + 1), limit, key)
         == Page(rows[k..m], if m < |rows| then Some(Encoded(key(rows[m - 1]))) else None)
  {
    if m == |rows| {
      assert rows[k..m] == rows[k..];
    } else {
      TakeSlice(rows, k, limit);
    }
  }

  /** The walk, one request at a time: the first page's slice, then whatever follows its last row. */
  function Onward<T>(page: seq<T>, rest: Result<Walked<T>, CursorError>): Result<Walked<T>, CursorError> {
    match rest
    case Err(e) => Err(e)
    case Ok(walked) => Ok(Walked(page + walked.items, walked.complete))
  }

  lemma WalkStep<T>(
    tables: seq<seq<T>>, key: T -> Key, before: (Key, Key) -> bool, width: nat, limit: nat, cursor: Option<Key>)
    returns (k: nat, m: nat)
    requires limit > 0 && tables != [] && StrictOrder(before) && Listed(tables[0], key, before, width) && Usable(cursor, width)
    ensures CutAt(tables[0], key, before, cursor, k) && k <= m <= |tables[0]|
    ensures m < |tables[0]| ==> k < m
    ensures Walk(tables, key, before, width, limit, TokenOf(cursor))
         == if m < |tables[0]|
            then Onward(tables[0][k..m], Walk(tables[1..], key, before, width, limit, TokenOf(Some(key(tables[0][m - 1])))))
            else Ok(Walked(tables[0][k..], true))
  {
    k, m := PageIsSlice(tables[0], key, before, width, limit, cursor);
    if m == |tables[0]| {
      assert tables[0][k..m] == tables[0][k..];
    }
  }

  // ---- Tables that change between requests ----

  ghost predicate Throughout<T(!new)>(tables: seq<seq<T>>, r: T) {
    forall t | t in tables :: r in t
  }

  ghost predicate Sometime<T(!new)>(tables: seq<seq<T>>, r: T) {
    exists t | t in tables :: r in t
  }

  /** What a walk from a cursor may return: existing rows past the cursor, in listing order, hence none twice. */
  ghost predicate Sound<T(!new)>(
    tables: seq<seq<T>>, key: T -> Key, before: (Key, Key) -> bool, width: nat, cursor: Option<Key>, items: seq<T>)
  {
    Listed(items, key, before, width) && forall r | r in items :: Past(before, cursor, key(r)) && Sometime(tables, r)
  }

  /** What a finished walk must have returned: every row past the cursor that was there throughout. */
  ghost predicate Complete<T(!new)>(
    tables: seq<seq<T>>, key: T -> Key, before: (Key, Key) -> bool, cursor: Option<Key>, items: seq<T>)
  {
    forall r | Throughout(tables, r) && Past(before, cursor, key(r)) :: r in items
  }

  /**
   However the table changes between requests, a walk never fails, never repeats a
   row and keeps the listing order; if it completes, it returned every row present throughout.
   */
  lemma {:induction false} WalkReturnsEachRowOnce<T(!new)>(
    tables: seq<seq<T>>, key: T -> Key, before: (Key, Key) -> bool, width: nat, limit: nat, cursor: Option<Key>)
    requires limit > 0 && StrictOrder(before) && Usable(cursor, width)
    requires forall t | t in tables :: Listed(t, key, before, width)
    ensures var walk := Walk(tables, key, before, width, limit, TokenOf(cursor));
      && walk.Ok?
      && Sound(tables, key, before, width, cursor, walk.value.items)
      && (walk.value.complete ==> Complete(tables, key, before, cursor, walk.value.items))
  {
    if tables != [] {
      var k, m := WalkStep(tables, key, before, width, limit, cursor);
      var rows := tables[0];
      if m < |rows| {
        var last := key(rows[m - 1]);
        WalkReturnsEachRowOnce(tables[1..], key, before, width, limit, Some(last));
        var rest := Walk(tables[1..], key, before, width, limit, TokenOf(Some(last))).value;
        FirstPageSound(tables, key, before, width, cursor, k, m, rest.items);
        if rest.complete {
          FirstPageComplete(tables, key, before, width, cursor, k, m, rest.items);
        }
      } else {
        LastPage(tables, key, before, width, cursor, k);
      }
    }
  }

  lemma FirstPageSound<T(!new)>(
    tables: seq<seq<T>>, key: T -> Key, before: (Key, Key) -> bool, width: nat, cursor: Option<Key>, k: nat, m: nat, rest: seq<T>)
    requires tables != [] && StrictOrder(before) && Listed(tables[0], key, before, width)
    requires CutAt(tables[0], key, before, cursor, k) && k < m <= |tables[0]|
    requires Sound(tables[1..], key, before, width, Some(key(tables[0][m - 1])), rest)
    ensures Sound(tables, key, before, width, cursor, tables[0][k..m] + rest)
  {
    PageThenRest(tables[0], key, before, width, cursor, k, m, rest);
    forall r | r in tables[0][k..m] + rest ensures Sometime(tables, r) {
      if r in rest {
        var t :| t in tables[1..] && r in t;
        assert t in tables;
      } else {
        assert tables[0] in tables;
      }
    }
  }

  lemma FirstPageComplete<T(!new)>(
    tables: seq<seq<T>>, key: T -> Key, before: (Key, Key) -> bool, width: nat, cursor: Option<Key>, k: nat, m: nat, rest: seq<T>)
    requires tables != [] && StrictOrder(before) && Listed(tables[0], key, before, width)
    requires CutAt(tables[0], key, before, cursor, k) && k < m <= |tables[0]|
    requires Complete(tables[1..], key, before, Some(key(tables[0][m - 1])), rest)
    ensures Complete(tables, key, before, cursor, tables[0][k..m] + rest)
  {
    var rows := tables[0];
    forall r | Throughout(tables, r) && Past(before, cursor, key(r)) ensures r in rows[k..m] + rest {
      assert tables[0] in tables;
      var i :| 0 <= i < |rows| && rows[i] == r;
      if i < m {
        assert rows[k..m][i - k] == r;
      } else {
        assert Throughout(tables[1..], r);
      }
    }
  }

  lemma LastPage<T(!new)>(tables: seq<seq<T>>, key: T -> Key, before: (Key, Key) -> bool, width: nat, cursor: Option<Key>, k: nat)
    requires tables != [] && Listed(tables[0], key, before, width) && CutAt(tables[0], key, before, cursor, k)
    ensures Sound(tables, key, before, width, cursor, tables[0][k..])
    ensures Complete(tables, key, before, cursor, tables[0][k..])
  {
    var rows := tables[0];
    assert tables[0] in tables;
    forall r | r in rows[k..] ensures Past(before, cursor, key(r)) {
      var i :| 0 <= i < |rows[k..]| && rows[k..][i] == r;
      assert rows[k + i] == r;
    }
    forall r | Throughout(tables, r) && Past(before, cursor, key(r)) ensures r in rows[k..] {
      var i :| 0 <= i < |rows| && rows[i] == r;
      assert rows[k..][i - k] == r;
    }
  }

  lemma PageThenRest<T>(
    rows: seq<T>, key: T -> Key, before: (Key, Key) -> bool, width: nat, cursor: Option<Key>, k: nat, m: nat, rest: seq<T>)
    requires StrictOrder(before) && Listed(rows, key, before, width) && Listed(rest, key, before, width)
    requires CutAt(rows, key, before, cursor, k) && k < m <= |rows|
    requires forall r | r in rest :: before(key(rows[m - 1]), key(r))
    ensures Listed(rows[k..m] + rest, key, before, width)
    ensures forall r | r in rows[k..m] + rest :: Past(before, cursor, key(r))
  {
    var all := rows[k..m] + rest;
    forall i, j | 0 <= i < j < |all| ensures before(key(all[i]), key(all[j])) {
      if i < m - k <= j {
        assert rest[j - (m - k)] in rest;
        assert before(key(rows[m - 1]), key(all[j]));
      }
    }
    assert Past(before, cursor, key(rows[m - 1]));
  }

  // ---- A table that holds still ----

  /** One request more than there are rows is always enough, and the walk returns exactly the table. */
  lemma WalkReturnsTheTable<T>(
    rows: seq<T>, tables: seq<seq<T>>, key: T -> Key, before: (Key, Key) -> bool, width: nat, limit: nat)
    requires limit > 0 && StrictOrder(before) && Listed(rows, key, before, width)
    requires |tables| > |rows| && forall i | 0 <= i < |tables| :: tables[i] == rows
    ensures Walk(tables, key, before, width, limit, None) == Ok(Walked(rows, true))
  {
    StillWalk(rows, tables, key, before, width, limit, None, 0);
    assert rows[0..] == rows;
  }

  lemma CutAfterRow<T>(rows: seq<T>, key: T -> Key, before: (Key, Key) -> bool, width: nat, m: nat)
    requires StrictOrder(before) && Listed(rows, key, before, width) && 0 < m <= |rows|
    ensures CutAt(rows, key, before, Some(key(rows[m - 1])), m)
    ensures Usable(Some(key(rows[m - 1])), width)
  {
    assert rows[m - 1] in rows;
  }

  lemma CutUnique<T>(rows: seq<T>, key: T -> Key, before: (Key, Key) -> bool, cursor: Option<Key>, k: nat, k': nat)
    requires CutAt(rows, key, before, cursor, k) && CutAt(rows, key, before, cursor, k')
    ensures k == k'
  {
    assert k < |rows| ==> Past(before, cursor, key(rows[k]));
    assert k' < |rows| ==> Past(before, cursor, key(rows[k']));
  }

  lemma SlicesJoin<T>(rows: seq<T>, k: nat, m: nat)
    requires k <= m <= |rows|
    ensures rows[k..m] + rows[m..] == rows[k..]
  {
  }

  lemma {:induction false} StillWalk<T>(
    rows: seq<T>, tables: seq<seq<T>>, key: T -> Key, before: (Key, Key) -> bool, width: nat, limit: nat, cursor: Option<Key>, k: nat)
    requires limit > 0 && StrictOrder(before) && Listed(rows, key, before, width) && Usable(cursor, width)
    requires CutAt(rows, key, before, cursor, k)
    requires |tables| > |rows| - k && forall i | 0 <= i < |tables| :: tables[i] == rows
    ensures Walk(tables, key, before, width, limit, TokenOf(cursor)) == Ok(Walked(rows[k..], true))
  {
    var k', m := WalkStep(tables, key, before, width, limit, cursor);
    CutUnique(rows, key, before, cursor, k, k');
    if m < |rows| {
      CutAfterRow(rows, key, before, width, m);
      var last := Some(key(rows[m - 1]));
      StillWalk(rows, tables[1..], key, before, width, limit, last, m);
      SlicesJoin(rows, k, m);
    }
  }
}
