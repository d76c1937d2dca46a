/** The hosted store as the services see it: an awaited query resolves to
    `{ data, error }`, and an error whose message matches
    `/column .* does not exist/i` means the schema lacks a column. */
module Store {
  import opened Wrappers
  import opened Js

  datatype StoreError = StoreError(message: string)

  /** What an awaited query resolves to; `data` may be null. */
  datatype Reply<T> = Reply(data: Option<seq<T>>, error: Option<StoreError>)

  /** One sort key, added by `.order(column, { ascending })`. */
  datatype SortKey = SortKey(column: string, ascending: bool)

  /** What awaiting a query asks of the store: the table, the page size set
      by `.limit(n)`, the `.eq(column, value)` filters and the sort keys, each
      in the order they were added. */
  datatype Request = Request(table: string, limit: Option<real>, filters: seq<(string, string)>, orders: seq<SortKey>)

  /** `base` with `keys` added after the sort keys it already has. */
  function AddOrders(base: Request, keys: seq<SortKey>): Request {
    base.(orders := base.orders + keys)
  }

  /** A query builder of the hosted store's client. `limit`, `eq` and
      `order` change the builder's own request and hand back the same
      builder, so a builder awaited again later sends everything added to it
      so far; `order` appends a sort key after those already there. */
  class Query {
    var request: Request

    /** `supabase.from(table).select("*")`. */
    constructor (table: string)
      ensures request == Request(table, None, [], [])
    {
      request := Request(table, None, [], []);
    }

    method Limit(n: real)
      modifies this
      ensures request == old(request).(limit := Some(n))
    {
      request := request.(limit := Some(n));
    }

    method Eq(column: string, value: string)
      modifies this
      ensures request == old(request).(filters := old(request).filters + [(column, value)])
    {
      request := request.(filters := request.filters + [(column, value)]);
    }

    method Order(column: string, ascending: bool)
      modifies this
      ensures request == old(request).(orders := old(request).orders + [SortKey(column, ascending)])
    {
      request := request.(orders := request.orders + [SortKey(column, ascending)]);
    }
  }

  // ---------------------------------------------------------------------------
  // The regular expression /column .* does not exist/i

  const ColumnWord := "column "
  const DoesNotExist := " does not exist"

  /** A regular expression `.` matches anything but these. */
  predicate IsLineTerminator(c: char) {
    c == '\n' || c == '\r' || c as int == 0x2028 || c as int == 0x2029
  }

  /** `w` (lower-case) occurs at `i` in `s`, ignoring ASCII case. */
  predicate WordAt(s: string, i: int, w: string) {
    0 <= i && i + |w| <= |s| && forall k :: 0 <= k < |w| ==> Lower(s[i + k]) == w[k]
  }

  predicate NoLineTerminator(s: string, lo: int, hi: int)
    requires 0 <= lo <= hi <= |s|
  {
    forall k :: lo <= k < hi ==> !IsLineTerminator(s[k])
  }

  /** The pattern matches with "column " at `i` and " does not exist" at `j`. */
  predicate MatchAt(s: string, i: int, j: int) {
    0 <= i && i + |ColumnWord| <= j && j + |DoesNotExist| <= |s|
    && WordAt(s, i, ColumnWord) && WordAt(s, j, DoesNotExist)
    && NoLineTerminator(s, i + |ColumnWord|, j)
  }

  /** What `/column .* does not exist/i.test(s)` means. */
  ghost predicate MissingColumnPattern(s: string) {
    exists i, j :: MatchAt(s, i, j)
  }

  /** The tail of the pattern can be matched starting exactly at `j`. */
  function TailFrom(s: string, j: nat): bool
    requires j <= |s|
    decreases |s| - j
  {
    if WordAt(s, j, DoesNotExist) then true
    else if j == |s| || IsLineTerminator(s[j]) then false
    else TailFrom(s, j + 1)
  }

  /** Some match starts at or after `i`. */
  function HeadFrom(s: string, i: nat): bool
    requires i <= |s|
    decreases |s| - i
  {
    if i + |ColumnWord| > |s| then false
    else (WordAt(s, i, ColumnWord) && TailFrom(s, i + |ColumnWord|)) || HeadFrom(s, i + 1)
  }

  lemma {:induction false} TailFromSound(s: string, j: nat)
    requires j <= |s| && TailFrom(s, j)
    ensures exists j' :: j <= j' && j' + |DoesNotExist| <= |s| && WordAt(s, j', DoesNotExist) && NoLineTerminator(s, j, j')
    decreases |s| - j
  {
    if WordAt(s, j, DoesNotExist) {
      assert NoLineTerminator(s, j, j);
    } else {
      TailFromSound(s, j + 1);
      var j' :| j + 1 <= j' && j' + |DoesNotExist| <= |s| && WordAt(s, j', DoesNotExist) && NoLineTerminator(s, j + 1, j');
      assert NoLineTerminator(s, j, j');
    }
  }

  lemma {:induction false} TailFromComplete(s: string, j: nat, j': nat)
    requires j <= j' && j' + |DoesNotExist| <= |s| && WordAt(s, j', DoesNotExist) && NoLineTerminator(s, j, j')
    ensures TailFrom(s, j)
    decreases j' - j
  {
    if !WordAt(s, j, DoesNotExist) {
      assert j < j' && !IsLineTerminator(s[j]);
      TailFromComplete(s, j + 1, j');
    }
  }

  lemma {:induction false} HeadFromSound(s: string, i: nat)
    requires i <= |s| && HeadFrom(s, i)
    ensures exists i', j :: i <= i' && MatchAt(s, i', j)
    decreases |s| - i
  {
    if WordAt(s, i, ColumnWord) && TailFrom(s, i + |ColumnWord|) {
      TailFromSound(s, i + |ColumnWord|);
      var j :| i + |ColumnWord| <= j && j + |DoesNotExist| <= |s| && WordAt(s, j, DoesNotExist) && NoLineTerminator(s, i + |ColumnWord|, j);
      assert MatchAt(s, i, j);
    } else {
      HeadFromSound(s, i + 1);
    }
  }

  lemma {:induction false} HeadFromComplete(s: string, i: nat, i': nat, j: int)
    requires i <= i' && MatchAt(s, i', j)
    ensures HeadFrom(s, i)
    decreases i' - i
  {
    if i == i' {
      TailFromComplete(s, i + |ColumnWord|, j);
    } else {
      HeadFromComplete(s, i + 1, i', j);
    }
  }

  /** `/column .* does not exist/i.test(message)`: the store reports a column
      the schema lacks. */
  function MissingColumn(message: string): (b: bool)
    ensures b <==> MissingColumnPattern(message)
  {
    if HeadFrom(message, 0) then
      HeadFromSound(message, 0);
      true
    else
      MissingColumnIsHeadFrom(message);
      false
  }

  lemma MissingColumnIsHeadFrom(message: string)
    ensures MissingColumnPattern(message) ==> HeadFrom(message, 0)
  {
    if MissingColumnPattern(message) {
      var i, j :| MatchAt(message, i, j);
      HeadFromComplete(message, 0, i, j);
    }
  }

  /** What a service makes of a settled reply: an error is thrown with its
      message, and otherwise null data is an empty list. */
  function Settle<T>(reply: Reply<T>): (r: Result<seq<T>>)
    ensures r.Failure? <==> reply.error.Some?
    ensures r.Failure? ==> r.message == reply.error.value.message
    ensures r.Success? && reply.data.None? ==> r.value == []
    ensures r.Success? && reply.data.Some? ==> r.value == reply.data.value
  {
    match reply.error
    case Some(e) => Failure(e.message)
    case None => Success(reply.data.GetOr([]))
  }

  /** The query failed because the schema lacks the column. */
  predicate SkipsColumn<T>(r: Reply<T>) {
    r.error.Some? && MissingColumn(r.error.value.message)
  }

  /** A PostgreSQL undefined-column message matches, whatever the column. */
  lemma PostgresMessageMatches(column: string)
    requires forall k :: 0 <= k < |column| ==> !IsLineTerminator(column[k])
    ensures MissingColumn("column " + column + " does not exist")
  {
    var s := "column " + column + " does not exist";
    var j := |ColumnWord| + |column|;
    assert WordAt(s, 0, ColumnWord);
    assert s[j..] == DoesNotExist;
    assert WordAt(s, j, DoesNotExist);
    assert MatchAt(s, 0, j);
  }

  /** A message without the words " does not exist" never matches. */
  lemma OtherMessagesAreFatal(message: string)
    requires forall j :: !WordAt(message, j, DoesNotExist)
    ensures !MissingColumn(message)
  {
  }

  /** A message too short to hold both halves is fatal. */
  lemma ShortMessageIsFatal()
    ensures !MissingColumn("permission denied")
  {
    assert forall i, j :: !MatchAt("permission denied", i, j);
  }
}
