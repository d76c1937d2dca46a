/** The in-code aggregation of `GET /api/situations` (app/api/situations/route.ts):
    the rows the store returns are grouped by player, team and season in an
    insertion-ordered `Map`, yards are summed and games maximised per group,
    the groups are sorted by total yards (descending, stable) and cut to the
    limit, and every row is then projected to the shape the front end
    reads. */
module Aggregation {
  import opened Wrappers
  import opened Js

  /** A row as the store returns it: a JSON object. */
  type Row = map<string, Value>

  /** `row.f`: undefined when the property is missing. */
  function Field(row: Row, f: string): Value {
    if f in row then row[f] else Undefined
  }

  /** The number 1. */
  const One := Num(Finite(1.0))

  /** The grouping key `${row.full_name}-${row.team_abbr}-${row.season}`. */
  function Key(row: Row): string {
    Text(Field(row, "full_name")) + "-" + Text(Field(row, "team_abbr")) + "-" + Text(Field(row, "season"))
  }

  /** `parseInt(row.total_yards) || 0`. */
  function Yards(row: Row): int {
    IntOr0(ParseIntValue(Field(row, "total_yards")))
  }

  /** `row.games || 1`. */
  function GamesOr1(row: Row): (v: Value)
    ensures Truthy(v)
  {
    Or(Field(row, "games"), One)
  }

  /** The object the map holds for one group. */
  datatype Agg = Agg(player_id: Value, full_name: Value, position: Value, team_abbr: Value,
                     season: Value, total_yards: int, games: Value)

  // ---------------------------------------------------------------------------
  // What the map holds once every row is in. The grouping key is a
  // parameter: the facts below hold whatever the key, and the route uses
  // `Key`.

  type KeyFn = Row -> string

  predicate HasRow(rows: seq<Row>, key: KeyFn, k: string) {
    exists i :: 0 <= i < |rows| && key(rows[i]) == k
  }

  /** The keys of the rows, each once, in the order of its first row. */
  function KeysOf(rows: seq<Row>, key: KeyFn): seq<string> {
    if rows == [] then []
    else
      var keys := KeysOf(rows[..|rows| - 1], key);
      var k := key(rows[|rows| - 1]);
      if k in keys then keys else keys + [k]
  }

  /** The first row with key `k`; an empty object when there is none. */
  function FirstRow(rows: seq<Row>, key: KeyFn, k: string): Row {
    if rows == [] then map[]
    else if key(rows[0]) == k then rows[0]
    else FirstRow(rows[1..], key, k)
  }

  /** The yards of the rows with key `k`, summed. */
  function Total(rows: seq<Row>, key: KeyFn, k: string): int {
    if rows == [] then 0
    else
      var r := rows[|rows| - 1];
      Total(rows[..|rows| - 1], key, k) + (if key(r) == k then Yards(r) else 0)
  }

  /** The games of the group `k`: its first row's `games || 1`, then
      `Math.max` with each later row's `games || 1`. */
  function Games(rows: seq<Row>, key: KeyFn, k: string): Value {
    if rows == [] then Undefined
    else
      var init := rows[..|rows| - 1];
      var r := rows[|rows| - 1];
      if key(r) != k then Games(init, key, k)
      else if !HasRow(init, key, k) then GamesOr1(r)
      else Num(MaxNum(ToNumber(Games(init, key, k)), ToNumber(GamesOr1(r))))
  }

  /** The entry a new key gets: the row's identity fields,
      `parseInt(total_yards) || 0` and `games || 1`. */
  function NewEntry(r: Row): Agg {
    Agg(Field(r, "player_id"), Field(r, "full_name"), Field(r, "position"),
        Field(r, "team_abbr"), Field(r, "season"), Yards(r), GamesOr1(r))
  }

  /** A known key adds the row's yards and keeps the larger games. */
  function Merge(e: Agg, r: Row): Agg {
    e.(total_yards := e.total_yards + Yards(r),
       games := Num(MaxNum(ToNumber(e.games), ToNumber(GamesOr1(r)))))
  }

  /** The entry of group `k`: the identity fields of its first row, its
      summed yards and its maximal games. */
  function GroupOf(rows: seq<Row>, key: KeyFn, k: string): Agg {
    var first := FirstRow(rows, key, k);
    Agg(Field(first, "player_id"), Field(first, "full_name"), Field(first, "position"),
        Field(first, "team_abbr"), Field(first, "season"), Total(rows, key, k), Games(rows, key, k))
  }

  /** `Array.from(aggregated.values())`: one entry per key, in key order. */
  function Groups(rows: seq<Row>, key: KeyFn): seq<Agg> {
    var keys := KeysOf(rows, key);
    seq(|keys|, j requires 0 <= j < |keys| => GroupOf(rows, key, keys[j]))
  }

  // ---------------------------------------------------------------------------
  // The forEach over the rows

  /** The `forEach` that fills the map: a new key gets `NewEntry`, a known
      key is merged with the row. The map's insertion order is kept as the
      list of keys. The route groups by `Key`. */
  method AggregateRows(rows: seq<Row>, key: KeyFn) returns (groups: seq<Agg>)
    ensures groups == Groups(rows, key)
  {
    var keys: seq<string> := [];
    var aggregated: map<string, Agg> := map[];
    for i := 0 to |rows|
      invariant Filled(rows[..i], key, keys, aggregated)
    {
      var row := rows[i];
      var k := key(row);
      ghost var before, keysBefore := aggregated, keys;
      if k in aggregated {
        aggregated := aggregated[k := Merge(aggregated[k], row)];
      } else {
        aggregated := aggregated[k := NewEntry(row)];
        keys := keys + [k];
      }
      NextRowKeepsGroups(rows, i, key, before, keysBefore);
    }
    assert rows[..|rows|] == rows;
    groups := seq(|keys|, j requires 0 <= j < |keys| => aggregated[keys[j]]);
    FilledGroups(rows, key, keys, aggregated, groups);
  }

  /** The map and its key order after the `forEach` over `p`: the keys of
      `p` in first-seen order, each mapped to its group's entry. */
  ghost predicate Filled(p: seq<Row>, key: KeyFn, keys: seq<string>, agg: map<string, Agg>) {
    keys == KeysOf(p, key)
    && (forall k :: k in agg <==> k in keys)
    && forall k :: k in agg ==> agg[k] == GroupOf(p, key, k)
  }

  /** Reading the filled map in key order gives the groups. */
  lemma FilledGroups(rows: seq<Row>, key: KeyFn, keys: seq<string>, agg: map<string, Agg>, groups: seq<Agg>)
    requires Filled(rows, key, keys, agg)
    requires |groups| == |keys| && forall j :: 0 <= j < |keys| ==> keys[j] in agg && groups[j] == agg[keys[j]]
    ensures groups == Groups(rows, key)
  {
  }

  /** The `forEach` body at row `i`. */
  lemma NextRowKeepsGroups(rows: seq<Row>, i: nat, key: KeyFn, agg: map<string, Agg>, keys: seq<string>)
    requires i < |rows| && Filled(rows[..i], key, keys, agg)
    ensures var k := key(rows[i]);
      var agg' := if k in agg then agg[k := Merge(agg[k], rows[i])] else agg[k := NewEntry(rows[i])];
      var keys' := if k in agg then keys else keys + [k];
      Filled(rows[..i + 1], key, keys', agg')
  {
    assert rows[..i + 1] == rows[..i] + [rows[i]];
    AddRowKeepsGroups(rows[..i], rows[i], key, agg, keys);
  }

  /** One pass of the `forEach` body keeps the map equal to the groups of
      the rows seen so far. */
  lemma AddRowKeepsGroups(p: seq<Row>, row: Row, key: KeyFn, agg: map<string, Agg>, keys: seq<string>)
    requires Filled(p, key, keys, agg)
    ensures var k := key(row);
      var agg' := if k in agg then agg[k := Merge(agg[k], row)] else agg[k := NewEntry(row)];
      var keys' := if k in agg then keys else keys + [k];
      Filled(p + [row], key, keys', agg')
  {
    var k := key(row);
    KeysOfStep(p, row, key);
    KeysOfMembers(p, key, k);
    var agg' := if k in agg then agg[k := Merge(agg[k], row)] else agg[k := NewEntry(row)];
    forall k' | k' in agg'
      ensures agg'[k'] == GroupOf(p + [row], key, k')
    {
      GroupStep(p, row, key, k');
    }
  }

  lemma KeysOfStep(p: seq<Row>, r: Row, key: KeyFn)
    ensures KeysOf(p + [r], key) == if key(r) in KeysOf(p, key) then KeysOf(p, key) else KeysOf(p, key) + [key(r)]
  {
    assert (p + [r])[..|p|] == p;
  }

  /** How one more row changes the entry of key `k`: another key's entry is
      unchanged, a known key is merged and a new key starts afresh. */
  lemma GroupStep(p: seq<Row>, r: Row, key: KeyFn, k: string)
    ensures GroupOf(p + [r], key, k) ==
      if key(r) != k then GroupOf(p, key, k)
      else if HasRow(p, key, k) then Merge(GroupOf(p, key, k), r)
      else NewEntry(r)
  {
    var q := p + [r];
    assert q[..|q| - 1] == p;
    assert q[|q| - 1] == r;
    FirstRowAppend(p, r, key, k);
    if key(r) == k && !HasRow(p, key, k) {
      TotalAbsent(p, key, k);
      assert Total(q, key, k) == Yards(r);
      assert Games(q, key, k) == GamesOr1(r);
      assert FirstRow(q, key, k) == r;
    } else if key(r) != k {
      if !HasRow(p, key, k) {
        FirstRowAbsent(p, key, k);
      }
    }
  }

  /** The key list holds exactly the keys some row has. */
  lemma {:induction false} KeysOfMembers(rows: seq<Row>, key: KeyFn, k: string)
    ensures k in KeysOf(rows, key) <==> HasRow(rows, key, k)
  {
    if rows != [] {
      var n := |rows| - 1;
      var init := rows[..n];
      KeysOfMembers(init, key, k);
      if HasRow(init, key, k) {
        var i :| 0 <= i < n && key(init[i]) == k;
        assert rows[i] == init[i];
      }
      if HasRow(rows, key, k) && key(rows[n]) != k {
        var i :| 0 <= i < |rows| && key(rows[i]) == k;
        assert init[i] == rows[i];
      }
    }
  }

  /** No key is listed twice: one entry per distinct key. */
  lemma {:induction false} KeysOfDistinct(rows: seq<Row>, key: KeyFn)
    ensures forall a, b :: 0 <= a < b < |KeysOf(rows, key)| ==> KeysOf(rows, key)[a] != KeysOf(rows, key)[b]
  {
    if rows != [] {
      KeysOfDistinct(rows[..|rows| - 1], key);
    }
  }

  lemma {:induction false} FirstRowAppend(p: seq<Row>, r: Row, key: KeyFn, k: string)
    ensures FirstRow(p + [r], key, k) ==
      if HasRow(p, key, k) then FirstRow(p, key, k) else if key(r) == k then r else map[]
  {
    if p == [] {
      assert [r][1..] == [];
    } else {
      assert (p + [r])[1..] == p[1..] + [r];
      FirstRowAppend(p[1..], r, key, k);
      if HasRow(p, key, k) && key(p[0]) != k {
        var i :| 0 <= i < |p| && key(p[i]) == k;
        assert p[1..][i - 1] == p[i];
      }
      if HasRow(p[1..], key, k) {
        var i :| 0 <= i < |p| - 1 && key(p[1..][i]) == k;
        assert p[i + 1] == p[1..][i];
      }
    }
  }

  lemma {:induction false} FirstRowAbsent(rows: seq<Row>, key: KeyFn, k: string)
    requires !HasRow(rows, key, k)
    ensures FirstRow(rows, key, k) == map[]
  {
    if rows != [] {
      forall i | 0 <= i < |rows| - 1 ensures key(rows[1..][i]) != k {
        assert rows[1..][i] == rows[i + 1];
      }
      FirstRowAbsent(rows[1..], key, k);
    }
  }

  lemma {:induction false} TotalAbsent(rows: seq<Row>, key: KeyFn, k: string)
    requires !HasRow(rows, key, k)
    ensures Total(rows, key, k) == 0
  {
    if rows != [] {
      var init := rows[..|rows| - 1];
      forall i | 0 <= i < |init| ensures key(init[i]) != k {
        assert init[i] == rows[i];
      }
      TotalAbsent(init, key, k);
    }
  }

  /** The identity fields of a group come from its first row. */
  lemma {:induction false} FirstRowIsFirst(rows: seq<Row>, key: KeyFn, k: string)
    requires HasRow(rows, key, k)
    ensures exists i :: 0 <= i < |rows| && rows[i] == FirstRow(rows, key, k) && key(rows[i]) == k
                        && forall j :: 0 <= j < i ==> key(rows[j]) != k
  {
    if key(rows[0]) != k {
      var i :| 0 <= i < |rows| && key(rows[i]) == k;
      assert rows[1..][i - 1] == rows[i];
      FirstRowIsFirst(rows[1..], key, k);
      var i' :| 0 <= i' < |rows| - 1 && rows[1..][i'] == FirstRow(rows[1..], key, k) && key(rows[1..][i']) == k
        && forall j :: 0 <= j < i' ==> key(rows[1..][j]) != k;
      assert rows[i' + 1] == rows[1..][i'];
      forall j | 0 <= j < i' + 1 ensures key(rows[j]) != k {
        if j > 0 {
          assert rows[j] == rows[1..][j - 1];
        }
      }
    }
  }

  // ---------------------------------------------------------------------------
  // Games

  /** A whole, non-negative number of games, or none at all. */
  predicate WholeGames(v: Value) {
    v == Undefined || v == Null || (v.Num? && v.n.Finite? && v.n.v >= 0.0 && v.n.v == v.n.v.Floor as real)
  }

  /** The number `games || 1` stands for. */
  function GameCount(row: Row): JsNum {
    ToNumber(GamesOr1(row))
  }

  lemma WholeGamesAtLeastOne(row: Row)
    requires WholeGames(Field(row, "games"))
    ensures GameCount(row).Finite? && GameCount(row).v >= 1.0
  {
    var v := Field(row, "games");
    if Truthy(v) {
      assert v.n.v.Floor >= 1;
    }
  }

  /** Every row's `games || 1` is a finite number. */
  predicate FiniteCounts(rows: seq<Row>) {
    forall i :: 0 <= i < |rows| ==> GameCount(rows[i]).Finite?
  }

  /** With finite game counts, a group's games are the largest
      `games || 1` among its rows. */
  lemma {:induction false} GamesAreMaximum(rows: seq<Row>, key: KeyFn, k: string)
    requires HasRow(rows, key, k) && FiniteCounts(rows)
    ensures ToNumber(Games(rows, key, k)).Finite?
    ensures forall i :: 0 <= i < |rows| && key(rows[i]) == k ==> GameCount(rows[i]).v <= ToNumber(Games(rows, key, k)).v
    ensures exists i :: 0 <= i < |rows| && key(rows[i]) == k && GameCount(rows[i]) == ToNumber(Games(rows, key, k))
  {
    var n := |rows| - 1;
    var init := rows[..n];
    assert FiniteCounts(init) by {
      forall i | 0 <= i < n ensures GameCount(init[i]).Finite? {
        assert init[i] == rows[i];
      }
    }
    var c := ToNumber(Games(rows, key, k));
    if key(rows[n]) != k {
      var w :| 0 <= w < |rows| && key(rows[w]) == k;
      assert init[w] == rows[w];
      GamesAreMaximum(init, key, k);
      GamesOfOther(rows, key, k);
      LiftBound(rows, key, k, ToNumber(Games(init, key, k)), c);
    } else if !HasRow(init, key, k) {
      forall i | 0 <= i < n ensures key(rows[i]) != k {
        assert init[i] == rows[i];
      }
      GamesOfNew(rows, key, k);
    } else {
      GamesAreMaximum(init, key, k);
      GamesOfKnown(rows, key, k);
      LiftBound(rows, key, k, ToNumber(Games(init, key, k)), c);
    }
  }

  lemma GamesOfOther(rows: seq<Row>, key: KeyFn, k: string)
    requires rows != [] && key(rows[|rows| - 1]) != k
    ensures Games(rows, key, k) == Games(rows[..|rows| - 1], key, k)
  {
  }

  lemma GamesOfNew(rows: seq<Row>, key: KeyFn, k: string)
    requires rows != [] && key(rows[|rows| - 1]) == k && !HasRow(rows[..|rows| - 1], key, k)
    ensures ToNumber(Games(rows, key, k)) == GameCount(rows[|rows| - 1])
  {
  }

  /** A later row of a known group: the `Math.max` of the two numbers. */
  lemma GamesOfKnown(rows: seq<Row>, key: KeyFn, k: string)
    requires rows != [] && key(rows[|rows| - 1]) == k && HasRow(rows[..|rows| - 1], key, k)
    requires ToNumber(Games(rows[..|rows| - 1], key, k)).Finite? && GameCount(rows[|rows| - 1]).Finite?
    ensures var c := ToNumber(Games(rows, key, k));
      var before := ToNumber(Games(rows[..|rows| - 1], key, k));
      c.Finite? && before.v <= c.v && GameCount(rows[|rows| - 1]).v <= c.v
      && (c == before || c == GameCount(rows[|rows| - 1]))
  {
  }

  /** The bound and the witness for the rows before the last carry over
      to all rows, given what the last row contributes. */
  lemma LiftBound(rows: seq<Row>, key: KeyFn, k: string, b: JsNum, c: JsNum)
    requires rows != [] && FiniteCounts(rows) && b.Finite? && c.Finite? && b.v <= c.v
    requires var init := rows[..|rows| - 1];
      (forall i :: 0 <= i < |init| && key(init[i]) == k ==> GameCount(init[i]).v <= b.v)
      && (exists i :: 0 <= i < |init| && key(init[i]) == k && GameCount(init[i]) == b)
    requires key(rows[|rows| - 1]) == k ==> GameCount(rows[|rows| - 1]).v <= c.v
    requires c == b || (key(rows[|rows| - 1]) == k && c == GameCount(rows[|rows| - 1]))
    ensures forall i :: 0 <= i < |rows| && key(rows[i]) == k ==> GameCount(rows[i]).v <= c.v
    ensures exists i :: 0 <= i < |rows| && key(rows[i]) == k && GameCount(rows[i]) == c
  {
    var n := |rows| - 1;
    var init := rows[..n];
    forall i | 0 <= i < n && key(rows[i]) == k ensures GameCount(rows[i]).v <= c.v {
      assert init[i] == rows[i];
    }
    if c == b {
      var e :| 0 <= e < |init| && key(init[e]) == k && GameCount(init[e]) == b;
      assert rows[e] == init[e];
    }
  }

  /** Whole game counts make every group's games at least 1. */
  lemma {:induction false} WholeGamesAtLeastOneGroup(rows: seq<Row>, key: KeyFn, k: string)
    requires HasRow(rows, key, k)
    requires forall i :: 0 <= i < |rows| ==> WholeGames(Field(rows[i], "games"))
    ensures ToNumber(Games(rows, key, k)).Finite? && ToNumber(Games(rows, key, k)).v >= 1.0
  {
    forall i | 0 <= i < |rows| ensures GameCount(rows[i]).Finite? && GameCount(rows[i]).v >= 1.0 {
      WholeGamesAtLeastOne(rows[i]);
    }
    GamesAreMaximum(rows, key, k);
  }

  // ---------------------------------------------------------------------------
  // sort((a, b) => b.total_yards - a.total_yards)

  /** Place `x` before the first entry whose total is not larger: ahead of
      entries with the same total, behind the larger ones. */
  function InsertByTotal(x: Agg, s: seq<Agg>): (r: seq<Agg>)
    ensures |r| == |s| + 1
  {
    if s == [] || s[0].total_yards <= x.total_yards then [x] + s
    else [s[0]] + InsertByTotal(x, s[1..])
  }

  /** The stable sort by total yards, largest first. */
  function SortByTotal(s: seq<Agg>): (r: seq<Agg>)
    ensures |r| == |s|
  {
    if s == [] then [] else InsertByTotal(s[0], SortByTotal(s[1..]))
  }

  predicate Descending(s: seq<Agg>) {
    forall i, j :: 0 <= i < j < |s| ==> s[i].total_yards >= s[j].total_yards
  }

  /** The entries with total `t`, in order. */
  function WithTotal(s: seq<Agg>, t: int): seq<Agg> {
    if s == [] then [] else (if s[0].total_yards == t then [s[0]] else []) + WithTotal(s[1..], t)
  }

  /** Inserting adds `x` and loses nothing. */
  lemma {:induction false} InsertPermutes(x: Agg, s: seq<Agg>)
    ensures multiset(InsertByTotal(x, s)) == multiset(s) + multiset{x}
  {
    if s != [] && s[0].total_yards > x.total_yards {
      InsertPermutes(x, s[1..]);
      assert s == [s[0]] + s[1..];
    }
  }

  lemma {:induction false} InsertDescending(x: Agg, s: seq<Agg>)
    requires Descending(s)
    ensures Descending(InsertByTotal(x, s))
  {
    if s == [] || s[0].total_yards <= x.total_yards {
      assert forall j :: 0 < j < |s| + 1 ==> ([x] + s)[j] == s[j - 1];
    } else {
      var t := InsertByTotal(x, s[1..]);
      assert Descending(s[1..]);
      InsertDescending(x, s[1..]);
      InsertBounded(x, s[1..], s[0].total_yards);
      PrependDescending(s[0], t);
    }
  }

  /** Inserting keeps a bound on the totals. */
  lemma InsertBounded(x: Agg, s: seq<Agg>, b: int)
    requires x.total_yards <= b && forall j :: 0 <= j < |s| ==> s[j].total_yards <= b
    ensures forall j :: 0 <= j < |s| + 1 ==> InsertByTotal(x, s)[j].total_yards <= b
  {
    var t := InsertByTotal(x, s);
    InsertPermutes(x, s);
    forall j | 0 <= j < |t|
      ensures t[j].total_yards <= b
    {
      assert t[j] in multiset(t);
      assert t[j] == x || t[j] in s;
    }
  }

  lemma PrependDescending(y: Agg, t: seq<Agg>)
    requires Descending(t)
    requires forall j :: 0 <= j < |t| ==> t[j].total_yards <= y.total_yards
    ensures Descending([y] + t)
  {
    assert forall j :: 0 < j < |t| + 1 ==> ([y] + t)[j] == t[j - 1];
  }

  /** The order is descending and nothing is lost or added. */
  lemma {:induction false} SortDescending(s: seq<Agg>)
    ensures Descending(SortByTotal(s))
    ensures multiset(SortByTotal(s)) == multiset(s)
  {
    if s != [] {
      SortDescending(s[1..]);
      InsertDescending(s[0], SortByTotal(s[1..]));
      InsertPermutes(s[0], SortByTotal(s[1..]));
      assert s == [s[0]] + s[1..];
    }
  }

  lemma {:induction false} InsertKeepsTies(x: Agg, s: seq<Agg>, t: int)
    ensures WithTotal(InsertByTotal(x, s), t) == (if x.total_yards == t then [x] else []) + WithTotal(s, t)
  {
    if s == [] || s[0].total_yards <= x.total_yards {
      WithTotalCons(x, s, t);
    } else {
      var rest := InsertByTotal(x, s[1..]);
      WithTotalCons(s[0], rest, t);
      InsertKeepsTies(x, s[1..], t);
      WithTotalCons(s[0], s[1..], t);
      assert s == [s[0]] + s[1..];
      if s[0].total_yards == t {
        assert x.total_yards != t;
      }
    }
  }

  lemma WithTotalCons(y: Agg, r: seq<Agg>, t: int)
    ensures WithTotal([y] + r, t) == (if y.total_yards == t then [y] else []) + WithTotal(r, t)
  {
    assert ([y] + r)[1..] == r;
  }

  /** Stability: entries with equal totals keep their order. */
  lemma {:induction false} SortKeepsTies(s: seq<Agg>, t: int)
    ensures WithTotal(SortByTotal(s), t) == WithTotal(s, t)
  {
    if s != [] {
      SortKeepsTies(s[1..], t);
      InsertKeepsTies(s[0], SortByTotal(s[1..]), t);
    }
  }

  lemma {:induction false} WithTotalAppend(a: seq<Agg>, b: seq<Agg>, t: int)
    ensures WithTotal(a + b, t) == WithTotal(a, t) + WithTotal(b, t)
  {
    if a == [] {
      assert a + b == b;
    } else {
      WithTotalAppend(a[1..], b, t);
      assert a + b == [a[0]] + (a[1..] + b);
      assert a == [a[0]] + a[1..];
      WithTotalCons(a[0], a[1..] + b, t);
      WithTotalCons(a[0], a[1..], t);
    }
  }

  /** `kept` is a top list of `groups` by total: it takes each entry at
      most as often as `groups` has it, in descending order of totals with
      ties in their order in `groups`, and no entry left out has a larger
      total than one taken. */
  ghost predicate TopByTotal(kept: seq<Agg>, groups: seq<Agg>) {
    multiset(kept) <= multiset(groups)
    && Descending(kept)
    && (forall t :: WithTotal(kept, t) <= WithTotal(groups, t))
    && forall g, i :: g in multiset(groups) - multiset(kept) && 0 <= i < |kept| ==> g.total_yards <= kept[i].total_yards
  }

  /** Every front part of the sorted list is a top list. */
  lemma SortedPrefixIsTop(groups: seq<Agg>, n: nat)
    requires n <= |groups|
    ensures TopByTotal(SortByTotal(groups)[..n], groups)
  {
    var sorted := SortByTotal(groups);
    SortDescending(groups);
    forall t
      ensures WithTotal(sorted, t) == WithTotal(groups, t)
    {
      SortKeepsTies(groups, t);
    }
    PrefixIsTop(sorted, groups, n);
  }

  /** The same for any descending, tie-keeping rearrangement. */
  lemma PrefixIsTop(sorted: seq<Agg>, groups: seq<Agg>, n: nat)
    requires n <= |sorted| && Descending(sorted) && multiset(sorted) == multiset(groups)
    requires forall t :: WithTotal(sorted, t) == WithTotal(groups, t)
    ensures TopByTotal(sorted[..n], groups)
  {
    var kept, rest := sorted[..n], sorted[n..];
    assert multiset(kept) <= multiset(groups) && multiset(groups) - multiset(kept) == multiset(rest) by {
      assert sorted == kept + rest;
    }
    assert Descending(kept);
    PrefixKeepsTies(sorted, groups, n);
    PrefixHoldsLargest(sorted, n);
  }

  lemma PrefixKeepsTies(sorted: seq<Agg>, groups: seq<Agg>, n: nat)
    requires n <= |sorted|
    requires forall t :: WithTotal(sorted, t) == WithTotal(groups, t)
    ensures forall t :: WithTotal(sorted[..n], t) <= WithTotal(groups, t)
  {
    assert sorted == sorted[..n] + sorted[n..];
    forall t
      ensures WithTotal(sorted[..n], t) <= WithTotal(groups, t)
    {
      WithTotalAppend(sorted[..n], sorted[n..], t);
    }
  }

  lemma PrefixHoldsLargest(sorted: seq<Agg>, n: nat)
    requires n <= |sorted| && Descending(sorted)
    ensures forall g, i :: g in multiset(sorted[n..]) && 0 <= i < n ==> g.total_yards <= sorted[i].total_yards
  {
    forall g: Agg, i | g in multiset(sorted[n..]) && 0 <= i < n
      ensures g.total_yards <= sorted[i].total_yards
    {
      assert g in sorted[n..];
      var p :| 0 <= p < |sorted| - n && sorted[n..][p] == g;
      assert sorted[n + p] == g;
    }
  }

  // ---------------------------------------------------------------------------
  // slice(0, parseInt(limit))

  /** The end `slice(0, end)` uses on a list of `len` items: NaN counts as
      0, a negative end counts from the back, and the result is clamped to
      the list. */
  function SliceEnd(len: nat, end: Option<int>): (n: nat)
    ensures n <= len
  {
    match end
    case None => 0
    case Some(e) =>
      if e < 0 then (if len + e < 0 then 0 else len + e)
      else if e > len then len else e
  }

  /** A limit written as a natural number keeps that many groups, or all of
      them when there are fewer. */
  lemma SliceOfCount(len: nat, k: nat)
    ensures SliceEnd(len, ParseInt(IntText(k))) == if k < len then k else len
  {
    ParseIntIntText(k);
  }

  /** A limit that is not a number keeps nothing. */
  lemma SliceOfNaN(len: nat)
    ensures SliceEnd(len, ParseInt("abc")) == 0
  {
    assert TrimStart("abc") == "abc";
    assert LeadingRun("abc", 10) == 0 by {
      assert !IsRadixDigit('a', 10);
    }
  }

  // ---------------------------------------------------------------------------
  // The projection for the front end

  /** The row the front end receives (without the floating-point
      `per_game` and `avg_per_attempt`). */
  datatype OutRow = OutRow(player_id: Value, player_name: Value, position: Value, team: Value,
                           total_yards: int, games: Value, defense_tier: Value, category: Value,
                           season: Value, total: int, id: Value)

  /** The projection `map` of a row. */
  function Project(row: Row): (o: OutRow)
    ensures Truthy(o.games)
    ensures o.total == o.total_yards && o.id == o.player_id
  {
    OutRow(Field(row, "player_id"), Field(row, "full_name"), Field(row, "position"), Field(row, "team_abbr"),
           Yards(row), GamesOr1(row), Field(row, "def_tier"), Field(row, "category"), Field(row, "season"),
           Yards(row), Field(row, "player_id"))
  }

  function ProjectAll(rows: seq<Row>): (out: seq<OutRow>)
    ensures |out| == |rows|
    ensures forall i :: 0 <= i < |rows| ==> out[i] == Project(rows[i])
  {
    seq(|rows|, i requires 0 <= i < |rows| => Project(rows[i]))
  }

  /** An aggregated entry as an object, with `def_tier` set to
      `'aggregated'` and no `category`. */
  function AggRow(g: Agg): Row {
    map["player_id" := g.player_id, "full_name" := g.full_name, "position" := g.position,
        "team_abbr" := g.team_abbr, "season" := g.season, "total_yards" := Num(Finite(g.total_yards as real)),
        "games" := g.games, "def_tier" := Str("aggregated")]
  }

  /** The projection of an aggregated entry gives back its summed yards
      and its first row's identity. */
  lemma ProjectAgg(g: Agg)
    ensures var o := Project(AggRow(g));
      o.total == g.total_yards && o.total_yards == g.total_yards
      && o.player_name == g.full_name && o.team == g.team_abbr && o.id == g.player_id
      && o.position == g.position && o.season == g.season
      && o.defense_tier == Str("aggregated") && o.category == Undefined
      && (Truthy(g.games) ==> o.games == g.games)
  {
    AggRowIdentity(g);
    AggRowCounts(g);
    AggRowYards(g);
  }

  lemma AggRowIdentity(g: Agg)
    ensures var r := AggRow(g);
      Field(r, "player_id") == g.player_id && Field(r, "full_name") == g.full_name
      && Field(r, "position") == g.position && Field(r, "team_abbr") == g.team_abbr
  {
  }

  lemma AggRowCounts(g: Agg)
    ensures var r := AggRow(g);
      Field(r, "season") == g.season && Field(r, "games") == g.games
      && Field(r, "def_tier") == Str("aggregated") && Field(r, "category") == Undefined
  {
  }

  /** The summed yards survive the trip through `String` and `parseInt`. */
  lemma AggRowYards(g: Agg)
    ensures Yards(AggRow(g)) == g.total_yards
  {
    assert Field(AggRow(g), "total_yards") == Num(Finite(g.total_yards as real));
    NumberTextInt(g.total_yards);
    ParseIntIntText(g.total_yards);
  }

  /** The aggregated entries as the front end receives them: sorted,
      cut to `parseInt(limit)` and projected. */
  function AggregatedView(groups: seq<Agg>, limit: string): seq<OutRow> {
    var sorted := SortByTotal(groups);
    var kept := sorted[..SliceEnd(|sorted|, ParseInt(limit))];
    seq(|kept|, i requires 0 <= i < |kept| => Project(AggRow(kept[i])))
  }

  /** Row `o` shows the aggregated entry `g`. */
  predicate Shows(o: OutRow, g: Agg) {
    o.total == g.total_yards && o.player_name == g.full_name && o.id == g.player_id
    && o.defense_tier == Str("aggregated")
  }

  /** Row `i` of `out` shows entry `i` of `kept`. */
  predicate ShownBy(out: seq<OutRow>, kept: seq<Agg>) {
    |out| == |kept| && forall i :: 0 <= i < |out| ==> Shows(out[i], kept[i])
  }

  /** The view shows, row by row, the top `slice(0, parseInt(limit))`
      entries by total: the front part of the stable sort, a top list of the
      entries. */
  lemma ViewOfGroups(groups: seq<Agg>, limit: string)
    ensures var out := AggregatedView(groups, limit);
      |out| == SliceEnd(|groups|, ParseInt(limit)) && SortedTotals(out)
      && ShownBy(out, SortByTotal(groups)[..|out|]) && TopByTotal(SortByTotal(groups)[..|out|], groups)
  {
    var sorted := SortByTotal(groups);
    SortDescending(groups);
    var kept := sorted[..SliceEnd(|sorted|, ParseInt(limit))];
    var out := AggregatedView(groups, limit);
    forall i | 0 <= i < |out|
      ensures Shows(out[i], kept[i])
    {
      ProjectAgg(kept[i]);
    }
    SortedPrefixIsTop(groups, |kept|);
  }

  /** A shown entry is one of the entries. */
  lemma ShownIsGroup(out: seq<OutRow>, kept: seq<Agg>, groups: seq<Agg>, i: nat) returns (j: nat)
    requires ShownBy(out, kept) && multiset(kept) <= multiset(groups) && i < |out|
    ensures j < |groups| && Shows(out[i], groups[j])
  {
    assert kept[i] in multiset(kept);
    assert kept[i] in groups;
    j :| 0 <= j < |groups| && groups[j] == kept[i];
  }

  /** The view has as many rows as `slice(0, parseInt(limit))` keeps of
      the groups. */
  lemma ViewLength(rows: seq<Row>, key: KeyFn, limit: string)
    ensures |AggregatedView(Groups(rows, key), limit)| == SliceEnd(|KeysOf(rows, key)|, ParseInt(limit))
  {
    ViewOfGroups(Groups(rows, key), limit);
  }

  /** Totals in descending order. */
  predicate SortedTotals(out: seq<OutRow>) {
    forall i, j :: 0 <= i < j < |out| ==> out[i].total >= out[j].total
  }

  /** `out` shows a top list of the entries (one per distinct key, see
      `TopByTotal`), each row the entry of a key some row has: its summed
      yards and its first row's player. */
  ghost predicate ShowsGroups(rows: seq<Row>, key: KeyFn, out: seq<OutRow>) {
    (exists kept :: ShownBy(out, kept) && TopByTotal(kept, Groups(rows, key)))
    && forall i :: 0 <= i < |out| ==> ShowsSomeGroup(rows, key, out[i])
  }

  /** Row `o` shows the entry of a key some row has. */
  ghost predicate ShowsSomeGroup(rows: seq<Row>, key: KeyFn, o: OutRow) {
    exists k :: HasRow(rows, key, k) && Shows(o, GroupOf(rows, key, k))
  }

  /** What the front end receives when aggregating. */
  lemma AggregatedViewRows(rows: seq<Row>, key: KeyFn, limit: string)
    ensures ShowsGroups(rows, key, AggregatedView(Groups(rows, key), limit))
  {
    var groups := Groups(rows, key);
    var out := AggregatedView(groups, limit);
    ViewOfGroups(groups, limit);
    var kept := SortByTotal(groups)[..|out|];
    forall i | 0 <= i < |out|
      ensures ShowsSomeGroup(rows, key, out[i])
    {
      var j := ShownIsGroup(out, kept, groups, i);
      var k := GroupKey(rows, key, j);
      assert HasRow(rows, key, k) && Shows(out[i], GroupOf(rows, key, k));
    }
  }

  /** The `j`-th entry is the group of the `j`-th key, which some row has. */
  lemma GroupKey(rows: seq<Row>, key: KeyFn, j: nat) returns (k: string)
    requires j < |Groups(rows, key)|
    ensures HasRow(rows, key, k) && Groups(rows, key)[j] == GroupOf(rows, key, k)
  {
    k := KeysOf(rows, key)[j];
    KeysOfMembers(rows, key, k);
  }
}
