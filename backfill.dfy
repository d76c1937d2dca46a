/** The play-by-play backfill script (scripts/backfill_pbp.py): for each
    season of a range, download the season's plays, turn each into a
    store record with missing values defaulted, and upsert the records in
    batches of 1000, stopping at the first batch the store refuses. */
module Backfill {
  import opened Wrappers
  import opened Js

  // ---------------------------------------------------------------------------
  // chunks

  /** The slices `rows[i:i+n]` for `i` in `range(start, len(rows), n)`. */
  function Slices<T>(rows: seq<T>, n: nat, start: nat): seq<seq<T>>
    requires n > 0
    decreases |rows| - start
  {
    if start >= |rows| then []
    else [rows[start..MinInt(start + n, |rows|)]] + Slices(rows, n, start + n)
  }

  /** `chunks(rows, n)`: `range` refuses a zero step, and a negative step
      from 0 up to `len(rows)` yields nothing. */
  function Chunks<T>(rows: seq<T>, n: int): Result<seq<seq<T>>> {
    if n == 0 then Failure("range() arg 3 must not be zero")
    else if n < 0 then Success([])
    else Success(Slices(rows, n, 0))
  }

  /** The chunks put back together. */
  function Flatten<T>(chunks: seq<seq<T>>): seq<T> {
    if chunks == [] then [] else chunks[0] + Flatten(chunks[1..])
  }

  /** The slices from `start` on put back together are the rows from
      `start` on. */
  lemma {:induction false} SlicesFlatten<T>(rows: seq<T>, n: nat, start: nat)
    requires n > 0 && start <= |rows|
    ensures Flatten(Slices(rows, n, start)) == rows[start..]
    decreases |rows| - start
  {
    if start < |rows| {
      var end := MinInt(start + n, |rows|);
      SlicesFlatten(rows, n, end);
      assert Slices(rows, n, start + n) == Slices(rows, n, end) by {
        if start + n > |rows| {
          assert Slices(rows, n, start + n) == [];
        }
      }
      assert rows[start..] == rows[start..end] + rows[end..];
    }
  }

  /** Every slice is non-empty and holds at most `n` rows; all but the
      last hold exactly `n`. */
  lemma {:induction false} SlicesSizes<T>(rows: seq<T>, n: nat, start: nat)
    requires n > 0
    ensures forall j :: 0 <= j < |Slices(rows, n, start)| ==> 0 < |Slices(rows, n, start)[j]| <= n
    ensures forall j :: 0 <= j < |Slices(rows, n, start)| - 1 ==> |Slices(rows, n, start)[j]| == n
    decreases |rows| - start
  {
    var cs := Slices(rows, n, start);
    if start < |rows| {
      var rest := Slices(rows, n, start + n);
      SlicesSizes(rows, n, start + n);
      assert cs == [rows[start..MinInt(start + n, |rows|)]] + rest;
      forall j | 0 <= j < |cs| ensures 0 < |cs[j]| <= n {
        if j > 0 {
          assert cs[j] == rest[j - 1];
        }
      }
      forall j | 0 <= j < |cs| - 1 ensures |cs[j]| == n {
        if j > 0 {
          assert cs[j] == rest[j - 1];
        } else {
          assert rest != [];
          assert start + n < |rows|;
        }
      }
    }
  }

  /** There are `ceil((len(rows) - start) / n)` slices. */
  lemma {:induction false} SlicesCount<T>(rows: seq<T>, n: nat, start: nat)
    requires n > 0 && start <= |rows|
    ensures |Slices(rows, n, start)| == (|rows| - start + n - 1) / n
    decreases |rows| - start
  {
    var m := |rows| - start;
    if m == 0 {
      DivSmall(n - 1, n);
    } else if m <= n {
      assert Slices(rows, n, start + n) == [];
      DivOne(m + n - 1, n);
    } else {
      SlicesCount(rows, n, start + n);
      DivStep(m - 1, n);
    }
  }

  lemma DivSmall(x: nat, n: nat)
    requires x < n
    ensures x / n == 0
  {
  }

  lemma DivOne(x: nat, n: nat)
    requires 0 < n <= x < 2 * n
    ensures x / n == 1
  {
  }

  lemma DivStep(x: nat, n: nat)
    requires n > 0
    ensures (x + n) / n == x / n + 1
  {
    var q, r := x / n, x % n;
    assert x + n == (q + 1) * n + r;
    DivUnique(x + n, n, q + 1, r);
  }

  /** The quotient is the one `q` with `a == q * n + r` and `0 <= r < n`. */
  lemma DivUnique(a: int, n: int, q: int, r: int)
    requires n > 0 && 0 <= r < n && a == q * n + r
    ensures a / n == q
  {
    var d := a / n - q;
    assert d * n == r - a % n;
    MulSmall(d, n);
  }

  /** A multiple of `n` strictly between `-n` and `n` is zero. */
  lemma MulSmall(d: int, n: int)
    requires n > 0 && -n < d * n < n
    ensures d == 0
  {
    if d > 0 {
      MulAtLeast(d, n);
      assert false;
    } else if d < 0 {
      MulAtLeast(-d, n);
      assert false;
    }
  }

  lemma MulAtLeast(d: int, n: int)
    requires d >= 1 && n > 0
    ensures d * n >= n
  {
  }

  /** What `chunks` promises: a zero size fails; otherwise the chunks put
      back together are the rows, each chunk holds between 1 and `n` rows,
      all but the last exactly `n`, and there are `ceil(len / n)` of them
      (none for no rows). */
  lemma ChunksProperties<T>(rows: seq<T>, n: int)
    ensures Chunks(rows, n).Failure? <==> n == 0
    ensures n > 0 ==> var cs := Chunks(rows, n).value;
      && Flatten(cs) == rows
      && (forall j :: 0 <= j < |cs| ==> 0 < |cs[j]| <= n)
      && (forall j :: 0 <= j < |cs| - 1 ==> |cs[j]| == n)
      && |cs| == (|rows| + n - 1) / n
      && (rows == [] <==> cs == [])
  {
    if n > 0 {
      SlicesFlatten(rows, n, 0);
      SlicesSizes(rows, n, 0);
      SlicesCount(rows, n, 0);
      assert rows[0..] == rows;
    }
  }

  // ---------------------------------------------------------------------------
  // transform

  /** One play as the season file holds it; `None` is a missing (NA)
      value. The file always has a game id, a play id and a season. */
  datatype Play = Play(
    game_id: string, play_id: int, season: int, week: Option<int>,
    posteam: Option<string>, defteam: Option<string>, qtr: Option<int>,
    gsr: Option<string>, play_type: Option<string>, yards_gained: Option<real>,
    rush: Option<int>, pass: Option<int>,
    passer: Option<string>, rusher: Option<string>, receiver: Option<string>)

  /** One row of `pbp_raw`. */
  datatype PbpRecord = PbpRecord(
    game_id: string, play_id: int, season: int, week: Option<int>,
    posteam: Option<string>, defteam: Option<string>, qtr: Option<int>,
    clock: Option<string>, play_type: Option<string>, yards_gained: Option<real>,
    rush_attempt: int, pass_attempt: int,
    passer: Option<string>, rusher: Option<string>, receiver: Option<string>,
    json_row: Play, src: string)

  const Source := "nflverse"

  /** The record of one play: the attempt flags count as 0 when missing,
      every other missing value stays missing, the raw play is kept as
      `json_row`, and the source is "nflverse". */
  function ToRecord(p: Play): (r: PbpRecord)
    ensures r.src == Source && r.json_row == p
    ensures r.rush_attempt == p.rush.GetOr(0) && r.pass_attempt == p.pass.GetOr(0)
    ensures p.rush.None? ==> r.rush_attempt == 0
    ensures p.pass.None? ==> r.pass_attempt == 0
    ensures r.week.None? <==> p.week.None?
    ensures r.qtr.None? <==> p.qtr.None?
    ensures r.clock.None? <==> p.gsr.None?
    ensures r.yards_gained.None? <==> p.yards_gained.None?
  {
    PbpRecord(p.game_id, p.play_id, p.season, p.week, p.posteam, p.defteam, p.qtr,
              p.gsr, p.play_type, p.yards_gained,
              if p.rush.Some? then p.rush.value else 0,
              if p.pass.Some? then p.pass.value else 0,
              p.passer, p.rusher, p.receiver, p, Source)
  }

  /** A record can be read back as its play: the typed fields are the raw
      play's values with the attempt flags defaulted. */
  predicate Agrees(r: PbpRecord) {
    var p := r.json_row;
    r.game_id == p.game_id && r.play_id == p.play_id && r.season == p.season
    && r.week == p.week && r.posteam == p.posteam && r.defteam == p.defteam
    && r.qtr == p.qtr && r.clock == p.gsr && r.play_type == p.play_type
    && r.yards_gained == p.yards_gained
    && r.rush_attempt == p.rush.GetOr(0) && r.pass_attempt == p.pass.GetOr(0)
    && r.passer == p.passer && r.rusher == p.rusher && r.receiver == p.receiver
    && r.src == Source
  }

  /** Each record is the one of its play, in order. */
  function Records(plays: seq<Play>): (rs: seq<PbpRecord>)
    ensures |rs| == |plays|
  {
    seq(|plays|, i requires 0 <= i < |plays| => ToRecord(plays[i]))
  }

  /** `transform(df)`: one record per play, appended in order. */
  method Transform(plays: seq<Play>) returns (out: seq<PbpRecord>)
    ensures out == Records(plays)
    ensures forall i :: 0 <= i < |out| ==> Agrees(out[i]) && out[i].json_row == plays[i]
  {
    out := [];
    var i := 0;
    while i < |plays|
      invariant 0 <= i <= |plays|
      invariant |out| == i
      invariant forall j :: 0 <= j < i ==> out[j] == ToRecord(plays[j])
    {
      out := out + [ToRecord(plays[i])];
      i := i + 1;
    }
  }

  /** Reading a record back gives its play, and the record agrees with it:
      the record of a play loses nothing. */
  lemma RecordAgrees(p: Play)
    ensures Agrees(ToRecord(p)) && ToRecord(p).json_row == p
  {
  }

  // ---------------------------------------------------------------------------
  // upsert_pbp, load_season and main

  /** The statuses the store answers a successful upsert with. */
  predicate UpsertOk(status: int) {
    status == 200 || status == 201 || status == 204
  }

  /** The store's answer to a POST of a batch: its status and body. */
  type Store = seq<PbpRecord> -> (int, string)

  /** `upsert_pbp(rows)`: success on 200, 201 or 204, and otherwise the
      error with the status and the body. */
  function Upsert(batch: seq<PbpRecord>, store: Store): (o: Outcome)
    ensures o.Pass? <==> UpsertOk(store(batch).0)
  {
    var (status, text) := store(batch);
    if !UpsertOk(status) then Fail("Upsert failed: " + IntText(status) + " " + text) else Pass
  }

  /** Upserting the batches in order up to the first failure. */
  function UpsertAll(batches: seq<seq<PbpRecord>>, store: Store): (o: Outcome)
    ensures o.Pass? <==> forall j :: 0 <= j < |batches| ==> UpsertOk(store(batches[j]).0)
  {
    if batches == [] then Pass
    else match Upsert(batches[0], store)
      case Fail(m) => Fail(m)
      case Pass =>
        assert forall j :: 0 < j < |batches| ==> batches[j] == batches[1..][j - 1];
        UpsertAll(batches[1..], store)
  }

  const BatchSize := 1000

  /** The season file's address. */
  function SeasonUrl(season: int): string {
    SeasonUrlPrefix + IntText(season) + ".parquet"
  }

  const SeasonUrlPrefix := "https://github.com/nflverse/nflfastR-data/raw/master/data/play_by_play/parquet/play_by_play_"

  /** What loading a season does: upsert the records of its plays in
      batches of 1000. `download` reads the file at an address. */
  function SeasonOutcome(season: int, download: string -> seq<Play>, store: Store): Outcome {
    UpsertAll(Slices(Records(download(SeasonUrl(season))), BatchSize, 0), store)
  }

  /** `load_season(season)`. */
  method LoadSeason(season: int, download: string -> seq<Play>, store: Store) returns (o: Outcome)
    ensures o == SeasonOutcome(season, download, store)
  {
    var url := SeasonUrl(season);
    var plays := download(url);
    var rows := Transform(plays);
    var batches := Chunks(rows, BatchSize);
    assert batches == Success(Slices(rows, BatchSize, 0));
    var i := 0;
    while i < |batches.value|
      invariant 0 <= i <= |batches.value|
      invariant UpsertAll(batches.value, store) == UpsertAll(batches.value[i..], store)
    {
      var r := Upsert(batches.value[i], store);
      if r.Fail? {
        return r;
      }
      assert batches.value[i..][1..] == batches.value[i + 1..];
      i := i + 1;
    }
    o := Pass;
  }

  /** The seasons `range(from, to + 1)`, ascending. */
  function Seasons(first: int, last: int): (ss: seq<int>)
    ensures |ss| == (if last >= first then last - first + 1 else 0)
    ensures forall i :: 0 <= i < |ss| ==> ss[i] == first + i
    decreases last - first + 1
  {
    if first > last then [] else [first] + Seasons(first + 1, last)
  }

  /** Every season of the range is loaded, each after the previous one, and
      none outside it. */
  lemma SeasonsAscending(first: int, last: int)
    ensures var ss := Seasons(first, last);
      (forall i, j :: 0 <= i < j < |ss| ==> ss[i] < ss[j])
      && forall y :: y in ss <==> first <= y <= last
  {
    var ss := Seasons(first, last);
    forall y | first <= y <= last ensures y in ss {
      assert ss[y - first] == y;
    }
  }

  /** Without arguments the script loads 2020 to 2024. */
  lemma DefaultSeasons()
    ensures Seasons(2020, 2024) == [2020, 2021, 2022, 2023, 2024]
  {
    assert Seasons(2024, 2024) == [2024];
  }

  /** The outcome of the backfill: the seasons are loaded in order up to the
      first failure. */
  function BackfillOutcome(seasons: seq<int>, download: string -> seq<Play>, store: Store): Outcome {
    if seasons == [] then Pass
    else match SeasonOutcome(seasons[0], download, store)
      case Fail(m) => Fail(m)
      case Pass => BackfillOutcome(seasons[1..], download, store)
  }

  lemma BackfillStep(seasons: seq<int>, download: string -> seq<Play>, store: Store)
    requires seasons != []
    ensures var first := SeasonOutcome(seasons[0], download, store);
      BackfillOutcome(seasons, download, store)
      == (if first.Fail? then first else BackfillOutcome(seasons[1..], download, store))
  {
  }

  /** `main()`: `--from` (2020 by default) to `--to` (2024 by default),
      inclusive. `loaded` lists the seasons whose batches all went in. */
  method RunBackfill(fromArg: Option<int>, toArg: Option<int>, download: string -> seq<Play>, store: Store)
    returns (o: Outcome, loaded: seq<int>)
    ensures var seasons := Seasons(fromArg.GetOr(2020), toArg.GetOr(2024));
      && o == BackfillOutcome(seasons, download, store)
      && |loaded| <= |seasons| && loaded == seasons[..|loaded|]
      && (o.Pass? ==> loaded == seasons)
  {
    var seasons := Seasons(fromArg.GetOr(2020), toArg.GetOr(2024));
    o, loaded := LoadSeasons(seasons, download, store);
  }

  /** The loop of `main()` over the seasons, in order, up to the first
      failure. */
  method LoadSeasons(seasons: seq<int>, download: string -> seq<Play>, store: Store)
    returns (o: Outcome, loaded: seq<int>)
    ensures o == BackfillOutcome(seasons, download, store)
    ensures |loaded| <= |seasons| && loaded == seasons[..|loaded|]
    ensures o.Pass? ==> loaded == seasons
  {
    loaded := [];
    var i := 0;
    while i < |seasons|
      invariant 0 <= i <= |seasons|
      invariant loaded == seasons[..i]
      invariant BackfillOutcome(seasons, download, store) == BackfillOutcome(seasons[i..], download, store)
    {
      var r := LoadSeason(seasons[i], download, store);
      BackfillStep(seasons[i..], download, store);
      if r.Fail? {
        return r, loaded;
      }
      assert seasons[i..][1..] == seasons[i + 1..];
      loaded := loaded + [seasons[i]];
      i := i + 1;
    }
    o := Pass;
  }
}
