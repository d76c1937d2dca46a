/** The helpers of the home page (app/page.tsx): the UUID test, the class
    name joiner, the tri-state filter, the error text of `fetchJSON`, and
    the query strings of the leaderboard and hit-rate cards. */
module Page {
  import opened Wrappers
  import opened Js
  import opened UrlParams
  import opened Http
  import Leaderboard
  import LeaderboardClient
  import Situations

  // ---------------------------------------------------------------------------
  // isUUID

  /** A hexadecimal digit in either case. */
  predicate IsHex(c: char) {
    '0' <= c <= '9' || 'a' <= c <= 'f' || 'A' <= c <= 'F'
  }

  /** The first digit of the third group: the version, 1 to 5. */
  predicate IsVersion(c: char) { '1' <= c <= '5' }

  /** The first digit of the fourth group: the variant, 8, 9, a or b. */
  predicate IsVariant(c: char) {
    c == '8' || c == '9' || c == 'a' || c == 'b' || c == 'A' || c == 'B'
  }

  /** What the pattern accepts at position `i` of a 36-character text. */
  predicate UuidCharOk(i: nat, c: char) {
    if i == 8 || i == 13 || i == 18 || i == 23 then c == '-'
    else if i == 14 then IsVersion(c)
    else if i == 19 then IsVariant(c)
    else IsHex(c)
  }

  /** `isUUID(v)`: a truthy text matched, case-insensitively, by the
      anchored 8-4-4-4-12 pattern, read position by position. */
  predicate IsUuid(v: Option<string>) {
    v.Some? && v.value != "" && |v.value| == 36
    && forall i :: 0 <= i < 36 ==> UuidCharOk(i, v.value[i])
  }

  /** A group of `n` hexadecimal digits. */
  predicate HexGroup(g: string, n: nat) {
    |g| == n && forall i :: 0 <= i < n ==> IsHex(g[i])
  }

  /** The five groups the pattern names, with its version and variant digits. */
  predicate UuidGroups(a: string, b: string, c: string, d: string, e: string) {
    HexGroup(a, 8) && HexGroup(b, 4) && HexGroup(c, 4) && IsVersion(c[0])
    && HexGroup(d, 4) && IsVariant(d[0]) && HexGroup(e, 12)
  }

  function Hyphenated(a: string, b: string, c: string, d: string, e: string): string {
    a + "-" + b + "-" + c + "-" + d + "-" + e
  }

  /** Every five groups of the pattern, joined by hyphens, pass `isUUID`. */
  lemma UuidFromGroups(a: string, b: string, c: string, d: string, e: string)
    requires UuidGroups(a, b, c, d, e)
    ensures IsUuid(Some(Hyphenated(a, b, c, d, e)))
  {
    var s := Hyphenated(a, b, c, d, e);
    assert |s| == 36;
    forall i | 0 <= i < 36 ensures UuidCharOk(i, s[i]) {
      if i < 8 {
        assert s[i] == a[i];
      } else if i == 8 {
      } else if i < 13 {
        assert s[i] == b[i - 9];
      } else if i == 13 {
      } else if i < 18 {
        assert s[i] == c[i - 14];
      } else if i == 18 {
      } else if i < 23 {
        assert s[i] == d[i - 19];
      } else if i == 23 {
      } else {
        assert s[i] == e[i - 24];
      }
    }
  }

  /** Whatever passes `isUUID` is defined, and is five such groups joined by
      hyphens; undefined and the empty text never pass. */
  lemma UuidToGroups(v: Option<string>)
    requires IsUuid(v)
    ensures v.Some? && v.value != ""
    ensures var s := v.value;
      UuidGroups(s[..8], s[9..13], s[14..18], s[19..23], s[24..])
      && s == Hyphenated(s[..8], s[9..13], s[14..18], s[19..23], s[24..])
  {
    var s := v.value;
    assert forall i :: 0 <= i < 8 ==> UuidCharOk(i, s[i]);
    assert HexGroup(s[..8], 8);
    assert HexGroup(s[9..13], 4) by {
      forall i | 0 <= i < 4 ensures IsHex(s[9..13][i]) {
        assert UuidCharOk(9 + i, s[9 + i]);
      }
    }
    assert HexGroup(s[14..18], 4) && IsVersion(s[14..18][0]) by {
      forall i | 0 <= i < 4 ensures IsHex(s[14..18][i]) {
        assert UuidCharOk(14 + i, s[14 + i]);
      }
      assert UuidCharOk(14, s[14]);
    }
    assert HexGroup(s[19..23], 4) && IsVariant(s[19..23][0]) by {
      forall i | 0 <= i < 4 ensures IsHex(s[19..23][i]) {
        assert UuidCharOk(19 + i, s[19 + i]);
      }
      assert UuidCharOk(19, s[19]);
    }
    assert HexGroup(s[24..], 12) by {
      forall i | 0 <= i < 12 ensures IsHex(s[24..][i]) {
        assert UuidCharOk(24 + i, s[24 + i]);
      }
    }
    assert UuidCharOk(8, s[8]) && UuidCharOk(13, s[13]) && UuidCharOk(18, s[18]) && UuidCharOk(23, s[23]);
    assert s == s[..8] + [s[8]] + s[9..13] + [s[13]] + s[14..18] + [s[18]] + s[19..23] + [s[23]] + s[24..];
  }

  // ---------------------------------------------------------------------------
  // cx

  /** An argument of `cx`: a class name, `false` or `undefined`. */
  datatype ClassArg = Name(name: string) | False | Undefined

  /** `c.filter(Boolean)`: the non-empty names, in order. */
  function Names(args: seq<ClassArg>): (names: seq<string>)
    ensures forall n :: n in names <==> n != "" && Name(n) in args
    ensures |names| <= |args|
  {
    if args == [] then []
    else
      var rest := Names(args[1..]);
      assert forall x :: x in args <==> x == args[0] || x in args[1..];
      if args[0].Name? && args[0].name != "" then [args[0].name] + rest else rest
  }

  /** `join(sep)`. */
  function Join(parts: seq<string>, sep: char): string {
    if parts == [] then ""
    else if |parts| == 1 then parts[0]
    else parts[0] + [sep] + Join(parts[1..], sep)
  }

  /** `cx(...c)`: the kept names joined with single spaces. */
  function Cx(args: seq<ClassArg>): string {
    Join(Names(args), ' ')
  }

  /** `split(sep)`: the text cut at every separator. */
  function Split(s: string, sep: char): (parts: seq<string>)
    ensures parts != []
    decreases |s|
  {
    var n := IndexOf(s, sep);
    if n == |s| then [s] else [s[..n]] + Split(s[n + 1..], sep)
  }

  /** Joining names that hold no separator can be undone by splitting. */
  lemma {:induction false} SplitJoin(parts: seq<string>, sep: char)
    requires parts != []
    requires forall p :: p in parts ==> sep !in p
    ensures Split(Join(parts, sep), sep) == parts
  {
    var x := parts[0];
    assert sep !in x;
    if |parts| == 1 {
      assert IndexOf(x, sep) == |x|;
    } else {
      var rest := Join(parts[1..], sep);
      var s := x + [sep] + rest;
      assert s[|x|] == sep;
      assert forall i :: 0 <= i < |x| ==> s[i] == x[i];
      assert IndexOf(s, sep) == |x|;
      assert s[..|x|] == x && s[|x| + 1..] == rest;
      SplitJoin(parts[1..], sep);
      assert parts == [x] + parts[1..];
    }
  }

  /** `cx` keeps every non-empty name, in order, and nothing else: with no
      name it is empty, and otherwise splitting it at spaces gives back the
      kept names, provided none of them holds a space. */
  lemma CxKeepsNames(args: seq<ClassArg>)
    requires forall a :: a in args && a.Name? ==> ' ' !in a.name
    ensures Names(args) == [] ==> Cx(args) == ""
    ensures Names(args) != [] ==> Split(Cx(args), ' ') == Names(args)
  {
    var names := Names(args);
    if names != [] {
      forall p | p in names ensures ' ' !in p {
        assert Name(p) in args;
      }
      SplitJoin(names, ' ');
    }
  }

  // ---------------------------------------------------------------------------
  // boolParam

  /** A tri-state dropdown. */
  datatype TriState = Any | Only | Exclude

  /** `boolParam(s)`: no constraint, only, or excluded. */
  function BoolParam(s: TriState): (b: Option<bool>)
    ensures b.None? ==> s == Any
    ensures b.Some? ==> s == (if b.value then Only else Exclude)
  {
    match s
    case Any => None
    case Only => Some(true)
    case Exclude => Some(false)
  }

  /** `String(boolParam(s))` where it is not null. */
  function FlagText(s: TriState): (t: Option<string>)
    ensures t.None? <==> s == Any
    ensures t == Some("true") <==> s == Only
    ensures t == Some("false") <==> s == Exclude
  {
    match BoolParam(s)
    case None => None
    case Some(b) => Some(if b then "true" else "false")
  }

  // ---------------------------------------------------------------------------
  // fetchJSON

  /** What `fetch(url)` gives the page: a response with its status line,
      its `content-type` header, its body read as text (or nothing when
      reading it fails) and its body parsed as JSON; or a rejection. */
  datatype PageResponse<J> =
    | Answered(status: int, statusText: string, contentType: Option<string>,
               body: Option<string>, json: Result<J>)
    | Failed(message: string)

  const SnippetLength := 240

  /** `(await res.text()).slice(0, 240)`, or "" when reading fails. */
  function Snippet(body: Option<string>): (s: string)
    ensures |s| <= SnippetLength
    ensures body.None? ==> s == ""
    ensures body.Some? ==> |s| == MinInt(|body.value|, SnippetLength) && s == body.value[..|s|]
  {
    if body.None? then ""
    else if |body.value| <= SnippetLength then body.value
    else body.value[..SnippetLength]
  }

  /** `${res.status} ${res.statusText} for ${url}`. */
  function StatusLine(status: int, statusText: string, url: string): string {
    IntText(status) + " " + statusText + " for " + url
  }

  const Dash := " \U{2014} "

  /** The message thrown for a response that is not ok. */
  function ErrorMessage(status: int, statusText: string, url: string, body: Option<string>): string {
    var snippet := Snippet(body);
    StatusLine(status, statusText, url) + (if snippet != "" && snippet[0] != '<' then Dash + snippet else "")
  }

  /** The message for a non-ok response starts with the status line and
      adds at most the first 240 characters of the body: nothing when the
      body is missing, empty or starts with `<` (markup), and otherwise
      exactly that prefix after a dash. */
  lemma ErrorMessageShape(status: int, statusText: string, url: string, body: Option<string>)
    ensures var line := StatusLine(status, statusText, url);
      var m := ErrorMessage(status, statusText, url, body);
      && |line| <= |m| <= |line| + |Dash| + SnippetLength
      && m[..|line|] == line
      && (body.None? || body.value == "" || body.value[0] == '<' ==> m == line)
      && (body.Some? && body.value != "" && body.value[0] != '<' ==>
            m == line + Dash + body.value[..MinInt(|body.value|, SnippetLength)])
  {
    var snippet := Snippet(body);
    if body.Some? && body.value != "" {
      assert snippet[0] == body.value[0];
    }
  }

  /** `ct.includes(pat)`. */
  predicate Includes(s: string, pat: string) {
    Leaderboard.FindFrom(s, pat, 0).Some?
  }

  /** The message thrown for an ok response that does not say JSON. */
  function ContentTypeMessage(ct: string, url: string): string {
    "Expected JSON but got " + (if ct == "" then "unknown content type" else ct) + " from " + url
  }

  /** `fetchJSON(url)`: the parsed body of an ok JSON response, or the
      message of the error it throws. */
  method FetchJson<J>(url: string, fetch: string -> PageResponse<J>) returns (r: Result<J>)
    ensures match fetch(url)
      case Failed(m) => r == Failure(m)
      case Answered(status, statusText, ct, body, json) =>
        if !IsOk(status) then r == Failure(ErrorMessage(status, statusText, url, body))
        else if !Includes(ct.GetOr(""), "application/json") then r == Failure(ContentTypeMessage(ct.GetOr(""), url))
        else r == json
  {
    match fetch(url)
    case Failed(m) =>
      r := Failure(m);
    case Answered(status, statusText, header, body, json) =>
      var ct := header.GetOr("");
      if !IsOk(status) {
        var snippet := Snippet(body);
        var msg := StatusLine(status, statusText, url) + (if snippet != "" && snippet[0] != '<' then Dash + snippet else "");
        r := Failure(msg);
      } else if !Includes(ct, "application/json") {
        r := Failure(ContentTypeMessage(ct, url));
      } else {
        r := json;
      }
  }

  /** `includes` holds exactly when the pattern occurs somewhere. */
  lemma IncludesOccurs(s: string, pat: string)
    ensures Includes(s, pat) <==> exists i :: Leaderboard.OccursAt(s, i, pat)
  {
    if exists i :: Leaderboard.OccursAt(s, i, pat) {
      var i :| Leaderboard.OccursAt(s, i, pat);
      assert 0 <= i;
    }
  }

  // ---------------------------------------------------------------------------
  // The page's filters and its two queries

  /** The filters the two cards read. */
  datatype Filters = Filters(position: string, seasonFrom: JsNum, seasonTo: JsNum,
                             defCat: string, tier: string,
                             prime: TriState, dome: TriState, windy: TriState,
                             playerUUID: Option<string>, propType: Option<string>)

  /** The record of the leaderboard card's `URLSearchParams`: the category
      goes out as `category`, the tier as `defTier`, and the limit is 50. */
  function LeaderboardEntries(f: Filters): seq<Entry> {
    [("position", f.position), ("category", f.defCat), ("defTier", f.tier),
     ("seasonFrom", NumberText(f.seasonFrom)), ("seasonTo", NumberText(f.seasonTo)), ("limit", "50")]
  }

  const SituationsPath := "/api/situations?"

  /** The leaderboard card's address, as written: the situations route. */
  method LeaderboardUrl(f: Filters) returns (url: string)
    ensures url == SituationsPath + Serialize(LeaderboardEntries(f))
  {
    var p := new SearchParams.FromRecord(LeaderboardEntries(f));
    url := SituationsPath + p.ToString();
  }

  /** The leaderboard card's address with the path its parameter names
      belong to: the situational leaderboard route. */
  method FixedLeaderboardUrl(f: Filters) returns (url: string)
    ensures url == LeaderboardClient.LeaderboardPath + Serialize(LeaderboardEntries(f))
  {
    var p := new SearchParams.FromRecord(LeaderboardEntries(f));
    url := LeaderboardClient.LeaderboardPath + p.ToString();
  }

  /** The route reading the card's query sees the category under
      `category`, the tier under `defTier`, the seasons as text, and a
      limit of 50; nothing under the page's own names `defCat` or `tier`. */
  lemma LeaderboardParams(f: Filters)
    ensures var sp := Parse(Serialize(LeaderboardEntries(f)));
      && sp == LeaderboardEntries(f)
      && Lookup(sp, "position") == Some(f.position)
      && Lookup(sp, "category") == Some(f.defCat)
      && Lookup(sp, "defTier") == Some(f.tier)
      && Lookup(sp, "seasonFrom") == Some(NumberText(f.seasonFrom))
      && Lookup(sp, "seasonTo") == Some(NumberText(f.seasonTo))
      && Lookup(sp, "limit") == Some("50")
      && !HasKey(sp, "defCat") && !HasKey(sp, "tier")
  {
    var es := LeaderboardEntries(f);
    ParseSerialize(es);
    EntriesLookup(es, f.position, f.defCat, f.tier, NumberText(f.seasonFrom), NumberText(f.seasonTo));
    NameAbsent(es, "defCat");
    NameAbsent(es, "tier");
  }

  /** The card's six names differ from one another. */
  lemma CardNamesDistinct(es: seq<Entry>)
    requires |es| == 6
    requires es[0].0 == "position" && es[1].0 == "category" && es[2].0 == "defTier"
    requires es[3].0 == "seasonFrom" && es[4].0 == "seasonTo" && es[5].0 == "limit"
    ensures forall i, j :: 0 <= j < i < 6 ==> es[j].0 != es[i].0
  {
  }

  /** A name none of the card's six parameters has. */
  lemma NameAbsent(es: seq<Entry>, k: string)
    requires |es| == 6
    requires es[0].0 == "position" && es[1].0 == "category" && es[2].0 == "defTier"
    requires es[3].0 == "seasonFrom" && es[4].0 == "seasonTo" && es[5].0 == "limit"
    requires k == "defCat" || k == "tier" || k == "aggregate" || k == "year" || k == "defense_tier"
    ensures !HasKey(es, k)
  {
    forall i | 0 <= i < 6 ensures es[i].0 != k {
    }
  }

  lemma EntriesLookup(es: seq<Entry>, position: string, category: string, tier: string, lower: string, upper: string)
    requires es == [("position", position), ("category", category), ("defTier", tier),
                    ("seasonFrom", lower), ("seasonTo", upper), ("limit", "50")]
    ensures Lookup(es, "position") == Some(position) && Lookup(es, "category") == Some(category)
    ensures Lookup(es, "defTier") == Some(tier) && Lookup(es, "seasonFrom") == Some(lower)
    ensures Lookup(es, "seasonTo") == Some(upper) && Lookup(es, "limit") == Some("50")
  {
    CardNamesDistinct(es);
    LookupFirst(es, 0);
    LookupFirst(es, 1);
    LookupFirst(es, 2);
    LookupFirst(es, 3);
    LookupFirst(es, 4);
    LookupFirst(es, 5);
  }

  /** As written, the situations route ignores the card's seasons and
      tier: whatever they are, it asks the store for the 2024 season with
      no defense-tier filter (and 50 totals for the card's position). */
  lemma LeaderboardSeasonIgnored(f: Filters)
    ensures var sp := Parse(Serialize(LeaderboardEntries(f)));
      Situations.Aggregate(sp)
      && var ps := Parse(Situations.SituationsQuery(sp));
      && Lookup(ps, "season_filter") == Some("2024")
      && Lookup(ps, "defense_tier_filter") == None
      && Lookup(ps, "limit_count") == Some("50")
      && Lookup(ps, "position_filter") == Situations.Kept(Some(f.position))
  {
    var sp := Parse(Serialize(LeaderboardEntries(f)));
    LeaderboardParams(f);
    AbsentNames(f, sp);
    DefaultSituationsQuery(sp, f.position);
  }

  /** A request with a position and a limit of 50 but without `aggregate`,
      `year` or `defense_tier` asks the store for 2024 totals with no tier
      filter. */
  lemma DefaultSituationsQuery(sp: seq<Entry>, position: string)
    requires Lookup(sp, "aggregate") == None && Lookup(sp, "year") == None
    requires Lookup(sp, "defense_tier") == None
    requires Lookup(sp, "limit") == Some("50") && Lookup(sp, "position") == Some(position)
    ensures Situations.Aggregate(sp)
    ensures var ps := Parse(Situations.SituationsQuery(sp));
      && Lookup(ps, "season_filter") == Some("2024")
      && Lookup(ps, "defense_tier_filter") == None
      && Lookup(ps, "limit_count") == Some("50")
      && Lookup(ps, "position_filter") == Situations.Kept(Some(position))
  {
    Situations.RpcQueryParams(sp);
  }

  /** The situations route's names are not among the card's. */
  lemma AbsentNames(f: Filters, sp: seq<Entry>)
    requires sp == LeaderboardEntries(f)
    ensures Lookup(sp, "aggregate") == None && Lookup(sp, "year") == None
    ensures Lookup(sp, "defense_tier") == None
  {
    NameAbsent(sp, "aggregate");
    NameAbsent(sp, "year");
    NameAbsent(sp, "defense_tier");
  }

  /** With the leaderboard route's path, the card's filters reach the
      store: the season range as two adjacent bounds, the category and
      the tier as equalities when they are set, and the limit of 50. */
  lemma FixedLeaderboardReachesStore(f: Filters)
    ensures var ps := Parse(Leaderboard.LeaderboardQuery(Parse(Serialize(LeaderboardEntries(f)))));
      && (exists i :: 0 <= i < |ps| - 1 && ps[i] == ("season", "gte." + NumberText(f.seasonFrom))
                                       && ps[i + 1] == ("season", "lte." + NumberText(f.seasonTo)))
      && (f.defCat != "" ==> ("category", "eq." + f.defCat) in ps)
      && (f.tier != "" ==> ("def_tier", "eq." + f.tier) in ps)
      && ("limit", "50") in ps
  {
    var sp := Parse(Serialize(LeaderboardEntries(f)));
    LeaderboardParams(f);
    NumberTextNotEmpty(f.seasonFrom);
    NumberTextNotEmpty(f.seasonTo);
    Leaderboard.SeasonRange(sp, NumberText(f.seasonFrom), NumberText(f.seasonTo));
    LeaderboardClient.FilterInParams(sp);
    LimitInParams(sp, "50");
  }

  /** A non-empty `limit` reaches the store as it is. */
  lemma LimitInParams(sp: seq<Entry>, limit: string)
    requires Lookup(sp, "limit") == Some(limit) && limit != ""
    ensures ("limit", limit) in Parse(Leaderboard.LeaderboardQuery(sp))
  {
    Leaderboard.LeaderboardQueryParams(sp);
    var post := Leaderboard.LeaderboardPost(sp);
    var p := Leaderboard.Param("limit", "", Some(limit));
    assert p[0] == ("limit", "" + limit);
    assert "" + limit == limit;
    assert post == [("order", "per_game.desc.nullslast")] + p;
    assert ("limit", limit) in post;
    InLast(Leaderboard.LeaderboardPre(sp), Leaderboard.Param("season", "lte.", Lookup(sp, "seasonTo")), post, ("limit", limit));
  }

  lemma InLast<T>(a: seq<T>, b: seq<T>, c: seq<T>, x: T)
    requires x in c
    ensures x in a + b + c
  {
  }

  const HitRatePath := "/api/props/hit-rate?"

  /** `canQuery`: a valid player UUID and a prop type. */
  predicate CanQuery(f: Filters) {
    IsUuid(f.playerUUID) && f.propType.Some? && f.propType.value != ""
  }

  /** Every parameter the hit-rate card may send, in order; an absent or
      empty value is not sent. */
  function HitRateRecord(f: Filters): seq<(string, Option<string>)> {
    [("playerId", f.playerUUID), ("propType", f.propType),
     ("seasonFrom", Some(NumberText(f.seasonFrom))), ("seasonTo", Some(NumberText(f.seasonTo))),
     ("defCat", Some(f.defCat)), ("tier", Some(f.tier)),
     ("prime", FlagText(f.prime)), ("dome", FlagText(f.dome)), ("windy", FlagText(f.windy))]
  }

  /** The hit-rate card's address, or none when it cannot query. */
  function HitRateQuery(f: Filters): Option<string> {
    if CanQuery(f) then Some(HitRatePath + Serialize(Present(HitRateRecord(f)))) else None
  }

  /** Setting the next parameter of a record, when it has a value, extends
      the parameters set so far by it. */
  lemma PresentStep(record: seq<(string, Option<string>)>, i: nat, entries: seq<Entry>,
                    k: string, v: Option<string>)
    requires DistinctKeys(record) && i < |record| && record[i] == (k, v)
    requires entries == Present(record[..i])
    ensures v.Some? && v.value != "" ==> SetEntry(entries, k, v.value) == Present(record[..i + 1])
    ensures !(v.Some? && v.value != "") ==> entries == Present(record[..i + 1])
  {
    assert record[..i + 1][..i] == record[..i];
    if v.Some? && v.value != "" {
      assert !HasKey(entries, k) by {
        PresentNames(record[..i]);
        forall e | e in entries ensures e.0 != k {
          var j :| 0 <= j < i && record[..i][j].0 == e.0;
        }
      }
      SetEntryAppends(entries, k, v.value);
    }
  }

  /** `qs` of the hit-rate card: null unless it can query; otherwise the
      player, prop type and seasons, then `defCat` and `tier` when set and
      `prime`, `dome` and `windy` when not "any". */
  method HitRateUrl(f: Filters) returns (url: Option<string>)
    ensures url == HitRateQuery(f)
  {
    if !(IsUuid(f.playerUUID) && f.propType.Some? && f.propType.value != "") {
      return None;
    }
    var record := HitRateRecord(f);
    HitRateRecordDistinct(f);
    var base := [("playerId", f.playerUUID.value), ("propType", f.propType.value),
                 ("seasonFrom", NumberText(f.seasonFrom)), ("seasonTo", NumberText(f.seasonTo))];
    BaseIsPresent(f, record, base);
    var p := new SearchParams.FromRecord(base);
    SetIfGiven(p, record, 4);  // defCat, when truthy
    SetIfGiven(p, record, 5);  // tier, when truthy
    SetIfGiven(p, record, 6);  // prime, unless boolParam gives null
    SetIfGiven(p, record, 7);  // dome
    SetIfGiven(p, record, 8);  // windy
    TakeAll(record, 9);
    url := Some(HitRatePath + p.ToString());
  }

  /** `if (v) p.set(k, v)` for the next parameter `(k, v)` of a record:
      the parameters set so far grow by it when it has a value. */
  method SetIfGiven(p: SearchParams, record: seq<(string, Option<string>)>, i: nat)
    requires DistinctKeys(record) && i < |record|
    requires p.entries == Present(record[..i])
    modifies p
    ensures p.entries == Present(record[..i + 1])
  {
    var (k, v) := record[i];
    PresentStep(record, i, p.entries, k, v);
    if v.Some? && v.value != "" {
      p.Set(k, v.value);
    }
  }

  lemma TakeAll<T>(s: seq<T>, n: nat)
    requires n == |s|
    ensures s[..n] == s
  {
  }

  lemma HitRateRecordDistinct(f: Filters)
    ensures DistinctKeys(HitRateRecord(f))
  {
  }

  /** The four parameters the card always sends are all non-empty. */
  lemma BaseIsPresent(f: Filters, record: seq<(string, Option<string>)>, base: seq<Entry>)
    requires CanQuery(f) && record == HitRateRecord(f)
    requires base == [("playerId", f.playerUUID.value), ("propType", f.propType.value),
                      ("seasonFrom", NumberText(f.seasonFrom)), ("seasonTo", NumberText(f.seasonTo))]
    ensures base == Present(record[..4])
  {
    NumberTextNotEmpty(f.seasonFrom);
    NumberTextNotEmpty(f.seasonTo);
    PresentAll(record[..4], base);
  }

  /** Present, non-empty values are all kept, in order. */
  lemma {:induction false} PresentAll(record: seq<(string, Option<string>)>, base: seq<Entry>)
    requires |record| == |base|
    requires forall i :: 0 <= i < |record| ==> record[i] == (base[i].0, Some(base[i].1)) && base[i].1 != ""
    ensures base == Present(record)
  {
    if record != [] {
      var n := |record| - 1;
      PresentAll(record[..n], base[..n]);
      assert base == base[..n] + [base[n]];
    }
  }

  /** The hit-rate route reads back the player, the prop type and the
      seasons; `defCat` and `tier` when set; and each of `prime`, `dome`
      and `windy` as "true" for "only", "false" for "exclude" and not at
      all for "any". */
  lemma HitRateParams(f: Filters)
    requires CanQuery(f)
    ensures var ps := Parse(Serialize(Present(HitRateRecord(f))));
      && Lookup(ps, "playerId") == f.playerUUID
      && Lookup(ps, "propType") == f.propType
      && Lookup(ps, "seasonFrom") == Some(NumberText(f.seasonFrom))
      && Lookup(ps, "seasonTo") == Some(NumberText(f.seasonTo))
      && Lookup(ps, "defCat") == Situations.Kept(Some(f.defCat))
      && Lookup(ps, "tier") == Situations.Kept(Some(f.tier))
      && Lookup(ps, "prime") == FlagText(f.prime)
      && Lookup(ps, "dome") == FlagText(f.dome)
      && Lookup(ps, "windy") == FlagText(f.windy)
  {
    var record := HitRateRecord(f);
    HitRateRecordDistinct(f);
    NumberTextNotEmpty(f.seasonFrom);
    NumberTextNotEmpty(f.seasonTo);
    Situations.QueryLookup(record, 0);
    Situations.QueryLookup(record, 1);
    Situations.QueryLookup(record, 2);
    Situations.QueryLookup(record, 3);
    Situations.QueryLookup(record, 4);
    Situations.QueryLookup(record, 5);
    Situations.QueryLookup(record, 6);
    Situations.QueryLookup(record, 7);
    Situations.QueryLookup(record, 8);
  }
}
