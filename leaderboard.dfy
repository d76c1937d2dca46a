/** The situational leaderboard route (app/api/situations/leaderboard/route.ts):
    it turns its filters into PostgREST parameters with `q()`, serializes
    them, and rewrites the first `season2=` into `season=` so that a season
    range becomes two `season` bounds. */
module Leaderboard {
  import opened Wrappers
  import opened Js
  import opened UrlParams
  import opened Http

  // ---------------------------------------------------------------------------
  // String.prototype.replace with a string pattern

  predicate OccursAt(s: string, i: int, pat: string) {
    0 <= i && i + |pat| <= |s| && s[i..i + |pat|] == pat
  }

  predicate EndsWith(s: string, w: string) {
    |w| <= |s| && s[|s| - |w|..] == w
  }

  /** The first occurrence of `pat` in `s` at or after `i`. */
  function FindFrom(s: string, pat: string, i: nat): (r: Option<nat>)
    requires i <= |s|
    ensures r.Some? ==> i <= r.value && OccursAt(s, r.value, pat)
    ensures r.Some? ==> forall k :: i <= k < r.value ==> !OccursAt(s, k, pat)
    ensures r.None? ==> forall k :: i <= k ==> !OccursAt(s, k, pat)
    decreases |s| - i
  {
    if i + |pat| > |s| then None
    else if s[i..i + |pat|] == pat then Some(i)
    else FindFrom(s, pat, i + 1)
  }

  /** `s.replace(pat, rep)`: the first occurrence of `pat` is replaced by
      `rep`; with no occurrence `s` is unchanged. */
  function ReplaceFirst(s: string, pat: string, rep: string): string {
    match FindFrom(s, pat, 0)
    case None => s
    case Some(i) => s[..i] + rep + s[i + |pat|..]
  }

  /** Two first occurrences are the same occurrence. */
  lemma FirstOccurrence(s: string, pat: string, j: nat)
    requires OccursAt(s, j, pat) && forall k :: 0 <= k < j ==> !OccursAt(s, k, pat)
    ensures FindFrom(s, pat, 0) == Some(j)
  {
  }

  lemma ReplaceNothing(s: string, pat: string, rep: string)
    requires forall i :: !OccursAt(s, i, pat)
    ensures ReplaceFirst(s, pat, rep) == s
  {
    assert FindFrom(s, pat, 0).None?;
  }

  lemma OccursShifted(a: string, b: string, pat: string, j: int)
    requires 0 <= j
    ensures OccursAt(a + b, |a| + j, pat) <==> OccursAt(b, j, pat)
  {
    if 0 <= j && j + |pat| <= |b| {
      assert (a + b)[|a| + j..|a| + j + |pat|] == b[j..j + |pat|];
    }
  }

  lemma ReplaceAfter(a: string, b: string, pat: string, rep: string)
    requires forall i :: 0 <= i < |a| ==> !OccursAt(a + b, i, pat)
    ensures ReplaceFirst(a + b, pat, rep) == a + ReplaceFirst(b, pat, rep)
  {
    match FindFrom(b, pat, 0)
    case None =>
      ReplaceAfterNothing(a, b, pat, rep);
      assert ReplaceFirst(b, pat, rep) == b;
    case Some(j) =>
      ReplaceAfterFound(a, b, pat, rep, j);
      ReplaceAt(b, pat, rep, j);
  }

  lemma ReplaceAfterNothing(a: string, b: string, pat: string, rep: string)
    requires forall i :: 0 <= i < |a| ==> !OccursAt(a + b, i, pat)
    requires FindFrom(b, pat, 0).None?
    ensures ReplaceFirst(a + b, pat, rep) == a + b
  {
    forall i ensures !OccursAt(a + b, i, pat) {
      if i >= |a| {
        OccursShifted(a, b, pat, i - |a|);
      }
    }
    ReplaceNothing(a + b, pat, rep);
  }

  lemma ReplaceAfterFound(a: string, b: string, pat: string, rep: string, j: nat)
    requires forall i :: 0 <= i < |a| ==> !OccursAt(a + b, i, pat)
    requires FindFrom(b, pat, 0) == Some(j)
    ensures ReplaceFirst(a + b, pat, rep) == a + (b[..j] + rep + b[j + |pat|..])
  {
    FoundAfter(a, b, pat, j);
    ReplaceAt(a + b, pat, rep, |a| + j);
    SplitAfter(a, b, j, |pat|, rep);
  }

  /** The first occurrence in `b`, shifted, is the first in `a + b` when
      none starts inside `a`. */
  lemma FoundAfter(a: string, b: string, pat: string, j: nat)
    requires forall i :: 0 <= i < |a| ==> !OccursAt(a + b, i, pat)
    requires FindFrom(b, pat, 0) == Some(j)
    ensures FindFrom(a + b, pat, 0) == Some(|a| + j)
  {
    var s := a + b;
    OccursShifted(a, b, pat, j);
    forall k | 0 <= k < |a| + j ensures !OccursAt(s, k, pat) {
      if k >= |a| {
        OccursShifted(a, b, pat, k - |a|);
      }
    }
    FirstOccurrence(s, pat, |a| + j);
  }

  lemma ReplaceAt(s: string, pat: string, rep: string, i: nat)
    requires FindFrom(s, pat, 0) == Some(i)
    ensures i + |pat| <= |s|
    ensures ReplaceFirst(s, pat, rep) == s[..i] + rep + s[i + |pat|..]
  {
  }

  lemma SplitAfter(a: string, b: string, j: nat, n: nat, rep: string)
    requires j + n <= |b|
    ensures (a + b)[..|a| + j] + rep + (a + b)[|a| + j + n..] == a + (b[..j] + rep + b[j + n..])
  {
    assert (a + b)[..|a| + j] == a + b[..j];
    assert (a + b)[|a| + j + n..] == b[j + n..];
  }

  lemma ReplaceAtFront(pat: string, b: string, rep: string)
    ensures ReplaceFirst(pat + b, pat, rep) == rep + b
  {
    var s := pat + b;
    assert OccursAt(s, 0, pat) by {
      assert s[0..|pat|] == pat;
    }
    FirstOccurrence(s, pat, 0);
    ReplaceAt(s, pat, rep, 0);
    assert s[..0] == [] && s[|pat|..] == b;
  }

  lemma ReplaceOfFront(s: string, pat: string, rest: string, rep: string)
    requires s == pat + rest
    ensures ReplaceFirst(s, pat, rep) == rep + rest
  {
    ReplaceAtFront(pat, rest, rep);
  }

  /** An occurrence of a pattern in `a + [c] + b` lies in `a`, in `b`, or
      covers the `c`. */
  lemma OccursAround(a: string, c: char, b: string, pat: string, i: int)
    requires OccursAt(a + [c] + b, i, pat)
    ensures OccursAt(a, i, pat) || (i >= |a| + 1 && OccursAt(b, i - |a| - 1, pat))
         || (0 <= |a| - i < |pat| && pat[|a| - i] == c)
  {
    var s := a + [c] + b;
    if i <= |a| && |a| < i + |pat| {
      assert s[i..i + |pat|][|a| - i] == c;
    } else if i + |pat| <= |a| {
      assert s[i..i + |pat|] == a[i..i + |pat|];
    } else {
      assert s[i..i + |pat|] == b[i - |a| - 1..i - |a| - 1 + |pat|];
    }
  }

  // ---------------------------------------------------------------------------
  // Renaming a pair inside a serialized query

  /** An occurrence of `w=` in a pair, with `w` free of `=`, is the pair's
      encoded name ending in `w`, right before the `=`. */
  lemma KeyInPair(e: Entry, w: string, i: int)
    requires forall k :: 0 <= k < |w| ==> IsEncodedChar(w[k])
    requires OccursAt(Pair(e), i, w + "=")
    ensures EndsWith(Encode(e.0), w)
  {
    KeyBeforeEquals(Encode(e.0), Encode(e.1), w, i);
  }

  lemma KeyBeforeEquals(k: string, v: string, w: string, i: int)
    requires forall j :: 0 <= j < |k| ==> IsEncodedChar(k[j])
    requires forall j :: 0 <= j < |v| ==> IsEncodedChar(v[j])
    requires forall j :: 0 <= j < |w| ==> IsEncodedChar(w[j])
    requires OccursAt(k + "=" + v, i, w + "=")
    ensures EndsWith(k, w)
  {
    var p := k + "=" + v;
    var pat := w + "=";
    assert p[i + |w|] == pat[|w|] == '=';
    assert forall j :: 0 <= j < |k| ==> p[j] == k[j];
    assert forall j :: |k| < j < |p| ==> p[j] == v[j - |k| - 1];
    assert i + |w| == |k|;
    assert k[|k| - |w|..] == p[i..i + |w|] == pat[..|w|];
  }

  lemma SerializeCons(e: Entry, rest: seq<Entry>)
    requires rest != []
    ensures Serialize([e] + rest) == Pair(e) + "&" + Serialize(rest)
  {
    assert ([e] + rest)[1..] == rest;
  }

  /** The names and values of a query never hold `&` or `=`. */
  lemma KeyPatternHasNoAmpersand(w: string)
    requires forall k :: 0 <= k < |w| ==> IsEncodedChar(w[k])
    ensures forall k :: 0 <= k < |w + "="| ==> (w + "=")[k] != '&'
  {
    assert forall k :: 0 <= k < |w| ==> (w + "=")[k] == w[k];
  }

  lemma NoOccurrenceAround(p: string, rest: string, pat: string)
    requires forall k :: 0 <= k < |pat| ==> pat[k] != '&'
    requires forall i :: !OccursAt(p, i, pat)
    requires forall i :: !OccursAt(rest, i, pat)
    ensures forall i :: !OccursAt(p + "&" + rest, i, pat)
  {
    assert p + "&" + rest == p + ['&'] + rest;
    forall i | OccursAt(p + ['&'] + rest, i, pat) ensures false {
      OccursAround(p, '&', rest, pat, i);
    }
  }

  /** `w=` does not occur in a serialized query none of whose encoded names
      ends in `w`. */
  lemma {:induction false} NoKeyInQuery(es: seq<Entry>, w: string)
    requires forall k :: 0 <= k < |w| ==> IsEncodedChar(w[k])
    requires forall e :: e in es ==> !EndsWith(Encode(e.0), w)
    ensures forall i :: !OccursAt(Serialize(es), i, w + "=")
  {
    if es != [] {
      forall i | OccursAt(Pair(es[0]), i, w + "=") ensures false {
        KeyInPair(es[0], w, i);
      }
      if |es| > 1 {
        NoKeyInQuery(es[1..], w);
        assert es == [es[0]] + es[1..];
        SerializeCons(es[0], es[1..]);
        KeyPatternHasNoAmpersand(w);
        NoOccurrenceAround(Pair(es[0]), Serialize(es[1..]), w + "=");
      }
    }
  }

  /** `k=` cannot start inside a first pair whose name does not end in `k`. */
  lemma NoKeyInFirstPair(e: Entry, rest: string, w: string)
    requires forall k :: 0 <= k < |w| ==> IsEncodedChar(w[k])
    requires !EndsWith(Encode(e.0), w)
    ensures forall i :: 0 <= i < |Pair(e) + "&"| ==> !OccursAt(Pair(e) + "&" + rest, i, w + "=")
  {
    forall i | 0 <= i < |Pair(e) + "&"| && OccursAt(Pair(e) + "&" + rest, i, w + "=") ensures false {
      assert Pair(e) + "&" + rest == Pair(e) + ['&'] + rest;
      OccursAround(Pair(e), '&', rest, w + "=", i);
      KeyInPair(e, w, i);
    }
  }

  lemma RenameAtFront(k: string, k2: string, v: string, post: seq<Entry>)
    ensures ReplaceFirst(Serialize([(k, v)] + post), Encode(k) + "=", Encode(k2) + "=")
         == Serialize([(k2, v)] + post)
  {
    if post == [] {
      assert [(k, v)] + post == [(k, v)];
      assert [(k2, v)] + post == [(k2, v)];
      ReplaceAtFront(Encode(k) + "=", Encode(v), Encode(k2) + "=");
    } else {
      RenameAtFrontOfMany(k, k2, v, post);
    }
  }

  lemma RenameAtFrontOfMany(k: string, k2: string, v: string, post: seq<Entry>)
    requires post != []
    ensures ReplaceFirst(Serialize([(k, v)] + post), Encode(k) + "=", Encode(k2) + "=")
         == Serialize([(k2, v)] + post)
  {
    var pat := Encode(k) + "=";
    var rep := Encode(k2) + "=";
    var rest := Encode(v) + "&" + Serialize(post);
    var s := Serialize([(k, v)] + post);
    assert s == pat + rest by {
      SerializeCons((k, v), post);
      Regroup(Encode(k), "=", Encode(v), "&", Serialize(post));
    }
    ReplaceOfFront(s, pat, rest, rep);
    assert Serialize([(k2, v)] + post) == rep + rest by {
      SerializeCons((k2, v), post);
      Regroup(Encode(k2), "=", Encode(v), "&", Serialize(post));
    }
  }

  lemma Regroup<T>(a: seq<T>, b: seq<T>, c: seq<T>, d: seq<T>, e: seq<T>)
    ensures a + b + c + d + e == (a + b) + (c + d + e)
  {
  }

  /** Replacing the first `k=` with `k2=` renames the first pair named `k`,
      provided no earlier name ends in `k`. */
  lemma {:induction false} RenameFirstPair(pre: seq<Entry>, k: string, k2: string, v: string, post: seq<Entry>)
    requires forall e :: e in pre ==> !EndsWith(Encode(e.0), Encode(k))
    ensures ReplaceFirst(Serialize(pre + [(k, v)] + post), Encode(k) + "=", Encode(k2) + "=")
         == Serialize(pre + [(k2, v)] + post)
  {
    var pat := Encode(k) + "=";
    var rep := Encode(k2) + "=";
    if pre == [] {
      assert pre + [(k, v)] + post == [(k, v)] + post;
      assert pre + [(k2, v)] + post == [(k2, v)] + post;
      RenameAtFront(k, k2, v, post);
    } else {
      var tail := pre[1..] + [(k, v)] + post;
      var tail2 := pre[1..] + [(k2, v)] + post;
      assert pre + [(k, v)] + post == [pre[0]] + tail;
      assert pre + [(k2, v)] + post == [pre[0]] + tail2;
      SerializeCons(pre[0], tail);
      SerializeCons(pre[0], tail2);
      var a := Pair(pre[0]) + "&";
      NoKeyInFirstPair(pre[0], Serialize(tail), Encode(k));
      ReplaceAfter(a, Serialize(tail), pat, rep);
      RenameFirstPair(pre[1..], k, k2, v, post);
    }
  }

  // ---------------------------------------------------------------------------
  // The route

  /** The fixed `select` list. */
  const Select := "player_id,full_name,position,season,category,def_tier,total_yards,games,per_game"

  /** `...(x ? { key: prefix + x } : {})`: a property only when `x` is
      truthy. An omitted property and an undefined one are the same to
      `q()`, so the record keeps every name and leaves the value out. */
  function Filter(prefix: string, x: Option<string>): (v: Option<string>)
    ensures v.Some? <==> x.Some? && x.value != ""
  {
    if x.Some? && x.value != "" then Some(prefix + x.value) else None
  }

  /** The record handed to `q()`, in property order. */
  function LeaderboardRecord(sp: seq<Entry>): seq<(string, Option<string>)> {
    RecordPre(sp) + [("season2", Filter("lte.", Lookup(sp, "seasonTo")))] + RecordPost(sp)
  }

  function RecordPre(sp: seq<Entry>): seq<(string, Option<string>)> {
    [("select", Some(Select))]
    + [("position", Filter("eq.", Lookup(sp, "position")))]
    + [("category", Filter("eq.", Lookup(sp, "category")))]
    + [("def_tier", Filter("eq.", Lookup(sp, "defTier")))]
    + [("season", Filter("gte.", Lookup(sp, "seasonFrom")))]
  }

  function RecordPost(sp: seq<Entry>): seq<(string, Option<string>)> {
    [("order", Some("per_game.desc.nullslast"))] + [("limit", Some(Lookup(sp, "limit").GetOr("25")))]
  }

  /** A parameter when `x` is truthy, nothing otherwise. */
  function Param(key: string, prefix: string, x: Option<string>): (ps: seq<Entry>)
    ensures |ps| <= 1
    ensures ps != [] <==> x.Some? && x.value != ""
    ensures ps != [] ==> ps[0] == (key, prefix + x.value)
  {
    if x.Some? && x.value != "" then [(key, prefix + x.value)] else []
  }

  /** The parameters PostgREST receives: the fixed select list, an
      equality per present filter, `season=gte.` and `season=lte.` bounds,
      the fixed order, and the limit (25 by default; an empty one is
      dropped). */
  function LeaderboardParams(sp: seq<Entry>): seq<Entry> {
    LeaderboardPre(sp) + Param("season", "lte.", Lookup(sp, "seasonTo")) + LeaderboardPost(sp)
  }

  /** The parameters before the upper season bound. */
  function LeaderboardPre(sp: seq<Entry>): seq<Entry> {
    [("select", Select)]
    + Param("position", "eq.", Lookup(sp, "position"))
    + Param("category", "eq.", Lookup(sp, "category"))
    + Param("def_tier", "eq.", Lookup(sp, "defTier"))
    + Param("season", "gte.", Lookup(sp, "seasonFrom"))
  }

  /** The parameters after the upper season bound. */
  function LeaderboardPost(sp: seq<Entry>): seq<Entry> {
    [("order", "per_game.desc.nullslast")] + Param("limit", "", Some(Lookup(sp, "limit").GetOr("25")))
  }

  /** The query string the route sends: `q(...).toString()` with the first
      `season2=` replaced. */
  function LeaderboardQuery(sp: seq<Entry>): string {
    ReplaceFirst(Serialize(Present(LeaderboardRecord(sp))), "season2=", "season=")
  }

  lemma {:induction false} PresentAppend(a: seq<(string, Option<string>)>, b: seq<(string, Option<string>)>)
    ensures Present(a + b) == Present(a) + Present(b)
    decreases |b|
  {
    if b != [] {
      var n := |b| - 1;
      var (k, v) := b[n];
      var last: seq<Entry> := if v.Some? && v.value != "" then [(k, v.value)] else [];
      assert (a + b)[..|a + b| - 1] == a + b[..n];
      assert (a + b)[|a + b| - 1] == b[n];
      assert Present(a + b) == Present(a + b[..n]) + last;
      assert Present(b) == Present(b[..n]) + last;
      PresentAppend(a, b[..n]);
      assert Present(a) + Present(b[..n]) + last == Present(a) + (Present(b[..n]) + last);
    } else {
      assert a + b == a;
    }
  }

  lemma PresentOne(k: string, v: Option<string>)
    ensures Present([(k, v)]) == if v.Some? && v.value != "" then [(k, v.value)] else []
  {
    assert [(k, v)][..0] == [];
  }

  lemma PresentFilter(k: string, prefix: string, x: Option<string>)
    requires prefix != ""
    ensures Present([(k, Filter(prefix, x))]) == Param(k, prefix, x)
  {
    PresentOne(k, Filter(prefix, x));
  }

  lemma PresentRecordPre(sp: seq<Entry>)
    ensures Present(RecordPre(sp)) == LeaderboardPre(sp)
  {
    var r0 := [("select", Some(Select))];
    var r1 := [("position", Filter("eq.", Lookup(sp, "position")))];
    var r2 := [("category", Filter("eq.", Lookup(sp, "category")))];
    var r3 := [("def_tier", Filter("eq.", Lookup(sp, "defTier")))];
    var r4 := [("season", Filter("gte.", Lookup(sp, "seasonFrom")))];
    PresentAppend(r0 + r1 + r2 + r3, r4);
    PresentAppend(r0 + r1 + r2, r3);
    PresentAppend(r0 + r1, r2);
    PresentAppend(r0, r1);
    PresentOne("select", Some(Select));
    PresentFilter("position", "eq.", Lookup(sp, "position"));
    PresentFilter("category", "eq.", Lookup(sp, "category"));
    PresentFilter("def_tier", "eq.", Lookup(sp, "defTier"));
    PresentFilter("season", "gte.", Lookup(sp, "seasonFrom"));
  }

  lemma PresentRecordPost(sp: seq<Entry>)
    ensures Present(RecordPost(sp)) == LeaderboardPost(sp)
  {
    var l := Lookup(sp, "limit").GetOr("25");
    PresentAppend([("order", Some("per_game.desc.nullslast"))], [("limit", Some(l))]);
    PresentOne("order", Some("per_game.desc.nullslast"));
    PresentOne("limit", Some(l));
    assert "" + l == l;
  }

  /** What `q()` keeps of the leaderboard record, still under `season2`. */
  lemma LeaderboardPresent(sp: seq<Entry>)
    ensures Present(LeaderboardRecord(sp))
         == LeaderboardPre(sp) + Param("season2", "lte.", Lookup(sp, "seasonTo")) + LeaderboardPost(sp)
  {
    var r5 := [("season2", Filter("lte.", Lookup(sp, "seasonTo")))];
    PresentAppend(RecordPre(sp) + r5, RecordPost(sp));
    PresentAppend(RecordPre(sp), r5);
    PresentRecordPre(sp);
    PresentRecordPost(sp);
    PresentFilter("season2", "lte.", Lookup(sp, "seasonTo"));
  }

  /** Every name the route can emit before the season bound. */
  predicate FixedName(k: string) {
    k == "select" || k == "position" || k == "category" || k == "def_tier" || k == "season"
    || k == "order" || k == "limit"
  }

  lemma FixedNamesDoNotEndInSeason2(es: seq<Entry>)
    requires forall e :: e in es ==> FixedName(e.0)
    ensures forall e :: e in es ==> !EndsWith(Encode(e.0), "season2")
  {
    forall e | e in es ensures !EndsWith(Encode(e.0), "season2") {
      var k := e.0;
      assert forall i :: 0 <= i < |k| ==> IsUnreserved(k[i]);
      assert Encode(k) == k;
    }
  }

  lemma EncodeUnreserved(k: string)
    requires forall i :: 0 <= i < |k| ==> IsUnreserved(k[i])
    ensures Encode(k) == k
  {
  }

  /** The store receives the season range as two `season` bounds, each
      filter at most once and only when present, the fixed select list and
      order, and the limit. */
  lemma LeaderboardQueryParams(sp: seq<Entry>)
    ensures Parse(LeaderboardQuery(sp)) == LeaderboardParams(sp)
  {
    var pre := LeaderboardPre(sp);
    var post := LeaderboardPost(sp);
    var upperText := Lookup(sp, "seasonTo");
    var upper := Param("season2", "lte.", upperText);
    var q := LeaderboardQuery(sp);
    assert q == ReplaceFirst(Serialize(pre + upper + post), "season2=", "season=") by {
      LeaderboardPresent(sp);
    }
    var expected := pre + Param("season", "lte.", upperText) + post;
    assert LeaderboardParams(sp) == expected;
    FixedNames(sp);
    if upperText.Some? && upperText.value != "" {
      UpperBoundBranch(pre, upperText.value, post, upper, q, expected);
    } else {
      NoUpperBoundBranch(pre, post, upper, q, expected);
    }
  }

  lemma NoUpperBoundBranch(pre: seq<Entry>, post: seq<Entry>, upper: seq<Entry>, q: string, expected: seq<Entry>)
    requires forall e :: e in pre + post ==> FixedName(e.0)
    requires upper == []
    requires q == ReplaceFirst(Serialize(pre + upper + post), "season2=", "season=")
    requires expected == pre + [] + post
    ensures Parse(q) == expected
  {
    AppendEmpty(pre, upper, post);
    AppendEmpty(pre, [], post);
    QueryWithoutUpperBound(pre + post, q);
  }

  lemma AppendEmpty<T>(a: seq<T>, u: seq<T>, b: seq<T>)
    requires u == []
    ensures a + u + b == a + b
  {
  }


  lemma UpperBoundBranch(pre: seq<Entry>, upperText: string, post: seq<Entry>, upper: seq<Entry>, q: string, expected: seq<Entry>)
    requires forall e :: e in pre ==> FixedName(e.0)
    requires upper == [("season2", "lte." + upperText)]
    requires q == ReplaceFirst(Serialize(pre + upper + post), "season2=", "season=")
    requires expected == pre + [("season", "lte." + upperText)] + post
    ensures Parse(q) == expected
  {
    QueryWithUpperBound(pre, upperText, post);
  }

  lemma FixedNames(sp: seq<Entry>)
    ensures forall e :: e in LeaderboardPre(sp) ==> FixedName(e.0)
    ensures forall e :: e in LeaderboardPre(sp) + LeaderboardPost(sp) ==> FixedName(e.0)
  {
  }

  lemma SeasonNames()
    ensures Encode("season2") + "=" == "season2="
    ensures Encode("season") + "=" == "season="
  {
    Season2Name();
    SeasonName();
  }

  lemma Season2Name()
    ensures Encode("season2") + "=" == "season2="
  {
    EncodeUnreserved("season2");
  }

  lemma SeasonName()
    ensures Encode("season") + "=" == "season="
  {
    EncodeUnreserved("season");
  }

  lemma QueryWithUpperBound(pre: seq<Entry>, upperText: string, post: seq<Entry>)
    requires forall e :: e in pre ==> FixedName(e.0)
    ensures Parse(ReplaceFirst(Serialize(pre + [("season2", "lte." + upperText)] + post), "season2=", "season="))
         == pre + [("season", "lte." + upperText)] + post
  {
    var v := "lte." + upperText;
    var renamed := pre + [("season", v)] + post;
    assert ReplaceFirst(Serialize(pre + [("season2", v)] + post), "season2=", "season=") == Serialize(renamed) by {
      FixedNamesDoNotEndInSeason2(pre);
      EncodeUnreserved("season2");
      SeasonNames();
      RenameFirstPair(pre, "season2", "season", v, post);
    }
    ParseSerialize(renamed);
  }

  lemma QueryWithoutUpperBound(es: seq<Entry>, q: string)
    requires forall e :: e in es ==> FixedName(e.0)
    requires q == ReplaceFirst(Serialize(es), "season2=", "season=")
    ensures Parse(q) == es
  {
    var s := Serialize(es);
    assert forall i :: !OccursAt(s, i, "season2=") by {
      FixedNamesDoNotEndInSeason2(es);
      Season2IsEncoded();
      NoKeyInQuery(es, "season2");
      assert "season2" + "=" == "season2=";
    }
    ReplaceNothing(s, "season2=", "season=");
    ParseSerialize(es);
  }

  lemma Season2IsEncoded()
    ensures forall k :: 0 <= k < |"season2"| ==> IsEncodedChar("season2"[k])
  {
  }



  /** `GET /api/situations/leaderboard`: build the query, fetch the view,
      and answer with the rows, a store failure or an internal error.
      `url` is the address fetched. */
  method LeaderboardGet<J>(sp: seq<Entry>, supabaseUrl: string, fetch: string -> Fetched<J>)
    returns (reply: RouteReply<J>, url: string)
    ensures url == supabaseUrl + "/rest/v1/v_situational_leaderboard?" + LeaderboardQuery(sp)
    ensures match fetch(url)
      case Rejected(m) => reply == InternalError(m)
      case Response(status, text, json) =>
        if !IsOk(status) then reply == StoreFailure(status, text)
        else if json.Failure? then reply == InternalError(json.message)
        else reply == Rows(json.value)
  {
    var record := LeaderboardRecord(sp);
    assert DistinctKeys(record);
    var params := Q(record);
    var query := ReplaceFirst(params.ToString(), "season2=", "season=");
    url := supabaseUrl + "/rest/v1/v_situational_leaderboard?" + query;
    var resp := fetch(url);
    match resp
    case Rejected(m) =>
      reply := InternalError(m);
    case Response(status, text, json) =>
      if !IsOk(status) {
        reply := StoreFailure(status, text);
      } else if json.Failure? {
        reply := InternalError(json.message);
      } else {
        reply := Rows(json.value);
      }
  }

  /** A season range reaches the store as two adjacent `season` bounds,
      the lower one first, and never under the placeholder name. */
  lemma SeasonRange(sp: seq<Entry>, lowerText: string, upperText: string)
    requires Lookup(sp, "seasonFrom") == Some(lowerText) && lowerText != ""
    requires Lookup(sp, "seasonTo") == Some(upperText) && upperText != ""
    ensures var ps := Parse(LeaderboardQuery(sp));
      !HasKey(ps, "season2")
      && exists i :: 0 <= i < |ps| - 1 && ps[i] == ("season", "gte." + lowerText) && ps[i + 1] == ("season", "lte." + upperText)
  {
    LeaderboardQueryParams(sp);
    FixedNames(sp);
    var pre := LeaderboardPre(sp);
    var post := LeaderboardPost(sp);
    assert LeaderboardParams(sp) == pre + [("season", "lte." + upperText)] + post;
    PreEndsWithLowerBound(sp, lowerText);
    AdjacentBounds(pre, post, lowerText, upperText);
  }

  /** The parameters before the upper bound end with the lower bound. */
  lemma PreEndsWithLowerBound(sp: seq<Entry>, lowerText: string)
    requires Lookup(sp, "seasonFrom") == Some(lowerText) && lowerText != ""
    ensures var pre := LeaderboardPre(sp);
      pre != [] && pre[|pre| - 1] == ("season", "gte." + lowerText)
  {
  }

  /** An upper bound placed right after a lower bound, among fixed names. */
  lemma AdjacentBounds(pre: seq<Entry>, post: seq<Entry>, lowerText: string, upperText: string)
    requires pre != [] && pre[|pre| - 1] == ("season", "gte." + lowerText)
    requires forall e :: e in pre + post ==> FixedName(e.0)
    ensures var ps := pre + [("season", "lte." + upperText)] + post;
      !HasKey(ps, "season2")
      && exists i :: 0 <= i < |ps| - 1 && ps[i] == ("season", "gte." + lowerText) && ps[i + 1] == ("season", "lte." + upperText)
  {
    var ps := pre + [("season", "lte." + upperText)] + post;
    var i := |pre| - 1;
    assert ps[i] == pre[i] && ps[i + 1] == ("season", "lte." + upperText);
    forall e | e in ps ensures e.0 != "season2" {
      if e !in pre + post {
        assert e == ("season", "lte." + upperText);
      }
    }
  }
}
