/** `URLSearchParams` as the routes and the page use it: an ordered list of
    name/value pairs, `get` (the first value under a name), `set` (replace
    the first pair under a name and drop the others, or append), and
    `toString()`, the application/x-www-form-urlencoded serializer of the
    WHATWG URL Standard. `parse` is the same standard's parser, the one that
    fills `url.searchParams` on the receiving side. */
module UrlParams {
  import opened Wrappers

  type Entry = (string, string)

  // ---------------------------------------------------------------------------
  // The list of pairs

  predicate HasKey(es: seq<Entry>, k: string) {
    exists i :: 0 <= i < |es| && es[i].0 == k
  }

  /** `get(k)`: the value of the first pair named `k`. */
  function Lookup(es: seq<Entry>, k: string): (r: Option<string>)
    ensures r.None? <==> !HasKey(es, k)
    ensures r.Some? ==> (k, r.value) in es
  {
    if es == [] then None
    else if es[0].0 == k then Some(es[0].1)
    else
      var r := Lookup(es[1..], k);
      assert HasKey(es, k) <==> HasKey(es[1..], k) by {
        assert forall i :: 0 < i < |es| ==> es[i] == es[1..][i - 1];
      }
      r
  }

  /** The pairs not named `k`, in order. */
  function Without(es: seq<Entry>, k: string): (r: seq<Entry>)
    ensures forall e :: e in r <==> e in es && e.0 != k
  {
    if es == [] then []
    else if es[0].0 == k then Without(es[1..], k)
    else [es[0]] + Without(es[1..], k)
  }

  /** `set(k, v)`: the first pair named `k` takes the value `v` and every
      later pair named `k` is removed; with no such pair, `(k, v)` is
      appended. */
  function SetEntry(es: seq<Entry>, k: string, v: string): seq<Entry> {
    if es == [] then [(k, v)]
    else if es[0].0 == k then [(k, v)] + Without(es[1..], k)
    else [es[0]] + SetEntry(es[1..], k, v)
  }

  lemma {:induction false} LookupWithout(es: seq<Entry>, k: string, k': string)
    requires k' != k
    ensures Lookup(Without(es, k), k') == Lookup(es, k')
  {
    if es != [] {
      LookupWithout(es[1..], k, k');
    }
  }

  /** How many pairs are named `k`. */
  function CountKey(es: seq<Entry>, k: string): nat {
    if es == [] then 0 else (if es[0].0 == k then 1 else 0) + CountKey(es[1..], k)
  }

  lemma {:induction false} CountWithout(es: seq<Entry>, k: string)
    ensures CountKey(Without(es, k), k) == 0
  {
    if es != [] {
      CountWithout(es[1..], k);
    }
  }

  /** After `set(k, v)`, `get(k)` is `v`, every other name reads as before,
      and `k` names exactly one pair. */
  lemma {:induction false} SetEntryLookup(es: seq<Entry>, k: string, v: string, k': string)
    ensures Lookup(SetEntry(es, k, v), k) == Some(v)
    ensures k' != k ==> Lookup(SetEntry(es, k, v), k') == Lookup(es, k')
    ensures CountKey(SetEntry(es, k, v), k) == 1
  {
    if es == [] {
    } else if es[0].0 == k {
      if k' != k {
        LookupWithout(es[1..], k, k');
      }
      CountWithout(es[1..], k);
      assert ([(k, v)] + Without(es[1..], k))[1..] == Without(es[1..], k);
    } else {
      SetEntryLookup(es[1..], k, v, k');
      assert ([es[0]] + SetEntry(es[1..], k, v))[1..] == SetEntry(es[1..], k, v);
    }
  }

  /** Setting a name that is not there appends the pair. */
  lemma {:induction false} SetEntryAppends(es: seq<Entry>, k: string, v: string)
    requires !HasKey(es, k)
    ensures SetEntry(es, k, v) == es + [(k, v)]
  {
    if es != [] {
      assert !HasKey(es[1..], k) by {
        assert forall i :: 0 <= i < |es[1..]| ==> es[1..][i] == es[i + 1];
      }
      SetEntryAppends(es[1..], k, v);
      assert es == [es[0]] + es[1..];
    }
  }

  // ---------------------------------------------------------------------------
  // Percent-encoding (application/x-www-form-urlencoded)

  /** Left as they are: ASCII letters and digits, `*`, `-`, `.` and `_`. */
  predicate IsUnreserved(c: char) {
    ('a' <= c <= 'z') || ('A' <= c <= 'Z') || ('0' <= c <= '9') || c == '*' || c == '-' || c == '.' || c == '_'
  }

  /** What can appear in an encoded name or value. */
  predicate IsEncodedChar(c: char) {
    IsUnreserved(c) || c == '+' || c == '%'
  }

  function HexDigit(d: nat): (c: char)
    requires d < 16
    ensures IsUnreserved(c)
  {
    if d < 10 then ('0' as int + d) as char else ('A' as int + d - 10) as char
  }

  function HexValue(c: char): Option<nat> {
    if '0' <= c <= '9' then Some(c as nat - '0' as nat)
    else if 'A' <= c <= 'F' then Some(c as nat - 'A' as nat + 10)
    else if 'a' <= c <= 'f' then Some(c as nat - 'a' as nat + 10)
    else None
  }

  predicate IsByte(b: nat) { b < 256 }

  /** The UTF-8 encoding of a Unicode scalar value. */
  function Utf8(c: char): (bs: seq<nat>)
    ensures 1 <= |bs| <= 4
    ensures forall i :: 0 <= i < |bs| ==> IsByte(bs[i])
  {
    var u := c as int;
    if u < 0x80 then [u]
    else if u < 0x800 then [0xC0 + u / 64, 0x80 + u % 64]
    else if u < 0x10000 then
      var q := u / 64;
      [0xE0 + q / 64, 0x80 + q % 64, 0x80 + u % 64]
    else
      var q := u / 64;
      var q2 := q / 64;
      assert q2 / 64 <= 4;
      [0xF0 + q2 / 64, 0x80 + q2 % 64, 0x80 + q % 64, 0x80 + u % 64]
  }

  /** `%XY` with upper-case hexadecimal digits. */
  function PercentByte(b: nat): (t: string)
    requires IsByte(b)
    ensures |t| == 3 && forall i :: 0 <= i < 3 ==> IsEncodedChar(t[i])
  {
    ['%', HexDigit(b / 16), HexDigit(b % 16)]
  }

  function PercentBytes(bs: seq<nat>): (t: string)
    requires forall i :: 0 <= i < |bs| ==> IsByte(bs[i])
    ensures |t| == 3 * |bs|
    ensures forall i :: 0 <= i < |t| ==> IsEncodedChar(t[i])
  {
    if bs == [] then [] else PercentByte(bs[0]) + PercentBytes(bs[1..])
  }

  /** One character of a name or value as the serializer writes it. */
  function EncodeChar(c: char): (t: string)
    ensures 1 <= |t| && forall i :: 0 <= i < |t| ==> IsEncodedChar(t[i])
    ensures IsUnreserved(c) ==> t == [c]
  {
    if IsUnreserved(c) then [c]
    else if c == ' ' then "+"
    else PercentBytes(Utf8(c))
  }

  /** A name or value as the serializer writes it; never contains `=` or `&`. */
  function Encode(s: string): (t: string)
    ensures forall i :: 0 <= i < |t| ==> IsEncodedChar(t[i])
    ensures (forall i :: 0 <= i < |s| ==> IsUnreserved(s[i])) ==> t == s
  {
    if s == [] then []
    else
      assert forall i :: 0 < i < |s| ==> s[1..][i - 1] == s[i];
      EncodeChar(s[0]) + Encode(s[1..])
  }

  function Pair(e: Entry): string {
    Encode(e.0) + "=" + Encode(e.1)
  }

  /** `toString()`: the encoded pairs joined with `&`. */
  function Serialize(es: seq<Entry>): string {
    if es == [] then ""
    else if |es| == 1 then Pair(es[0])
    else Pair(es[0]) + "&" + Serialize(es[1..])
  }

  // ---------------------------------------------------------------------------
  // Parsing

  /** The byte written as `%XY` at `i`, if there is one. */
  function ByteAt(t: string, i: nat): Option<nat> {
    if i + 3 <= |t| && t[i] == '%' && HexValue(t[i + 1]).Some? && HexValue(t[i + 2]).Some? then
      Some(16 * HexValue(t[i + 1]).value + HexValue(t[i + 2]).value)
    else None
  }

  /** A UTF-8 continuation byte written at `i`, as its six payload bits. */
  function ContAt(t: string, i: nat): Option<nat> {
    match ByteAt(t, i)
    case Some(b) => if 0x80 <= b < 0xC0 then Some(b - 0x80) else None
    case None => None
  }

  predicate IsScalar(u: int) {
    0 <= u < 0x11_0000 && !(0xD800 <= u < 0xE000)
  }

  const Replacement: char := 0xFFFD as char

  /** Decodes the character at the front of `t`: a `+` is a space, a
      percent-escaped UTF-8 sequence is its character, and a stray byte is
      U+FFFD; anything else stands for itself. Returns the character and how
      many characters of `t` it took. */
  function DecodeStep(t: string): (r: (char, nat))
    requires t != []
    ensures 1 <= r.1 <= |t|
  {
    if t[0] == '+' then (' ', 1)
    else match ByteAt(t, 0)
      case None => (t[0], 1)
      case Some(b0) =>
        if b0 < 0x80 then (b0 as char, 3)
        else if 0xC2 <= b0 < 0xE0 && ContAt(t, 3).Some? then
          ((((b0 - 0xC0) * 64) + ContAt(t, 3).value) as char, 6)
        else if 0xE0 <= b0 < 0xF0 && ContAt(t, 3).Some? && ContAt(t, 6).Some? then
          var u := ((b0 - 0xE0) * 64 + ContAt(t, 3).value) * 64 + ContAt(t, 6).value;
          if 0x800 <= u && IsScalar(u) then (u as char, 9) else (Replacement, 3)
        else if 0xF0 <= b0 < 0xF5 && ContAt(t, 3).Some? && ContAt(t, 6).Some? && ContAt(t, 9).Some? then
          var u := (((b0 - 0xF0) * 64 + ContAt(t, 3).value) * 64 + ContAt(t, 6).value) * 64 + ContAt(t, 9).value;
          if 0x1_0000 <= u && IsScalar(u) then (u as char, 12) else (Replacement, 3)
        else (Replacement, 3)
  }

  /** A name or value as the parser reads it. */
  function Decode(t: string): string
    decreases |t|
  {
    if t == [] then [] else
      var (c, n) := DecodeStep(t);
      [c] + Decode(t[n..])
  }

  /** The index of the first `c` in `s`, or `|s|`. */
  function IndexOf(s: string, c: char): (n: nat)
    ensures n <= |s|
    ensures forall i :: 0 <= i < n ==> s[i] != c
    ensures n < |s| ==> s[n] == c
  {
    if s == [] then 0 else if s[0] == c then 0 else 1 + IndexOf(s[1..], c)
  }

  /** One `name=value` piece: split at the first `=`; no `=` means an empty value. */
  function ParsePiece(p: string): Entry {
    var n := IndexOf(p, '=');
    (Decode(p[..n]), if n < |p| then Decode(p[n + 1..]) else "")
  }

  /** The query string split at `&`, empty pieces skipped. */
  function Parse(q: string): seq<Entry>
    decreases |q|
  {
    if q == [] then []
    else
      var n := IndexOf(q, '&');
      var rest := if n < |q| then Parse(q[n + 1..]) else [];
      if n == 0 then rest else [ParsePiece(q[..n])] + rest
  }

  // ---------------------------------------------------------------------------
  // The parser reads back what the serializer writes

  lemma HexRoundTrip(d: nat)
    requires d < 16
    ensures HexValue(HexDigit(d)) == Some(d)
  {
  }

  lemma {:induction false} ByteAtPercentBytes(bs: seq<nat>, k: nat, rest: string)
    requires forall i :: 0 <= i < |bs| ==> IsByte(bs[i])
    requires k < |bs|
    ensures ByteAt(PercentBytes(bs) + rest, 3 * k) == Some(bs[k])
  {
    var tail := PercentBytes(bs[1..]) + rest;
    assert PercentBytes(bs) + rest == PercentByte(bs[0]) + tail;
    if k == 0 {
      ByteAtFront(bs[0], tail);
    } else {
      ByteAtPercentBytes(bs[1..], k - 1, rest);
      ByteAtShift(PercentByte(bs[0]), tail, 3 * (k - 1));
    }
  }

  lemma ByteAtFront(b: nat, tail: string)
    requires IsByte(b)
    ensures ByteAt(PercentByte(b) + tail, 0) == Some(b)
  {
    var t := PercentByte(b) + tail;
    assert t[0] == '%' && t[1] == HexDigit(b / 16) && t[2] == HexDigit(b % 16);
    HexRoundTrip(b / 16);
    HexRoundTrip(b % 16);
  }

  lemma ByteAtShift(a: string, t: string, i: nat)
    ensures ByteAt(a + t, |a| + i) == ByteAt(t, i)
  {
    if i + 3 <= |t| {
      assert (a + t)[|a| + i] == t[i];
      assert (a + t)[|a| + i + 1] == t[i + 1];
      assert (a + t)[|a| + i + 2] == t[i + 2];
    }
  }

  lemma DecodeStepOfChar(c: char, rest: string)
    ensures DecodeStep(EncodeChar(c) + rest) == (c, |EncodeChar(c)|)
  {
    var u := c as int;
    if IsUnreserved(c) {
      assert (EncodeChar(c) + rest)[0] == c;
    } else if c == ' ' {
    } else if u < 0x80 {
      DecodeStepOneByte(c, rest);
    } else if u < 0x800 {
      DecodeStepTwoBytes(c, rest);
    } else if u < 0x1_0000 {
      DecodeStepThreeBytes(c, rest);
    } else {
      DecodeStepFourBytes(c, rest);
    }
  }

  lemma DecodeStepOneByte(c: char, rest: string)
    requires !IsUnreserved(c) && c != ' ' && c as int < 0x80
    ensures DecodeStep(EncodeChar(c) + rest) == (c, 3)
  {
    var t := EncodeChar(c) + rest;
    assert t == PercentBytes(Utf8(c)) + rest;
    ByteAtPercentBytes(Utf8(c), 0, rest);
  }

  lemma DecodeStepTwoBytes(c: char, rest: string)
    requires 0x80 <= c as int < 0x800
    ensures DecodeStep(EncodeChar(c) + rest) == (c, 6)
  {
    var u := c as int;
    var bs := Utf8(c);
    var t := EncodeChar(c) + rest;
    assert t == PercentBytes(bs) + rest;
    ByteAtPercentBytes(bs, 0, rest);
    ByteAtPercentBytes(bs, 1, rest);
    assert ByteAt(t, 0) == Some(0xC0 + u / 64);
    assert ContAt(t, 3) == Some(u % 64);
    assert (u / 64) * 64 + u % 64 == u;
  }

  lemma DecodeStepThreeBytes(c: char, rest: string)
    requires 0x800 <= c as int < 0x1_0000
    ensures DecodeStep(EncodeChar(c) + rest) == (c, 9)
  {
    var u := c as int;
    var q := u / 64;
    var t := EncodeChar(c) + rest;
    ThreeByteEscapes(c, rest);
    assert ContAt(t, 3) == Some(q % 64);
    assert ContAt(t, 6) == Some(u % 64);
    ThreeByteValue(u);
  }

  lemma ThreeByteEscapes(c: char, rest: string)
    requires 0x800 <= c as int < 0x1_0000
    ensures var u := c as int; var q := u / 64;
      var t := EncodeChar(c) + rest;
      ByteAt(t, 0) == Some(0xE0 + q / 64) && ByteAt(t, 3) == Some(0x80 + q % 64)
      && ByteAt(t, 6) == Some(0x80 + u % 64)
  {
    var bs := Utf8(c);
    assert EncodeChar(c) + rest == PercentBytes(bs) + rest;
    ByteAtPercentBytes(bs, 0, rest);
    ByteAtPercentBytes(bs, 1, rest);
    ByteAtPercentBytes(bs, 2, rest);
  }

  lemma ThreeByteValue(u: int)
    requires 0x800 <= u < 0x1_0000
    ensures var q := u / 64;
      0 <= q / 64 < 16 && (q / 64 * 64 + q % 64) * 64 + u % 64 == u
  {
  }

  lemma DecodeStepFourBytes(c: char, rest: string)
    requires 0x1_0000 <= c as int
    ensures DecodeStep(EncodeChar(c) + rest) == (c, 12)
  {
    var u := c as int;
    var q := u / 64;
    var q2 := q / 64;
    var t := EncodeChar(c) + rest;
    FourByteEscapes(c, rest);
    assert ContAt(t, 3) == Some(q2 % 64);
    assert ContAt(t, 6) == Some(q % 64);
    assert ContAt(t, 9) == Some(u % 64);
    FourByteValue(u);
  }

  lemma FourByteEscapes(c: char, rest: string)
    requires 0x1_0000 <= c as int
    ensures var u := c as int; var q := u / 64; var q2 := q / 64;
      var t := EncodeChar(c) + rest;
      ByteAt(t, 0) == Some(0xF0 + q2 / 64) && ByteAt(t, 3) == Some(0x80 + q2 % 64)
      && ByteAt(t, 6) == Some(0x80 + q % 64) && ByteAt(t, 9) == Some(0x80 + u % 64)
  {
    var bs := Utf8(c);
    assert EncodeChar(c) + rest == PercentBytes(bs) + rest;
    ByteAtPercentBytes(bs, 0, rest);
    ByteAtPercentBytes(bs, 1, rest);
    ByteAtPercentBytes(bs, 2, rest);
    ByteAtPercentBytes(bs, 3, rest);
  }

  lemma FourByteValue(u: int)
    requires 0x1_0000 <= u < 0x11_0000
    ensures var q := u / 64; var q2 := q / 64;
      0 <= q2 / 64 < 5 && ((q2 / 64 * 64 + q2 % 64) * 64 + q % 64) * 64 + u % 64 == u
  {
  }

  /** Decoding an encoded name or value gives it back. */
  lemma {:induction false} DecodeEncode(s: string)
    ensures Decode(Encode(s)) == s
  {
    if s != [] {
      var head := EncodeChar(s[0]);
      var t := Encode(s);
      assert t == head + Encode(s[1..]);
      DecodeStepOfChar(s[0], Encode(s[1..]));
      assert t[|head|..] == Encode(s[1..]);
      DecodeEncode(s[1..]);
    }
  }

  lemma ParsePiecePair(e: Entry)
    ensures ParsePiece(Pair(e)) == e
  {
    var p := Pair(e);
    var k := Encode(e.0);
    assert p[|k|] == '=';
    assert forall i :: 0 <= i < |k| ==> p[i] == k[i];
    assert IndexOf(p, '=') == |k|;
    assert p[..|k|] == k;
    assert p[|k| + 1..] == Encode(e.1);
    DecodeEncode(e.0);
    DecodeEncode(e.1);
  }

  lemma PairHasNoAmpersand(e: Entry)
    ensures forall i :: 0 <= i < |Pair(e)| ==> Pair(e)[i] != '&'
    ensures |Pair(e)| >= 1
  {
    var k := Encode(e.0);
    var v := Encode(e.1);
    assert forall i :: 0 <= i < |Pair(e)| ==> Pair(e)[i] == '=' || IsEncodedChar(Pair(e)[i]) by {
      assert forall i :: 0 <= i < |k| ==> Pair(e)[i] == k[i];
      assert forall i :: |k| < i < |Pair(e)| ==> Pair(e)[i] == v[i - |k| - 1];
    }
  }

  lemma ParseOnePiece(p: string)
    requires p != [] && forall i :: 0 <= i < |p| ==> p[i] != '&'
    ensures Parse(p) == [ParsePiece(p)]
  {
    assert IndexOf(p, '&') == |p|;
    assert p[..|p|] == p;
  }

  lemma ParsePieces(p: string, s: string)
    requires p != [] && forall i :: 0 <= i < |p| ==> p[i] != '&'
    ensures Parse(p + "&" + s) == [ParsePiece(p)] + Parse(s)
  {
    var q := p + "&" + s;
    assert forall i :: 0 <= i < |p| ==> q[i] == p[i];
    assert q[|p|] == '&';
    assert IndexOf(q, '&') == |p|;
    assert q[..|p|] == p;
    assert q[|p| + 1..] == s;
  }

  /** `url.searchParams` on the receiving side holds exactly the pairs the
      sender set, in order. */
  lemma {:induction false} ParseSerialize(es: seq<Entry>)
    ensures Parse(Serialize(es)) == es
  {
    if es != [] {
      PairHasNoAmpersand(es[0]);
      ParsePiecePair(es[0]);
      if |es| == 1 {
        assert Serialize(es) == Pair(es[0]);
        ParseOnePiece(Pair(es[0]));
        assert es == [es[0]];
      } else {
        assert Serialize(es) == Pair(es[0]) + "&" + Serialize(es[1..]);
        ParsePieces(Pair(es[0]), Serialize(es[1..]));
        ParseSerialize(es[1..]);
        assert es == [es[0]] + es[1..];
      }
    }
  }

  // ---------------------------------------------------------------------------
  // The object

  class SearchParams {
    var entries: seq<Entry>

    /** `new URLSearchParams()`. */
    constructor ()
      ensures entries == []
    {
      entries := [];
    }

    /** `new URLSearchParams({ k1: v1, ... })`: one pair per property, in
        order. */
    constructor FromRecord(record: seq<Entry>)
      ensures entries == record
    {
      entries := record;
    }

    function Get(k: string): Option<string>
      reads this
    {
      Lookup(entries, k)
    }

    method Set(k: string, v: string)
      modifies this
      ensures entries == SetEntry(old(entries), k, v)
    {
      entries := SetEntry(entries, k, v);
    }

    function ToString(): string
      reads this
    {
      Serialize(entries)
    }
  }

  // ---------------------------------------------------------------------------
  // q(): the route helper that drops absent and empty values

  /** The names of a record literal are distinct. */
  predicate DistinctKeys<V>(params: seq<(string, V)>) {
    forall i, j :: 0 <= i < j < |params| ==> params[i].0 != params[j].0
  }

  /** The pairs whose value is present and non-empty, in order. */
  function Present(params: seq<(string, Option<string>)>): seq<Entry> {
    if params == [] then []
    else
      var rest := Present(params[..|params| - 1]);
      var (k, v) := params[|params| - 1];
      if v.Some? && v.value != "" then rest + [(k, v.value)] else rest
  }

  /** Every pair `q()` keeps carries a name of the record. */
  lemma {:induction false} PresentNames(params: seq<(string, Option<string>)>)
    ensures forall e :: e in Present(params) ==> exists i :: 0 <= i < |params| && params[i].0 == e.0
  {
    if params != [] {
      var n := |params| - 1;
      PresentNames(params[..n]);
      forall e | e in Present(params) ensures exists i :: 0 <= i < |params| && params[i].0 == e.0 {
        if e in Present(params[..n]) {
          var i :| 0 <= i < n && params[..n][i].0 == e.0;
          assert params[i].0 == e.0;
        } else {
          assert params[n].0 == e.0;
        }
      }
    }
  }

  /** `q(params)` of app/api/situations/route.ts: a fresh `URLSearchParams`
      with `set(k, v)` for every property whose value is truthy. */
  method Q(params: seq<(string, Option<string>)>) returns (ps: SearchParams)
    requires DistinctKeys(params)
    ensures fresh(ps)
    ensures ps.entries == Present(params)
  {
    ps := new SearchParams();
    var i := 0;
    while i < |params|
      invariant 0 <= i <= |params|
      invariant ps.entries == Present(params[..i])
    {
      var (k, v) := params[i];
      if v.Some? && v.value != "" {
        assert params[..i + 1][..i] == params[..i];
        assert !HasKey(ps.entries, k) by {
          PresentNames(params[..i]);
          forall e | e in ps.entries ensures e.0 != k {
            var j :| 0 <= j < i && params[..i][j].0 == e.0;
          }
        }
        SetEntryAppends(ps.entries, k, v.value);
        ps.Set(k, v.value);
      } else {
        assert params[..i + 1][..i] == params[..i];
      }
      i := i + 1;
    }
    assert params[..|params|] == params;
  }

  /** What `q(params).get(k)` returns: a property's value when it is present
      and non-empty, and nothing otherwise. */
  lemma {:induction false} LookupPresent(params: seq<(string, Option<string>)>, i: nat)
    requires DistinctKeys(params) && i < |params|
    ensures Lookup(Present(params), params[i].0)
         == if params[i].1.Some? && params[i].1.value != "" then params[i].1 else None
  {
    var n := |params| - 1;
    var init := params[..n];
    assert DistinctKeys(init);
    if i == n {
      LookupPresentLast(params);
    } else {
      assert params[i] == init[i];
      LookupPresent(init, i);
      var (k, v) := params[n];
      if v.Some? && v.value != "" {
        LookupAppend(Present(init), k, v.value, params[i].0);
      }
    }
  }

  lemma LookupPresentLast(params: seq<(string, Option<string>)>)
    requires DistinctKeys(params) && params != []
    ensures var (k, v) := params[|params| - 1];
      Lookup(Present(params), k) == if v.Some? && v.value != "" then v else None
  {
    var n := |params| - 1;
    var init := params[..n];
    var (k, v) := params[n];
    assert !HasKey(Present(init), k) by {
      PresentNames(init);
      forall e | e in Present(init) ensures e.0 != k {
        var j :| 0 <= j < n && init[j].0 == e.0;
      }
    }
    if v.Some? && v.value != "" {
      LookupAppend(Present(init), k, v.value, k);
    }
  }

  lemma {:induction false} LookupAppend(es: seq<Entry>, k: string, v: string, k': string)
    ensures Lookup(es + [(k, v)], k') == if HasKey(es, k') then Lookup(es, k') else if k' == k then Some(v) else None
  {
    if es != [] {
      assert (es + [(k, v)])[1..] == es[1..] + [(k, v)];
      LookupAppend(es[1..], k, v, k');
      assert HasKey(es, k') <==> es[0].0 == k' || HasKey(es[1..], k') by {
        assert forall i :: 0 < i < |es| ==> es[i] == es[1..][i - 1];
      }
    }
  }

  /** `get` finds the value of a pair whose name no earlier pair has. */
  lemma {:induction false} LookupFirst(es: seq<Entry>, i: nat)
    requires i < |es| && forall j :: 0 <= j < i ==> es[j].0 != es[i].0
    ensures Lookup(es, es[i].0) == Some(es[i].1)
  {
    if i > 0 {
      assert es[1..][i - 1] == es[i];
      assert forall j :: 0 <= j < i - 1 ==> es[1..][j] == es[j + 1];
      LookupFirst(es[1..], i - 1);
    }
  }

  /** A name absent from the record is absent from `q(params)`. */
  lemma LookupPresentMissing(params: seq<(string, Option<string>)>, k: string)
    requires forall i :: 0 <= i < |params| ==> params[i].0 != k
    ensures Lookup(Present(params), k) == None
  {
    PresentNames(params);
  }
}
