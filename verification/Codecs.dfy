/** Percent-encoding of links, its decoder in the OAuth redirect, and the escaped cache keys. */
module Codecs {
  import opened Base
  import opened Joins

  // ---- Percent-encoding (RFC 3986, sections 2.1 and 2.3) -------------------------------------

  newtype Byte = b: int | 0 <= b < 256

  type Bytes = seq<Byte>

  const PERCENT: Byte := 37
  const PLUS: Byte := 43
  const SPACE: Byte := 32
  const AMPERSAND: Byte := 38
  const EQUALS: Byte := 61
  const QUESTION: Byte := 63

  /** Letters, digits, `-`, `.`, `_` and `~`. */
  predicate IsUnreserved(b: Byte) {
    65 <= b <= 90 || 97 <= b <= 122 || 48 <= b <= 57 || b == 45 || b == 46 || b == 95 || b == 126
  }

  function HexDigit(n: Byte): Byte
    requires n < 16
  {
    if n < 10 then 48 + n else 55 + n
  }

  /** `char::to_digit(16)`: either case. */
  function DigitValue(b: Byte): Option<Byte> {
    if 48 <= b <= 57 then Some(b - 48)
    else if 65 <= b <= 70 then Some(b - 55)
    else if 97 <= b <= 102 then Some(b - 87)
    else None
  }

  function EncodeByte(b: Byte): Bytes {
    if IsUnreserved(b) then [b] else [PERCENT, HexDigit(b / 16), HexDigit(b % 16)]
  }

  function Encode(s: Bytes): (r: Bytes) {
    if s == [] then [] else EncodeByte(s[0]) + Encode(s[1..])
  }

  /** A complete escape stands at the front of `s`. */
  predicate IsEscape(s: Bytes) {
    |s| > 2 && s[0] == PERCENT && DigitValue(s[1]).Some? && DigitValue(s[2]).Some?
  }

  function Decode(s: Bytes): (r: Bytes) {
    if s == [] then []
    else if IsEscape(s) then [DigitValue(s[1]).value * 16 + DigitValue(s[2]).value] + Decode(s[3..])
    else if s[0] == PLUS then [SPACE] + Decode(s[1..])
    else [s[0]] + Decode(s[1..])
  }

  method UrlEncode(s: Bytes) returns (out: Bytes)
    ensures out == Encode(s)
  {
    out := [];
    for k := 0 to |s|
      invariant out + Encode(s[k..]) == Encode(s)
    {
      var b := s[k];
      ghost var rest := s[k..];
      assert rest[0] == b && rest[1..] == s[k + 1..];
      ConcatAssociates(out, EncodeByte(b), Encode(rest[1..]));
      if IsUnreserved(b) {
        out := out + [b];
      } else {
        out := out + [PERCENT, HexDigit(b / 16), HexDigit(b % 16)];
      }
    }
  }

  function Unescape(hi: Byte, lo: Byte): Option<Byte> {
    if DigitValue(hi).Some? && DigitValue(lo).Some? then Some(DigitValue(hi).value * 16 + DigitValue(lo).value)
    else None
  }

  lemma DecodeAt(s: Bytes, i: nat)
    requires i < |s|
    ensures s[i] == PERCENT && i + 2 < |s| && Unescape(s[i + 1], s[i + 2]).Some? ==>
      Decode(s[i..]) == [Unescape(s[i + 1], s[i + 2]).value] + Decode(s[i + 3..])
    ensures !(s[i] == PERCENT && i + 2 < |s| && Unescape(s[i + 1], s[i + 2]).Some?) ==>
      Decode(s[i..]) == [if s[i] == PLUS then SPACE else s[i]] + Decode(s[i + 1..])
  {
    var rest := s[i..];
    assert rest[0] == s[i] && rest[1..] == s[i + 1..];
    if |rest| > 2 {
      assert rest[1] == s[i + 1] && rest[2] == s[i + 2] && rest[3..] == s[i + 3..];
    }
  }

  method PercentDecode(s: Bytes) returns (out: Bytes)
    ensures out == Decode(s)
  {
    out := [];
    var i := 0;
    while i < |s|
      invariant 0 <= i <= |s| && out + Decode(s[i..]) == Decode(s)
    {
      DecodeAt(s, i);
      ConcatAssociates(out, [if s[i] == PLUS then SPACE else s[i]], Decode(s[i + 1..]));
      if s[i] == PERCENT && i + 2 < |s| {
        var decoded := Unescape(s[i + 1], s[i + 2]);
        if decoded.Some? {
          ConcatAssociates(out, [decoded.value], Decode(s[i + 3..]));
          out := out + [decoded.value];
          i := i + 3;
        } else {
          out := out + [s[i]];
          i := i + 1;
        }
      } else if s[i] == PLUS {
        out := out + [SPACE];
        i := i + 1;
      } else {
        out := out + [s[i]];
        i := i + 1;
      }
    }
  }

  lemma HexRoundTrip(n: Byte)
    requires n < 16
    ensures DigitValue(HexDigit(n)) == Some(n)
  {
  }

  lemma DecodeOne(b: Byte, tail: Bytes)
    ensures Decode(EncodeByte(b) + tail) == [b] + Decode(tail)
  {
    var all := EncodeByte(b) + tail;
    if IsUnreserved(b) {
      assert all[1..] == tail;
    } else {
      HexRoundTrip(b / 16);
      HexRoundTrip(b % 16);
      assert all[3..] == tail;
    }
  }

  /** Decoding undoes encoding on every byte string, whatever follows. */
  lemma {:induction false} DecodeEncode(s: Bytes, rest: Bytes)
    ensures Decode(Encode(s) + rest) == s + Decode(rest)
  {
    if s == [] {
      assert Encode(s) + rest == rest;
    } else {
      var tail := Encode(s[1..]) + rest;
      ConcatAssociates(EncodeByte(s[0]), Encode(s[1..]), rest);
      DecodeOne(s[0], tail);
      DecodeEncode(s[1..], rest);
      ConcatAssociates([s[0]], s[1..], Decode(rest));
      assert [s[0]] + s[1..] == s;
    }
  }

  lemma {:induction false} RoundTrip(s: Bytes)
    ensures Decode(Encode(s)) == s
  {
    DecodeEncode(s, []);
    assert Encode(s) + [] == Encode(s) && s + [] == s;
  }

  /** The encoded form consists of unreserved bytes and percent signs only. */
  lemma {:induction false} EncodedAlphabet(s: Bytes)
    ensures forall b :: b in Encode(s) ==> IsUnreserved(b) || b == PERCENT
  {
    if s == [] {
    } else {
      EncodedAlphabet(s[1..]);
    }
  }

  /** The sixteen digits in upper and in lower case, as bytes. */
  const UPPER: Bytes := [48, 49, 50, 51, 52, 53, 54, 55, 56, 57, 65, 66, 67, 68, 69, 70]
  const LOWER: Bytes := [48, 49, 50, 51, 52, 53, 54, 55, 56, 57, 97, 98, 99, 100, 101, 102]

  /** A letter, a digit or one of `-._~` stands for itself, any other byte for its upper-case escape. */
  lemma EncodesAs(b: Byte)
    ensures Encode([b]) ==
      if 65 <= b <= 90 || 97 <= b <= 122 || 48 <= b <= 57 || b in {45, 46, 95, 126} then [b]
      else [37, UPPER[b / 16], UPPER[b % 16]]
  {
    assert EncodeByte(b) + Encode([]) == EncodeByte(b);
  }

  /** The digit for `n`, in upper or in lower case. */
  function HexOf(n: Byte, upper: bool): Byte
    requires n < 16
  {
    if upper then UPPER[n] else LOWER[n]
  }

  /** An escape stands for its byte, whatever the case of its digits. */
  lemma DecodesEscape(b: Byte, rest: Bytes, upper1: bool, upper2: bool)
    ensures Decode([37, HexOf(b / 16, upper1), HexOf(b % 16, upper2)] + rest) == [b] + Decode(rest)
  {
    var x, y := HexOf(b / 16, upper1), HexOf(b % 16, upper2);
    EitherCase(b / 16, upper1);
    EitherCase(b % 16, upper2);
    assert ([37, x, y] + rest)[3..] == rest;
  }

  /** A plus sign stands for a space, and any other byte for itself, even a percent sign that starts no
      complete escape. */
  lemma DecodesPlain(b: Byte, rest: Bytes)
    requires b == 37 ==> |rest| < 2 || rest[0] !in UPPER + LOWER || rest[1] !in UPPER + LOWER
    ensures Decode([b] + rest) == [if b == 43 then 32 else b] + Decode(rest)
  {
    assert ([b] + rest)[1..] == rest;
    if |rest| >= 2 {
      DigitsOnly(rest[0]);
      DigitsOnly(rest[1]);
    }
  }

  lemma EitherCase(n: Byte, upper: bool)
    requires n < 16
    ensures DigitValue(HexOf(n, upper)) == Some(n)
  {
  }

  lemma DigitsOnly(b: Byte)
    ensures DigitValue(b).Some? ==> b in UPPER + LOWER
  {
    if DigitValue(b).Some? {
      var n := DigitValue(b).value;
      assert UPPER[n] == b || LOWER[n] == b;
      assert (UPPER + LOWER)[n as int] == UPPER[n] && (UPPER + LOWER)[n as int + 16] == LOWER[n];
    }
  }

  // ---- The redirect's query ---------------------------------------------------------------------

  /** `split(sep)`: the pieces between separators, `piece` being the one under way. */
  function Split(piece: Bytes, s: Bytes, sep: Byte): (parts: seq<Bytes>)
    ensures parts != []
    decreases |s|
  {
    if s == [] then [piece]
    else if s[0] == sep then [piece] + Split([], s[1..], sep)
    else Split(piece + [s[0]], s[1..], sep)
  }

  /** The bytes before the first `sep`, and those after it if there is one (`splitn(2, sep)`). */
  function Before(s: Bytes, sep: Byte): Bytes {
    if s == [] || s[0] == sep then [] else [s[0]] + Before(s[1..], sep)
  }

  function Behind(s: Bytes, sep: Byte): Bytes {
    if s == [] then [] else if s[0] == sep then s[1..] else Behind(s[1..], sep)
  }

  const CODE: Bytes := [99, 111, 100, 101]
  const STATE: Bytes := [115, 116, 97, 116, 101]

  datatype Captured = Captured(code: Option<Bytes>, state: Option<Bytes>)

  /** One pair of the query; a later pair with the same key wins. */
  function Capture(c: Captured, pair: Bytes): Captured {
    var value := Decode(Behind(pair, EQUALS));
    if Before(pair, EQUALS) == CODE then c.(code := Some(value))
    else if Before(pair, EQUALS) == STATE then c.(state := Some(value))
    else c
  }

  function CaptureAll(pairs: seq<Bytes>): Captured {
    if pairs == [] then Captured(None, None)
    else Capture(CaptureAll(pairs[..|pairs| - 1]), pairs[|pairs| - 1])
  }

  /** `split('?').nth(1)`. */
  function QueryOf(target: Bytes): Bytes {
    var parts := Split([], target, QUESTION);
    if |parts| > 1 then parts[1] else []
  }

  method ParseQuery(target: Bytes) returns (c: Captured)
    ensures c == CaptureAll(Split([], QueryOf(target), AMPERSAND))
  {
    var pairs := Split([], QueryOf(target), AMPERSAND);
    c := Captured(None, None);
    for k := 0 to |pairs|
      invariant c == CaptureAll(pairs[..k])
    {
      assert pairs[..k + 1][..k] == pairs[..k];
      var key := Before(pairs[k], EQUALS);
      var value := Behind(pairs[k], EQUALS);
      if key == CODE {
        var decoded := PercentDecode(value);
        c := c.(code := Some(decoded));
      } else if key == STATE {
        var decoded := PercentDecode(value);
        c := c.(state := Some(decoded));
      }
    }
    assert pairs[..|pairs|] == pairs;
  }

  ghost predicate Avoids(s: Bytes, sep: Byte) { forall i :: 0 <= i < |s| ==> s[i] != sep }

  lemma {:induction false} SplitAround(piece: Bytes, s: Bytes, rest: Bytes, sep: Byte)
    requires Avoids(s, sep)
    ensures Split(piece, s + [sep] + rest, sep) == [piece + s] + Split([], rest, sep)
    ensures Split(piece, s, sep) == [piece + s]
    decreases |s|
  {
    var all := s + [sep] + rest;
    if s == [] {
      assert all[1..] == rest && piece + s == piece;
    } else {
      assert all[1..] == s[1..] + [sep] + rest;
      SplitAround(piece + [s[0]], s[1..], rest, sep);
      assert piece + [s[0]] + s[1..] == piece + s;
    }
  }

  lemma {:induction false} PairParts(key: Bytes, value: Bytes)
    requires Avoids(key, EQUALS)
    ensures Before(key + [EQUALS] + value, EQUALS) == key && Behind(key + [EQUALS] + value, EQUALS) == value
  {
    var all := key + [EQUALS] + value;
    if key == [] {
      assert all[1..] == value;
    } else {
      assert all[1..] == key[1..] + [EQUALS] + value;
      PairParts(key[1..], value);
    }
  }

  function Pair(key: Bytes, value: Bytes): Bytes { key + [EQUALS] + Encode(value) }

  /** The pairs as a query, the values percent-encoded. */
  function Query(pairs: seq<(Bytes, Bytes)>): Bytes
    requires pairs != []
  {
    if |pairs| == 1 then Pair(pairs[0].0, pairs[0].1)
    else Pair(pairs[0].0, pairs[0].1) + [AMPERSAND] + Query(pairs[1..])
  }

  /** The value of the last pair with this key. */
  function LastValue(pairs: seq<(Bytes, Bytes)>, key: Bytes): Option<Bytes> {
    if pairs == [] then None
    else if pairs[|pairs| - 1].0 == key then Some(pairs[|pairs| - 1].1)
    else LastValue(pairs[..|pairs| - 1], key)
  }

  /** Keys are plain: no separator occurs in them. */
  ghost predicate PlainKeys(pairs: seq<(Bytes, Bytes)>) {
    forall i :: 0 <= i < |pairs| ==>
      Avoids(pairs[i].0, QUESTION) && Avoids(pairs[i].0, AMPERSAND) && Avoids(pairs[i].0, EQUALS)
  }

  lemma PairAvoids(key: Bytes, value: Bytes, sep: Byte)
    requires Avoids(key, sep) && (sep == QUESTION || sep == AMPERSAND)
    ensures Avoids(Pair(key, value), sep)
  {
    EncodedAlphabet(value);
    forall i | 0 <= i < |Pair(key, value)| ensures Pair(key, value)[i] != sep {
      if i > |key| { assert Pair(key, value)[i] in Encode(value); }
    }
  }

  lemma {:induction false} QueryAvoids(pairs: seq<(Bytes, Bytes)>)
    requires pairs != [] && PlainKeys(pairs)
    ensures Avoids(Query(pairs), QUESTION)
  {
    PairAvoids(pairs[0].0, pairs[0].1, QUESTION);
    if |pairs| > 1 {
      QueryAvoids(pairs[1..]);
    }
  }

  /** The pairs, each as it stands in the query. */
  function Encoded(pairs: seq<(Bytes, Bytes)>): (r: seq<Bytes>)
    ensures |r| == |pairs|
  {
    seq(|pairs|, i requires 0 <= i < |pairs| => Pair(pairs[i].0, pairs[i].1))
  }

  lemma {:induction false} QuerySplits(pairs: seq<(Bytes, Bytes)>)
    requires pairs != [] && PlainKeys(pairs)
    ensures Split([], Query(pairs), AMPERSAND) == Encoded(pairs)
  {
    var first := Pair(pairs[0].0, pairs[0].1);
    PairAvoids(pairs[0].0, pairs[0].1, AMPERSAND);
    assert [] + first == first;
    if |pairs| == 1 {
      SplitAround([], first, [], AMPERSAND);
    } else {
      SplitAround([], first, Query(pairs[1..]), AMPERSAND);
      QuerySplits(pairs[1..]);
      assert Encoded(pairs) == [first] + Encoded(pairs[1..]);
    }
  }

  lemma {:induction false} CapturesLast(pairs: seq<(Bytes, Bytes)>)
    requires PlainKeys(pairs)
    ensures CaptureAll(Encoded(pairs)) == Captured(LastValue(pairs, CODE), LastValue(pairs, STATE))
  {
    if pairs == [] {
    } else {
      var n := |pairs| - 1;
      CapturesLast(pairs[..n]);
      assert Encoded(pairs)[..n] == Encoded(pairs[..n]);
      PairParts(pairs[n].0, Encode(pairs[n].1));
      RoundTrip(pairs[n].1);
    }
  }

  /** Parsing a redirect `path?key=value&...` gives back exactly the value of the last `code` and of the
      last `state`, whatever bytes the values are, in whatever order, and whatever pairs stand around
      them. */
  lemma QueryRoundTrip(path: Bytes, pairs: seq<(Bytes, Bytes)>)
    requires Avoids(path, QUESTION) && pairs != [] && PlainKeys(pairs)
    ensures CaptureAll(Split([], QueryOf(path + [QUESTION] + Query(pairs)), AMPERSAND))
         == Captured(LastValue(pairs, [99, 111, 100, 101]), LastValue(pairs, [115, 116, 97, 116, 101]))
  {
    QueryAvoids(pairs);
    SplitAround([], path, Query(pairs), QUESTION);
    SplitAround([], Query(pairs), [], QUESTION);
    assert [] + Query(pairs) == Query(pairs);
    QuerySplits(pairs);
    CapturesLast(pairs);
  }

  /** The redirect a server sends, `?code=...&state=...` or the other way round, gives both back. */
  lemma RedirectRoundTrip(path: Bytes, code: Bytes, state: Bytes)
    requires Avoids(path, QUESTION)
    ensures forall pairs | pairs in {[(CODE, code), (STATE, state)], [(STATE, state), (CODE, code)]} ::
      CaptureAll(Split([], QueryOf(path + [QUESTION] + Query(pairs)), AMPERSAND)) == Captured(Some(code), Some(state))
  {
    forall pairs | pairs in {[(CODE, code), (STATE, state)], [(STATE, state), (CODE, code)]}
      ensures CaptureAll(Split([], QueryOf(path + [QUESTION] + Query(pairs)), AMPERSAND))
           == Captured(Some(code), Some(state))
    {
      QueryRoundTrip(path, pairs);
      assert pairs[..1] == [pairs[0]];
    }
  }

  // ---- Cache keys --------------------------------------------------------------------------------

  function EscapeChar(c: char): string {
    if c == '%' then "%25" else if c == ':' then "%3A" else [c]
  }

  function QueryKey(query: string): string {
    if query == [] then [] else EscapeChar(query[0]) + QueryKey(query[1..])
  }

  /** The three arms of the loop body. */
  method PushEscaped(start: string, ch: char) returns (out: string)
    ensures out == start + EscapeChar(ch)
  {
    out := start;
    match ch {
      case '%' => out := out + "%25";
      case ':' => out := out + "%3A";
      case _ => out := out + [ch];
    }
  }

  method BuildQueryKey(query: string) returns (out: string)
    ensures out == QueryKey(query)
  {
    out := [];
    for k := 0 to |query|
      invariant out + QueryKey(query[k..]) == QueryKey(query)
    {
      ghost var rest := query[k..];
      assert rest[0] == query[k] && rest[1..] == query[k + 1..];
      ConcatAssociates(out, EscapeChar(query[k]), QueryKey(rest[1..]));
      out := PushEscaped(out, query[k]);
    }
  }

  /** The left inverse: an escape is three characters, told apart by the second. */
  function Unkey(key: string): string {
    if key == [] then []
    else if key[0] == '%' && |key| > 2 then [if key[1] == '2' then '%' else ':'] + Unkey(key[3..])
    else [key[0]] + Unkey(key[1..])
  }

  /** `query_key` loses nothing and never emits the separator. */
  lemma {:induction false} QueryKeyInvertible(query: string)
    ensures Unkey(QueryKey(query)) == query && ':' !in QueryKey(query)
  {
    if query == [] {
    } else {
      var tail := QueryKey(query[1..]);
      QueryKeyInvertible(query[1..]);
      if query[0] == '%' || query[0] == ':' {
        assert QueryKey(query)[3..] == tail;
      } else {
        assert QueryKey(query)[1..] == tail;
      }
    }
  }

  function Digit(d: nat): char
    requires d < 10
  {
    ('0' as int + d) as char
  }

  function ValueOf(c: char): nat { if '0' <= c <= '9' then c as int - '0' as int else 0 }

  function Digits(n: nat): string {
    (if n < 10 then [] else Digits(n / 10)) + [Digit(n % 10)]
  }

  function Undigits(s: string): nat {
    if s == [] then 0 else Undigits(s[..|s| - 1]) * 10 + ValueOf(s[|s| - 1])
  }

  lemma {:induction false} DigitsInvertible(n: nat)
    ensures Undigits(Digits(n)) == n && ':' !in Digits(n)
  {
    var front: string := if n < 10 then [] else Digits(n / 10);
    UndigitsSnoc(front, n % 10);
    if n >= 10 {
      DigitsInvertible(n / 10);
    }
  }

  lemma UndigitsSnoc(front: string, d: nat)
    requires d < 10
    ensures Undigits(front + [Digit(d)]) == Undigits(front) * 10 + d && Digit(d) != ':'
  {
    assert (front + [Digit(d)])[..|front|] == front;
  }

  function ClampTopK(k: nat): nat { Max(1, Min(k, 50)) }

  function JoinKey(tenant: string, count: string, query: string): string {
    "search:" + (tenant + [':'] + (count + [':'] + query))
  }

  /** The result-cache key of a search. */
  function CacheKey(tenant: string, topK: nat, normalized: string): string {
    JoinKey(tenant, Digits(ClampTopK(topK)), QueryKey(normalized))
  }

  lemma JoinKeyDetermines(t1: string, d1: string, q1: string, t2: string, d2: string, q2: string)
    requires ':' !in t1 && ':' !in t2 && ':' !in d1 && ':' !in d2
    requires JoinKey(t1, d1, q1) == JoinKey(t2, d2, q2)
    ensures t1 == t2 && d1 == d2 && q1 == q2
  {
    var r1, r2 := d1 + [':'] + q1, d2 + [':'] + q2;
    assert JoinKey(t1, d1, q1)[7..] == t1 + [':'] + r1;
    assert JoinKey(t2, d2, q2)[7..] == t2 + [':'] + r2;
    FirstColon(t1, r1, t2, r2);
    FirstColon(d1, q1, d2, q2);
  }

  /** The result count of a search lies between 1 and 50; only counts outside of that are the same as
      another one. */
  lemma ClampedCounts(k1: nat, k2: nat)
    ensures ClampTopK(k1) == ClampTopK(k2) <==> k1 == k2 || (k1 >= 50 && k2 >= 50) || (k1 <= 1 && k2 <= 1)
    ensures 1 <= k1 <= 50 ==> ClampTopK(k1) == k1
  {
  }

  /** Two searches share a cache entry exactly when they agree on tenant, normalized query and result
      count, counts above 50 counting as 50 and zero as one (tenant ids are rendered without colons). */
  lemma CacheKeyDetermines(t1: string, k1: nat, q1: string, t2: string, k2: nat, q2: string)
    requires ':' !in t1 && ':' !in t2
    ensures CacheKey(t1, k1, q1) == CacheKey(t2, k2, q2)
       <==> t1 == t2 && q1 == q2 && (k1 == k2 || (k1 >= 50 && k2 >= 50) || (k1 <= 1 && k2 <= 1))
  {
    ClampedCounts(k1, k2);
    if CacheKey(t1, k1, q1) == CacheKey(t2, k2, q2) {
      var n1, n2 := ClampTopK(k1), ClampTopK(k2);
      DigitsInvertible(n1);
      DigitsInvertible(n2);
      QueryKeyInvertible(q1);
      QueryKeyInvertible(q2);
      JoinKeyDetermines(t1, Digits(n1), QueryKey(q1), t2, Digits(n2), QueryKey(q2));
    }
  }
}
