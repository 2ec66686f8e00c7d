/** Whitespace, trimming and the non-whitespace content of a string. */
module Text {

  /** The characters with the Unicode property White_Space, as `char::is_whitespace` tests. */
  predicate IsSpace(c: char) {
    || '\U{0009}' <= c <= '\U{000D}'
    || c == ' ' || c == '\U{0085}' || c == '\U{00A0}' || c == '\U{1680}'
    || '\U{2000}' <= c <= '\U{200A}'
    || c == '\U{2028}' || c == '\U{2029}' || c == '\U{202F}' || c == '\U{205F}' || c == '\U{3000}'
  }

  function TrimStart(s: string): (r: string) {
    if s != [] && IsSpace(s[0]) then TrimStart(s[1..]) else s
  }

  function TrimEnd(s: string): (r: string) {
    if s != [] && IsSpace(s[|s| - 1]) then TrimEnd(s[..|s| - 1]) else s
  }

  function Trim(s: string): (r: string) {
    TrimEnd(TrimStart(s))
  }

  /** The non-whitespace characters of `s`, in order. */
  function Ink(s: string): (r: string) {
    if s == [] then [] else (if IsSpace(s[0]) then [] else [s[0]]) + Ink(s[1..])
  }

  ghost predicate Trimmed(s: string) {
    s != [] ==> !IsSpace(s[0]) && !IsSpace(s[|s| - 1])
  }

  ghost predicate IsSuffix(t: string, s: string) {
    |t| <= |s| && t == s[|s| - |t|..]
  }

  /** The last `n` characters, or all if there are fewer. */
  ghost function Last(s: string, n: nat): string { if |s| <= n then s else s[|s| - n..] }

  lemma {:induction false} InkConcat(a: string, b: string)
    ensures Ink(a + b) == Ink(a) + Ink(b)
  {
    if a == [] {
      assert a + b == b;
    } else {
      assert (a + b)[1..] == a[1..] + b;
      InkConcat(a[1..], b);
    }
  }

  lemma SuffixOfRest(t: string, s: string)
    requires s != [] && IsSuffix(t, s[1..])
    ensures IsSuffix(t, s)
  {
  }

  lemma {:induction false} InkTrimStart(s: string)
    ensures Ink(TrimStart(s)) == Ink(s) && IsSuffix(TrimStart(s), s)
    ensures TrimStart(s) != [] ==> !IsSpace(TrimStart(s)[0])
  {
    if s != [] && IsSpace(s[0]) {
      InkTrimStart(s[1..]);
      SuffixOfRest(TrimStart(s[1..]), s);
    }
  }

  lemma {:induction false} InkTrimEnd(s: string)
    ensures Ink(TrimEnd(s)) == Ink(s) && TrimEnd(s) <= s
    ensures TrimEnd(s) != [] ==> !IsSpace(TrimEnd(s)[|TrimEnd(s)| - 1])
  {
    if s != [] && IsSpace(s[|s| - 1]) {
      InkTrimEnd(s[..|s| - 1]);
      assert s == s[..|s| - 1] + [s[|s| - 1]];
      InkConcat(s[..|s| - 1], [s[|s| - 1]]);
    }
  }

  /** Trimming keeps the ink, never lengthens, and leaves a trimmed string. */
  lemma TrimFacts(s: string)
    ensures Ink(Trim(s)) == Ink(s) && |Trim(s)| <= |s| && Trimmed(Trim(s))
  {
    InkTrimStart(s);
    InkTrimEnd(TrimStart(s));
  }

  /** A string is blank exactly when it has no ink. */
  lemma BlankHasNoInk(s: string)
    ensures Trim(s) == [] <==> Ink(s) == []
  {
    TrimFacts(s);
  }
}
