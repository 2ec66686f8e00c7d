/** One correlation pass over pending claims: exact-key deduplication and polarity conflicts. */
module Correlate {
  import opened Base
  import opened Text
  import opened Joins

  datatype Claim = Claim(id: Uuid, concept: Option<Uuid>, topic: Option<string>, normalized: Option<string>)

  datatype Status = Pending | Duplicate | NeedsReview | Settled

  datatype Report = Report(examined: nat, duplicates: nat, conflicts: nat)

  // ---- Keys -----------------------------------------------------------------------------

  function OrEmpty(s: Option<string>): string { if s.Some? then s.value else "" }

  /** `show` renders an identifier; nothing below depends on how. */
  function Subject(c: Claim, show: Uuid -> string): string {
    if c.concept.Some? then show(c.concept.value) else OrEmpty(c.topic)
  }

  function GroupKey(c: Claim, show: Uuid -> string): string {
    Subject(c, show) + "::" + OrEmpty(c.normalized)
  }

  predicate EndsWith(s: string, t: string) { |t| <= |s| && s[|s| - |t|..] == t }

  /** The deduplication key; a key that ends in the separator is not meaningful. */
  function KeyOf(c: Claim, show: Uuid -> string): Option<string> {
    var key := GroupKey(c, show);
    if EndsWith(key, "::") then None else Some(key)
  }

  function KeysOf(claims: seq<Claim>, show: Uuid -> string): (keys: seq<Option<string>>)
    ensures |keys| == |claims|
  {
    seq(|claims|, i requires 0 <= i < |claims| => KeyOf(claims[i], show))
  }

  // ---- Contradiction ----------------------------------------------------------------------

  /** `split_whitespace`: the maximal runs of non-whitespace; `word` is the run being read. */
  function Words(word: string, s: string): seq<string>
    decreases |s|
  {
    if s == [] then (if word == [] then [] else [word])
    else if IsSpace(s[0]) then (if word == [] then [] else [word]) + Words([], s[1..])
    else Words(word + [s[0]], s[1..])
  }

  const NEGATIONS: set<string> := {"not", "no", "never", "cannot", "without", "neither"}
  const STOP_WORDS: set<string> := {"is", "are", "the", "a", "an", "of"}

  predicate Negated(s: string) { exists w :: w in Words([], s) && w in NEGATIONS }

  function Content(s: string): set<string> {
    set w | w in Words([], s) && w !in NEGATIONS && w !in STOP_WORDS
  }

  /** Exactly one side is negated and the content words overlap by at least 0.6 of the smaller side. */
  predicate Contradicts(a: string, b: string) {
    a != [] && b != [] && Negated(a) != Negated(b) && Overlap(Content(a), Content(b))
  }

  predicate Overlap(wa: set<string>, wb: set<string>) {
    wa != {} && wb != {} && |wa * wb| as real >= 0.6 * Min(|wa|, |wb|) as real
  }

  /** Contradiction does not depend on which claim comes first. */
  lemma ContradictsSymmetric(a: string, b: string)
    ensures Contradicts(a, b) == Contradicts(b, a)
  {
    assert Content(a) * Content(b) == Content(b) * Content(a);
  }

  /** Two claims about the same concept whose meanings contradict. */
  predicate Conflicting(c: Claim, d: Claim) {
    c.concept.Some? && c.concept == d.concept && Contradicts(OrEmpty(c.normalized), OrEmpty(d.normalized))
  }

  // ---- What the keys and words mean ------------------------------------------------------

  /** What two duplicates are meant to have in common. */
  predicate Agree(c: Claim, d: Claim, show: Uuid -> string) {
    Subject(c, show) == Subject(d, show) && OrEmpty(c.normalized) == OrEmpty(d.normalized)
  }

  predicate SeparatorAt(s: string, p: nat) { p + 2 <= |s| && s[p] == ':' && s[p + 1] == ':' }

  lemma KeyParts(c: Claim, show: Uuid -> string)
    ensures var key, n := GroupKey(c, show), |Subject(c, show)|;
      SeparatorAt(key, n) && key[..n] == Subject(c, show) && key[n + 2..] == OrEmpty(c.normalized)
  {
  }

  /** Two claims with one key agree exactly when their subjects are equally long. */
  lemma SharedKeyAgrees(c: Claim, d: Claim, show: Uuid -> string)
    requires GroupKey(c, show) == GroupKey(d, show)
    ensures Agree(c, d, show) <==> |Subject(c, show)| == |Subject(d, show)|
  {
    KeyParts(c, show);
    KeyParts(d, show);
  }

  /** The joined string of a claim can be that of a claim it does not agree with exactly when it has a
      separator in another place than between subject and meaning. */
  lemma JoinedAmbiguousIff(c: Claim, show: Uuid -> string)
    ensures (exists d :: GroupKey(d, show) == GroupKey(c, show) && !Agree(c, d, show))
       <==> exists p: nat :: p != |Subject(c, show)| && SeparatorAt(GroupKey(c, show), p)
  {
    var key := GroupKey(c, show);
    if p: nat :| p != |Subject(c, show)| && SeparatorAt(key, p) {
      var d := Claim(c.id, None, Some(key[..p]), Some(key[p + 2..]));
      assert key == key[..p] + "::" + key[p + 2..];
      SharedKeyAgrees(c, d, show);
    }
    if d :| GroupKey(d, show) == key && !Agree(c, d, show) {
      SharedKeyAgrees(c, d, show);
      KeyParts(d, show);
    }
  }

  /** A claim can share its deduplication key with one it does not agree with exactly when it has a key
      and that key has such a second separator. */
  lemma AmbiguousIff(c: Claim, show: Uuid -> string)
    ensures (exists d :: KeyOf(c, show).Some? && KeyOf(d, show) == KeyOf(c, show) && !Agree(c, d, show))
       <==> KeyOf(c, show).Some? && exists p: nat :: p != |Subject(c, show)| && SeparatorAt(KeyOf(c, show).value, p)
  {
    JoinedAmbiguousIff(c, show);
    if KeyOf(c, show).Some? {
      assert forall d :: KeyOf(d, show) == KeyOf(c, show) <==> GroupKey(d, show) == GroupKey(c, show);
    }
  }

  /** Between claims that both have a concept, whose rendered id has no colon, keys are exact. */
  lemma ConceptKeysAgree(c: Claim, d: Claim, show: Uuid -> string)
    requires c.concept.Some? && d.concept.Some? && ':' !in show(c.concept.value) && ':' !in show(d.concept.value)
    ensures GroupKey(c, show) == GroupKey(d, show) <==> Agree(c, d, show)
  {
    var x, y := ":" + OrEmpty(c.normalized), ":" + OrEmpty(d.normalized);
    if GroupKey(c, show) == GroupKey(d, show) {
      assert GroupKey(c, show) == Subject(c, show) + [':'] + x;
      assert GroupKey(d, show) == Subject(d, show) + [':'] + y;
      FirstColon(Subject(c, show), x, Subject(d, show), y);
      assert x[1..] == OrEmpty(c.normalized) && y[1..] == OrEmpty(d.normalized);
    }
  }

  /** Collisions happen between two free-text topics, and between a concept and a topic. */
  lemma KeysCollide(id: Uuid, concept: Uuid, show: Uuid -> string)
    ensures KeyOf(Claim(id, None, Some("a::b"), Some("c")), show)
         == KeyOf(Claim(id, None, Some("a"), Some("b::c")), show) == Some("a::b::c")
    ensures KeyOf(Claim(id, Some(concept), None, Some("b::c")), show)
         == KeyOf(Claim(id, None, Some(show(concept) + "::b"), Some("c")), show) != None
  {
    assert "a::b" + "::" + "c" == "a" + "::" + "b::c" == "a::b::c";
    assert "a::b::c"[5..] == ":c";
    var u := show(concept);
    var key := u + "::" + "b::c";
    assert key == (u + "::b") + "::" + "c";
    assert key[|key| - 2..] == ":c";
  }

  /** A claim is never deduplicated exactly when its meaning is missing or itself ends the way the
      separator does. */
  lemma KeylessIff(c: Claim, show: Uuid -> string)
    ensures var n := OrEmpty(c.normalized);
      KeyOf(c, show).None? <==> n == "" || n == ":" || EndsWith(n, "::")
  {
    var n, key := OrEmpty(c.normalized), GroupKey(c, show);
    var s := Subject(c, show);
    assert key == s + ("::" + n);
    assert key[|key| - 2..] == ("::" + n)[|n|..];
    if |n| >= 2 {
      assert ("::" + n)[|n|..] == n[|n| - 2..];
    } else if |n| == 1 {
      assert ("::" + n)[1..] == [':', n[0]];
      assert n == [n[0]];
    }
  }

  // ---- What a contradiction is ----------------------------------------------------------------

  ghost predicate Solid(w: string) { forall i :: 0 <= i < |w| ==> !IsSpace(w[i]) }

  /** Whether a word of the negation list occurs. */
  ghost predicate SaysNo(s: string) {
    exists w :: w in Words([], s) && w in {"not", "no", "never", "cannot", "without", "neither"}
  }

  /** The words that count: neither negations nor the six filler words. */
  ghost function ContentWords(s: string): set<string> {
    set w | w in Words([], s) && w !in {"not", "no", "never", "cannot", "without", "neither",
                                        "is", "are", "the", "a", "an", "of"}
  }

  /** Two meanings contradict exactly when one of them has a negation word and the other has none, and
      they share at least three fifths of the content words of the side that has fewer. */
  lemma ContradictsIff(a: string, b: string)
    ensures var wa, wb := ContentWords(a), ContentWords(b);
      Contradicts(a, b) <==>
        SaysNo(a) != SaysNo(b) && wa != {} && wb != {} && 5 * |wa * wb| >= 3 * Min(|wa|, |wb|)
  {
    assert Negated(a) == SaysNo(a) && Negated(b) == SaysNo(b);
    assert Content(a) == ContentWords(a) && Content(b) == ContentWords(b);
    ThreeFifths(|Content(a) * Content(b)|, Min(|Content(a)|, |Content(b)|));
    assert a == [] ==> Words([], a) == [] && ContentWords(a) == {};
    assert b == [] ==> Words([], b) == [] && ContentWords(b) == {};
  }

  lemma ThreeFifths(common: nat, smaller: nat)
    ensures common as real >= 0.6 * smaller as real <==> 5 * common >= 3 * smaller
  {
    assert (5 * common) as real == 5.0 * common as real && (3 * smaller) as real == 3.0 * smaller as real;
  }

  /** Without a common content word there is no contradiction. */
  lemma NothingInCommon(a: string, b: string)
    requires ContentWords(a) !! ContentWords(b)
    ensures !Contradicts(a, b)
  {
    ContradictsIff(a, b);
    assert ContentWords(a) * ContentWords(b) == {};
  }

  /** A meaning without a negation that has a content word contradicts itself with a negation added. */
  lemma AddedNegation(a: string, no: string)
    requires !SaysNo(a) && ContentWords(a) != {} && no in {"not", "no", "never", "cannot", "without", "neither"}
    ensures Contradicts(a, a + " " + no) && Contradicts(a + " " + no, a)
  {
    var b := a + " " + no;
    assert Solid(no);
    AddedWord([], a, no);
    assert b == a + ([' '] + no);
    assert Words([], b) == Words([], a) + [no];
    assert no in Words([], b);
    assert ContentWords(b) == ContentWords(a);
    assert ContentWords(a) * ContentWords(b) == ContentWords(a);
    ContradictsIff(a, b);
    ContradictsSymmetric(a, b);
  }

  /** A word after a space is one more word. */
  lemma {:induction false} AddedWord(word: string, s: string, w: string)
    requires Solid(w) && w != []
    ensures Words(word, s + ([' '] + w)) == Words(word, s) + [w]
    decreases |s|
  {
    var all := s + ([' '] + w);
    if s == [] {
      assert all[0] == ' ' && all[1..] == w;
      OneWord([], w);
      assert [] + w == w;
    } else {
      assert all[1..] == s[1..] + ([' '] + w) && all[0] == s[0];
      if IsSpace(s[0]) {
        AddedWord([], s[1..], w);
        ConcatAssociates(if word == [] then [] else [word], Words([], s[1..]), [w]);
      } else {
        AddedWord(word + [s[0]], s[1..], w);
      }
    }
  }

  lemma {:induction false} OneWord(word: string, w: string)
    requires Solid(w) && word + w != []
    ensures Words(word, w) == [word + w]
    decreases |w|
  {
    if w == [] {
      assert word + w == word;
    } else {
      assert word + [w[0]] + w[1..] == word + w;
      OneWord(word + [w[0]], w[1..]);
    }
  }

  function Concat(words: seq<string>): string {
    if words == [] then [] else words[0] + Concat(words[1..])
  }

  /** The words of a string are non-empty, contain no whitespace, and hold all of its other
      characters in order. */
  lemma {:induction false} WordsHoldInk(word: string, s: string)
    requires Solid(word)
    ensures forall w :: w in Words(word, s) ==> w != [] && Solid(w)
    ensures Concat(Words(word, s)) == word + Ink(s)
    decreases |s|
  {
    if s == [] {
      assert word + [] == word;
      assert Concat([word]) == word + Concat([]) == word;
    } else if IsSpace(s[0]) {
      var rest := Words([], s[1..]);
      WordsHoldInk([], s[1..]);
      assert [] + Ink(s[1..]) == Ink(s[1..]) == Ink(s);
      assert word != [] ==> ([word] + rest)[1..] == rest;
      assert word == [] ==> Words(word, s) == rest && word + Ink(s) == Ink(s);
    } else {
      WordsHoldInk(word + [s[0]], s[1..]);
      assert (word + [s[0]]) + Ink(s[1..]) == word + ([s[0]] + Ink(s[1..]));
    }
  }

  ghost predicate Blank(s: string) { forall i :: 0 <= i < |s| ==> IsSpace(s[i]) }

  /** `gaps` and `words` in turn, a gap first and last. */
  ghost function Interleave(gaps: seq<string>, words: seq<string>): string
    requires |gaps| == |words| + 1
  {
    if words == [] then gaps[0] else gaps[0] + (words[0] + Interleave(gaps[1..], words[1..]))
  }

  /** Blank gaps around the words, none of them empty between two words. */
  ghost predicate AreGaps(gaps: seq<string>, words: seq<string>) {
    && |gaps| == |words| + 1
    && (forall k :: 0 <= k < |gaps| ==> Blank(gaps[k]))
    && (forall k :: 0 < k < |words| ==> gaps[k] != [])
  }

  lemma WidenGap(c: char, gaps: seq<string>, words: seq<string>)
    requires AreGaps(gaps, words) && IsSpace(c)
    ensures var wide := [[c] + gaps[0]] + gaps[1..];
      AreGaps(wide, words) && wide[0] != [] && Interleave(wide, words) == [c] + Interleave(gaps, words)
  {
    var wide := [[c] + gaps[0]] + gaps[1..];
    assert wide[1..] == gaps[1..];
    if words != [] {
      ConcatAssociates([c], gaps[0], words[0] + Interleave(gaps[1..], words[1..]));
    }
  }

  lemma AddWord(word: string, gaps: seq<string>, words: seq<string>)
    requires AreGaps(gaps, words) && (words != [] ==> gaps[0] != [])
    ensures AreGaps([[]] + gaps, [word] + words)
    ensures Interleave([[]] + gaps, [word] + words) == word + Interleave(gaps, words)
  {
    var all, more := [word] + words, [[]] + gaps;
    assert all[1..] == words && more[1..] == gaps;
    assert [] + (word + Interleave(gaps, words)) == word + Interleave(gaps, words);
  }

  /** The words are the maximal runs: whitespace stands between two consecutive words and nowhere but
      around words. */
  lemma {:induction false} WordsAreRuns(word: string, s: string) returns (gaps: seq<string>)
    requires Solid(word)
    ensures AreGaps(gaps, Words(word, s)) && Interleave(gaps, Words(word, s)) == word + s
    ensures word != [] ==> gaps[0] == []
    decreases |s|
  {
    if s == [] {
      var none: seq<string> := [];
      gaps := [[]];
      assert AreGaps(gaps, none) && Interleave(gaps, none) == [];
      if word != [] {
        AddWord(word, gaps, none);
        gaps := [[]] + gaps;
        assert [word] + none == [word] && word + [] == word;
      }
    } else if IsSpace(s[0]) {
      var rest := WordsAreRuns([], s[1..]);
      var words := Words([], s[1..]);
      WidenGap(s[0], rest, words);
      gaps := [[s[0]] + rest[0]] + rest[1..];
      assert [] + s[1..] == s[1..] && [s[0]] + s[1..] == s;
      if word == [] {
        assert Words(word, s) == words && word + s == s;
      } else {
        AddWord(word, gaps, words);
        gaps := [[]] + gaps;
      }
    } else {
      gaps := WordsAreRuns(word + [s[0]], s[1..]);
      assert (word + [s[0]]) + s[1..] == word + s;
    }
  }

  // ---- Duplicates -------------------------------------------------------------------------

  /** An earlier claim has the same meaningful key. */
  predicate IsDuplicate(keys: seq<Option<string>>, j: nat)
    requires j < |keys|
  {
    keys[j].Some? && keys[j] in keys[..j]
  }

  /** The positions of the duplicates, in order. */
  function Duplicates(keys: seq<Option<string>>): (out: seq<nat>)
    ensures forall p: nat :: p in out <==> p < |keys| && IsDuplicate(keys, p)
  {
    if keys == [] then []
    else
      var n := |keys| - 1;
      assert forall p: nat :: p < n ==> keys[..n][..p] == keys[..p];
      Duplicates(keys[..n]) + (if IsDuplicate(keys, n) then [n] else [])
  }

  /** The dedup loop: `seen` maps a key to the first claim that had it. */
  method FindRepeats(keys: seq<Option<string>>, claims: seq<Claim>) returns (found: seq<nat>)
    requires |claims| == |keys|
    ensures found == Duplicates(keys)
  {
    var seen: map<string, Uuid> := map[];
    found := [];
    for k := 0 to |keys|
      invariant found == Duplicates(keys[..k])
      invariant forall key :: key in seen <==> Some(key) in keys[..k]
    {
      var key := keys[k];
      assert keys[..k + 1] == keys[..k] + [key] && keys[..k + 1][..k] == keys[..k];
      if key.Some? {
        if key.value in seen {
          found := found + [k];
        } else {
          seen := seen[key.value := claims[k].id];
        }
      }
    }
    assert keys[..|keys|] == keys;
  }

  function KeyedCount(keys: seq<Option<string>>): nat {
    if keys == [] then 0 else KeyedCount(keys[..|keys| - 1]) + (if keys[|keys| - 1].Some? then 1 else 0)
  }

  function DistinctKeys(keys: seq<Option<string>>): set<string> {
    set k | k in keys && k.Some? :: k.value
  }

  /** Duplicates are the keyed claims less one per key: every key class keeps exactly one claim. */
  lemma {:induction false} DuplicatesCount(keys: seq<Option<string>>)
    ensures |Duplicates(keys)| + |DistinctKeys(keys)| == KeyedCount(keys)
  {
    if keys == [] {
      assert DistinctKeys(keys) == {};
    } else {
      DuplicatesCount(keys[..|keys| - 1]);
      CountLast(keys);
    }
  }

  /** The last key, if it is one, is counted once: as a duplicate or as a distinct key. */
  lemma CountLast(keys: seq<Option<string>>)
    requires keys != []
    ensures var n := |keys| - 1;
      |Duplicates(keys)| + |DistinctKeys(keys)|
      == |Duplicates(keys[..n])| + |DistinctKeys(keys[..n])| + if keys[n].Some? then 1 else 0
  {
    var n := |keys| - 1;
    var before := DistinctKeys(keys[..n]);
    LastKey(keys);
    LastDuplicate(keys);
    if keys[n].Some? && keys[n].value in before {
      assert before + {keys[n].value} == before;
    }
  }

  lemma LastDuplicate(keys: seq<Option<string>>)
    requires keys != []
    ensures var n := |keys| - 1;
      |Duplicates(keys)| == |Duplicates(keys[..n])| + if IsDuplicate(keys, n) then 1 else 0
  {
  }

  /** The last key is a duplicate exactly when it adds nothing to the distinct keys. */
  lemma LastKey(keys: seq<Option<string>>)
    requires keys != []
    ensures var n := |keys| - 1; var before := DistinctKeys(keys[..n]);
      if keys[n].None? then DistinctKeys(keys) == before
      else DistinctKeys(keys) == before + {keys[n].value} && (IsDuplicate(keys, n) <==> keys[n].value in before)
  {
    var n := |keys| - 1;
    assert keys == keys[..n] + [keys[n]];
    assert keys[n] in keys;
    forall k ensures Some(k) in keys <==> Some(k) in keys[..n] || Some(k) == keys[n] {
    }
    if keys[n].Some? && keys[n] in keys[..n] {
      assert keys[n].value in DistinctKeys(keys[..n]);
    }
  }

  /** The survivor of a key class is its first claim. */
  lemma {:induction false} KeyClassKeepsOne(keys: seq<Option<string>>, j: nat) returns (i: nat)
    requires j < |keys| && keys[j].Some?
    ensures i <= j && keys[i] == keys[j] && i !in Duplicates(keys)
    ensures forall k :: 0 <= k < |keys| && keys[k] == keys[j] && k !in Duplicates(keys) ==> k == i
  {
    if j in Duplicates(keys) {
      var k :| 0 <= k < j && keys[..j][k] == keys[j];
      i := KeyClassKeepsOne(keys, k);
    } else {
      i := j;
    }
  }

  // ---- Conflicts --------------------------------------------------------------------------

  /** How many of `rest` conflict with `c`. */
  function ConflictsWith(c: Claim, rest: seq<Claim>): nat {
    if rest == [] then 0 else (if Conflicting(c, rest[0]) then 1 else 0) + ConflictsWith(c, rest[1..])
  }

  /** How many ordered pairs conflict, counting only the concepts in `done`. */
  function PairCount(claims: seq<Claim>, done: set<Uuid>): nat {
    if claims == [] then 0
    else
      (if claims[0].concept.Some? && claims[0].concept.value in done then ConflictsWith(claims[0], claims[1..]) else 0)
      + PairCount(claims[1..], done)
  }

  /** The claims of one concept, in order. */
  function Group(claims: seq<Claim>, concept: Uuid): seq<Claim> {
    if claims == [] then []
    else (if claims[0].concept == Some(concept) then [claims[0]] else []) + Group(claims[1..], concept)
  }

  lemma GroupUnfold(claims: seq<Claim>, concept: Uuid)
    requires claims != []
    ensures claims[0].concept != Some(concept) ==> Group(claims, concept) == Group(claims[1..], concept)
    ensures claims[0].concept == Some(concept) ==> Group(claims, concept)[1..] == Group(claims[1..], concept)
  {
  }

  lemma {:induction false} GroupKeepsConflicts(c: Claim, rest: seq<Claim>, concept: Uuid)
    requires c.concept == Some(concept)
    ensures ConflictsWith(c, Group(rest, concept)) == ConflictsWith(c, rest)
  {
    if rest == [] {
    } else {
      GroupKeepsConflicts(c, rest[1..], concept);
      GroupUnfold(rest, concept);
    }
  }

  lemma {:induction false} GroupPairs(claims: seq<Claim>, concept: Uuid)
    ensures PairCount(Group(claims, concept), {concept}) == PairCount(claims, {concept})
  {
    if claims == [] {
    } else {
      GroupPairs(claims[1..], concept);
      GroupUnfold(claims, concept);
      if claims[0].concept == Some(concept) {
        GroupKeepsConflicts(claims[0], claims[1..], concept);
      }
    }
  }

  lemma {:induction false} PairsAdd(claims: seq<Claim>, done: set<Uuid>, concept: Uuid)
    requires concept !in done
    ensures PairCount(claims, done + {concept}) == PairCount(claims, done) + PairCount(claims, {concept})
  {
    if claims == [] {
    } else {
      PairsAdd(claims[1..], done, concept);
    }
  }

  function Concepts(claims: seq<Claim>): set<Uuid> {
    set c | c in claims && c.concept.Some? :: c.concept.value
  }

  /** The positions after `i` of the claims that conflict with claim `i`, from position `n` on. */
  ghost function Opponents(claims: seq<Claim>, i: nat, n: nat): set<nat>
    requires i < |claims|
  {
    set j: nat | n <= j < |claims| && Conflicting(claims[i], claims[j])
  }

  lemma {:induction false} OpponentsCounted(claims: seq<Claim>, i: nat, n: nat)
    requires i < |claims| && n <= |claims|
    ensures ConflictsWith(claims[i], claims[n..]) == |Opponents(claims, i, n)|
    decreases |claims| - n
  {
    if n == |claims| {
      assert Opponents(claims, i, n) == {};
    } else {
      OpponentsCounted(claims, i, n + 1);
      MoreOpponents(claims, i, n);
      assert claims[n..][0] == claims[n] && claims[n..][1..] == claims[n + 1..];
    }
  }

  lemma MoreOpponents(claims: seq<Claim>, i: nat, n: nat)
    requires i < |claims| && n < |claims|
    ensures |Opponents(claims, i, n)|
         == |Opponents(claims, i, n + 1)| + if Conflicting(claims[i], claims[n]) then 1 else 0
  {
    var more: set<nat> := if Conflicting(claims[i], claims[n]) then {n} else {};
    assert Opponents(claims, i, n) == Opponents(claims, i, n + 1) + more;
  }

  /** The pairs of conflicting claims, the first of them at position `n` or later. */
  ghost function Pairs(claims: seq<Claim>, n: nat): set<(nat, nat)> {
    set i: nat, j: nat | n <= i < |claims| && i < j < |claims| && Conflicting(claims[i], claims[j]) :: (i, j)
  }

  /** The conflicts reported are counted by pairs of claims. */
  lemma {:induction false} PairsCounted(claims: seq<Claim>, n: nat)
    requires n <= |claims|
    ensures PairCount(claims[n..], Concepts(claims)) == |Pairs(claims, n)|
    decreases |claims| - n
  {
    if n == |claims| {
      assert Pairs(claims, n) == {};
    } else {
      PairsCounted(claims, n + 1);
      OpponentsCounted(claims, n, n + 1);
      RowCounted(claims, n);
      assert claims[n] in claims;
      assert claims[n..][0] == claims[n] && claims[n..][1..] == claims[n + 1..];
    }
  }

  lemma RowCounted(claims: seq<Claim>, n: nat)
    requires n < |claims|
    ensures |Pairs(claims, n)| == |Opponents(claims, n, n + 1)| + |Pairs(claims, n + 1)|
    ensures claims[n].concept.None? ==> Opponents(claims, n, n + 1) == {}
  {
    var row := set j | j in Opponents(claims, n, n + 1) :: (n, j);
    SameSize(Opponents(claims, n, n + 1), n, row);
    forall i: nat, j: nat ensures (i, j) in Pairs(claims, n) <==> (i, j) in row || (i, j) in Pairs(claims, n + 1) {
      PairAt(claims, n, i, j);
    }
    ApartSizes(Pairs(claims, n), row, Pairs(claims, n + 1));
  }

  lemma PairAt(claims: seq<Claim>, n: nat, i: nat, j: nat)
    requires n < |claims|
    ensures (i, j) in Pairs(claims, n) <==>
      (i == n && j in Opponents(claims, n, n + 1)) || (i, j) in Pairs(claims, n + 1)
  {
  }

  lemma ApartSizes(all: set<(nat, nat)>, a: set<(nat, nat)>, b: set<(nat, nat)>)
    requires forall i: nat, j: nat :: (i, j) in all <==> (i, j) in a || (i, j) in b
    requires a !! b
    ensures |all| == |a| + |b|
  {
    assert all == a + b by {
      forall p ensures p in all <==> p in a + b {
        assert p == (p.0, p.1);
      }
    }
  }

  lemma {:induction false} SameSize(js: set<nat>, n: nat, row: set<(nat, nat)>)
    requires row == set j | j in js :: (n, j)
    ensures |row| == |js|
    decreases js
  {
    if j :| j in js {
      SameSize(js - {j}, n, row - {(n, j)});
    } else {
      assert row == {};
    }
  }

  /** The claims with a concept, by concept. */
  ghost predicate IsGrouping(claims: seq<Claim>, groups: map<Uuid, seq<Claim>>) {
    && groups.Keys == Concepts(claims)
    && (forall concept :: concept in groups ==> groups[concept] == Group(claims, concept))
  }

  lemma {:induction false} GroupSnoc(claims: seq<Claim>, c: Claim, concept: Uuid)
    ensures Group(claims + [c], concept)
         == Group(claims, concept) + (if c.concept == Some(concept) then [c] else [])
  {
    if claims == [] {
      assert [] + [c] == [c];
    } else {
      assert (claims + [c])[1..] == claims[1..] + [c];
      GroupSnoc(claims[1..], c, concept);
    }
  }

  lemma {:induction false} GroupOfOther(claims: seq<Claim>, concept: Uuid)
    requires forall c :: c in claims ==> c.concept != Some(concept)
    ensures Group(claims, concept) == []
  {
    if claims == [] {
    } else {
      GroupOfOther(claims[1..], concept);
    }
  }

  method GroupByConcept(claims: seq<Claim>) returns (groups: map<Uuid, seq<Claim>>)
    ensures IsGrouping(claims, groups)
  {
    groups := map[];
    for k := 0 to |claims|
      invariant IsGrouping(claims[..k], groups)
    {
      var c := claims[k];
      GroupingStep(claims[..k], c, groups);
      assert claims[..k + 1] == claims[..k] + [c];
      if c.concept.Some? {
        groups := groups[c.concept.value := (if c.concept.value in groups then groups[c.concept.value] else []) + [c]];
      }
    }
    assert claims[..|claims|] == claims;
  }

  lemma GroupingStep(claims: seq<Claim>, c: Claim, groups: map<Uuid, seq<Claim>>)
    requires IsGrouping(claims, groups)
    ensures IsGrouping(claims + [c],
      if c.concept.Some?
      then groups[c.concept.value := (if c.concept.value in groups then groups[c.concept.value] else []) + [c]]
      else groups)
  {
    var more := claims + [c];
    assert forall d :: d in more <==> d in claims || d == c;
    forall concept ensures Group(more, concept)
      == Group(claims, concept) + (if c.concept == Some(concept) then [c] else [])
    {
      GroupSnoc(claims, c, concept);
    }
    if c.concept.Some? && c.concept.value !in groups {
      GroupOfOther(claims, c.concept.value);
    }
    assert c in more;
  }

  /** Some earlier claim conflicts with claim `j`. */
  predicate Flagged(claims: seq<Claim>, j: nat)
    requires j < |claims|
  {
    exists i :: 0 <= i < j && Conflicting(claims[i], claims[j])
  }

  /** The id of a flagged claim. */
  ghost predicate IsFlaggedId(claims: seq<Claim>, id: Uuid) {
    exists j :: 0 <= j < |claims| && Flagged(claims, j) && claims[j].id == id
  }

  ghost predicate FlagIds(claims: seq<Claim>, ids: seq<Uuid>) {
    && (forall id :: id in ids ==> IsFlaggedId(claims, id))
    && (forall j :: 0 <= j < |claims| && Flagged(claims, j) ==> claims[j].id in ids)
  }

  /** The members of a group are claims of its concept, in the order of the claims. */
  lemma {:induction false} GroupMembers(claims: seq<Claim>, concept: Uuid, j: nat) returns (p: nat)
    requires j < |Group(claims, concept)|
    ensures p < |claims| && claims[p] == Group(claims, concept)[j] && claims[p].concept == Some(concept)
    ensures forall i :: 0 <= i < j ==> Group(claims, concept)[i] in claims[..p]
  {
    GroupUnfold(claims, concept);
    if claims[0].concept == Some(concept) {
      if j == 0 {
        p := 0;
      } else {
        p := GroupMembers(claims[1..], concept, j - 1);
        p := p + 1;
        assert claims[..p] == [claims[0]] + claims[1..][..p - 1];
        forall i | 0 <= i < j ensures Group(claims, concept)[i] in claims[..p] {
          if i > 0 { assert Group(claims, concept)[i] == Group(claims[1..], concept)[i - 1]; }
        }
      }
    } else {
      p := GroupMembers(claims[1..], concept, j);
      p := p + 1;
      assert claims[..p] == [claims[0]] + claims[1..][..p - 1];
    }
  }

  lemma {:induction false} GroupHasOne(claims: seq<Claim>, concept: Uuid, p: nat) returns (j: nat)
    requires p < |claims| && claims[p].concept == Some(concept)
    ensures j < |Group(claims, concept)| && Group(claims, concept)[j] == claims[p]
  {
    GroupUnfold(claims, concept);
    if p == 0 {
      j := 0;
    } else {
      j := GroupHasOne(claims[1..], concept, p - 1);
      if claims[0].concept == Some(concept) {
        assert Group(claims, concept)[j + 1] == Group(claims, concept)[1..][j];
        j := j + 1;
      }
    }
  }

  /** Two claims of one concept keep their order in its group. */
  lemma {:induction false} GroupHasBoth(claims: seq<Claim>, concept: Uuid, i: nat, p: nat) returns (k: nat, j: nat)
    requires i < p < |claims| && claims[i].concept == Some(concept) == claims[p].concept
    ensures k < j < |Group(claims, concept)|
    ensures Group(claims, concept)[k] == claims[i] && Group(claims, concept)[j] == claims[p]
  {
    GroupUnfold(claims, concept);
    var g := Group(claims, concept);
    if i == 0 {
      j := GroupHasOne(claims[1..], concept, p - 1);
      assert g[j + 1] == g[1..][j];
      k, j := 0, j + 1;
    } else {
      k, j := GroupHasBoth(claims[1..], concept, i - 1, p - 1);
      if claims[0].concept == Some(concept) {
        assert g[k + 1] == g[1..][k] && g[j + 1] == g[1..][j];
        k, j := k + 1, j + 1;
      }
    }
  }

  /** One of the claims between positions `i` and `n` conflicts with claim `i` and has this id. */
  ghost predicate RowHits(group: seq<Claim>, i: nat, n: nat, id: Uuid)
    requires i < n <= |group|
  {
    exists j :: i < j < n && Conflicting(group[i], group[j]) && group[j].id == id
  }

  /** The same for some claim before position `n`, against all claims after it. */
  ghost predicate RowsHit(group: seq<Claim>, n: nat, id: Uuid)
    requires n <= |group|
  {
    exists i :: 0 <= i < n && RowHits(group, i, |group|, id)
  }

  lemma RowsHitFlag(group: seq<Claim>, ids: seq<Uuid>)
    requires forall id :: id in ids <==> RowsHit(group, |group|, id)
    ensures FlagIds(group, ids)
  {
    forall id | id in ids ensures IsFlaggedId(group, id) {
      var i :| 0 <= i < |group| && RowHits(group, i, |group|, id);
      var j :| i < j < |group| && Conflicting(group[i], group[j]) && group[j].id == id;
      assert Flagged(group, j);
    }
    forall j | 0 <= j < |group| && Flagged(group, j) ensures group[j].id in ids {
      var i :| 0 <= i < j && Conflicting(group[i], group[j]);
      assert RowHits(group, i, |group|, group[j].id);
    }
  }

  /** The innermost loop: claim `i` against every later one. */
  method RowConflicts(group: seq<Claim>, ghost concept: Uuid, i: nat, start: seq<Uuid>) returns (ids: seq<Uuid>)
    requires i < |group| && forall c :: c in group ==> c.concept == Some(concept)
    ensures |ids| == |start| + ConflictsWith(group[i], group[i + 1..])
    ensures forall id :: id in ids <==> id in start || RowHits(group, i, |group|, id)
  {
    ids := start;
    for j := i + 1 to |group|
      invariant |ids| + ConflictsWith(group[i], group[j..]) == |start| + ConflictsWith(group[i], group[i + 1..])
      invariant forall id :: id in ids <==> id in start || RowHits(group, i, j, id)
    {
      assert group[i] in group && group[j] in group && group[j..][1..] == group[j + 1..];
      if Contradicts(OrEmpty(group[i].normalized), OrEmpty(group[j].normalized)) {
        ids := ids + [group[j].id];
      }
    }
  }

  /** The two inner loops over one concept's claims. */
  method GroupConflicts(group: seq<Claim>, ghost concept: Uuid) returns (ids: seq<Uuid>)
    requires forall c :: c in group ==> c.concept == Some(concept)
    ensures |ids| == PairCount(group, {concept}) && FlagIds(group, ids)
  {
    ids := [];
    for i := 0 to |group|
      invariant |ids| + PairCount(group[i..], {concept}) == PairCount(group, {concept})
      invariant forall id :: id in ids <==> RowsHit(group, i, id)
    {
      assert group[i] in group && group[i..][1..] == group[i + 1..];
      ids := RowConflicts(group, concept, i, ids);
    }
    RowsHitFlag(group, ids);
  }

  /** What the walk over the groups has to have found for the concepts in `done`. */
  ghost predicate FoundIn(claims: seq<Claim>, done: set<Uuid>, ids: seq<Uuid>) {
    && |ids| == PairCount(claims, done)
    && (forall id :: id in ids ==> IsFlaggedId(claims, id))
    && (forall j :: 0 <= j < |claims| && Flagged(claims, j) && claims[j].concept.value in done
          ==> claims[j].id in ids)
  }

  lemma FlaggedInGroup(claims: seq<Claim>, concept: Uuid, j: nat) returns (p: nat)
    requires j < |Group(claims, concept)| && Flagged(Group(claims, concept), j)
    ensures p < |claims| && claims[p] == Group(claims, concept)[j] && Flagged(claims, p)
  {
    var group := Group(claims, concept);
    var i :| 0 <= i < j && Conflicting(group[i], group[j]);
    p := GroupMembers(claims, concept, j);
    var q :| 0 <= q < p && claims[..p][q] == group[i];
  }

  lemma FlaggedOfGroup(claims: seq<Claim>, concept: Uuid, j: nat) returns (m: nat)
    requires j < |claims| && Flagged(claims, j) && claims[j].concept == Some(concept)
    ensures m < |Group(claims, concept)| && Group(claims, concept)[m] == claims[j]
    ensures Flagged(Group(claims, concept), m)
  {
    var i :| 0 <= i < j && Conflicting(claims[i], claims[j]);
    var k, n := GroupHasBoth(claims, concept, i, j);
    m := n;
  }

  lemma FoundMore(claims: seq<Claim>, done: set<Uuid>, ids: seq<Uuid>, concept: Uuid, more: seq<Uuid>)
    requires FoundIn(claims, done, ids) && concept !in done
    requires |more| == PairCount(Group(claims, concept), {concept}) && FlagIds(Group(claims, concept), more)
    ensures FoundIn(claims, done + {concept}, ids + more)
  {
    GroupPairs(claims, concept);
    PairsAdd(claims, done, concept);
    forall id | id in more ensures IsFlaggedId(claims, id) {
      var p := MoreIsFlagged(claims, concept, more, id);
    }
    forall j | 0 <= j < |claims| && Flagged(claims, j) && claims[j].concept == Some(concept)
      ensures claims[j].id in more
    {
      var m := FlaggedOfGroup(claims, concept, j);
    }
  }

  lemma MoreIsFlagged(claims: seq<Claim>, concept: Uuid, more: seq<Uuid>, id: Uuid) returns (p: nat)
    requires FlagIds(Group(claims, concept), more) && id in more
    ensures p < |claims| && Flagged(claims, p) && claims[p].id == id
  {
    var group := Group(claims, concept);
    var j :| 0 <= j < |group| && Flagged(group, j) && group[j].id == id;
    p := FlaggedInGroup(claims, concept, j);
  }

  method ConceptConflicts(ghost claims: seq<Claim>, group: seq<Claim>, ghost concept: Uuid,
                          ghost done: set<Uuid>, ghost ids: seq<Uuid>) returns (more: seq<Uuid>)
    requires group == Group(claims, concept) && FoundIn(claims, done, ids) && concept !in done
    ensures FoundIn(claims, done + {concept}, ids + more)
  {
    AllOfGroup(claims, concept);
    more := GroupConflicts(group, concept);
    FoundMore(claims, done, ids, concept, more);
  }

  /** The conflict loops: the groups are walked in any order. */
  method FindConflicts(claims: seq<Claim>) returns (ids: seq<Uuid>)
    ensures FlagIds(claims, ids) && |ids| == PairCount(claims, Concepts(claims))
  {
    var groups := GroupByConcept(claims);
    ids := [];
    var todo := groups.Keys;
    ghost var done: set<Uuid> := {};
    EmptyFound(claims);
    while todo != {}
      invariant done !! todo && done + todo == groups.Keys && FoundIn(claims, done, ids)
      decreases todo
    {
      var concept :| concept in todo;
      todo := todo - {concept};
      var more := ConceptConflicts(claims, groups[concept], concept, done, ids);
      ids, done := ids + more, done + {concept};
    }
    assert done == groups.Keys;
    FoundAll(claims, ids);
  }

  lemma FoundAll(claims: seq<Claim>, ids: seq<Uuid>)
    requires FoundIn(claims, Concepts(claims), ids)
    ensures FlagIds(claims, ids)
  {
    forall j | 0 <= j < |claims| && Flagged(claims, j) ensures claims[j].id in ids {
      assert claims[j] in claims;
    }
  }

  lemma {:induction false} EmptyFound(claims: seq<Claim>)
    ensures PairCount(claims, {}) == 0
  {
    if claims == [] {
    } else {
      EmptyFound(claims[1..]);
    }
  }

  lemma {:induction false} AllOfGroup(claims: seq<Claim>, concept: Uuid)
    ensures forall c :: c in Group(claims, concept) ==> c.concept == Some(concept)
  {
    if claims == [] {
    } else {
      AllOfGroup(claims[1..], concept);
    }
  }

  // ---- The pass -----------------------------------------------------------------------------

  function ClampMax(n: int): nat { Max(1, Min(n, 5000)) }

  function PendingOf(claims: seq<Claim>, status: map<Uuid, Status>): seq<Claim> {
    if claims == [] then []
    else
      (if claims[0].id in status && status[claims[0].id] == Pending then [claims[0]] else [])
      + PendingOf(claims[1..], status)
  }

  /** The first `max` pending claims. */
  function Load(claims: seq<Claim>, status: map<Uuid, Status>, max: nat): seq<Claim> {
    var pending := PendingOf(claims, status);
    pending[..Min(max, |pending|)]
  }

  ghost predicate DistinctIds(claims: seq<Claim>) {
    forall i, j :: 0 <= i < j < |claims| ==> claims[i].id != claims[j].id
  }

  ghost predicate IsDuplicateId(loaded: seq<Claim>, show: Uuid -> string, id: Uuid) {
    exists j: nat :: j < |loaded| && j in Duplicates(KeysOf(loaded, show)) && loaded[j].id == id
  }

  /** What one pass makes of the status of claim `id`: a conflict overrides a duplicate. */
  ghost function NextStatus(loaded: seq<Claim>, show: Uuid -> string, review: bool, id: Uuid, was: Status): Status {
    if review && IsFlaggedId(loaded, id) then NeedsReview
    else if was == Pending && IsDuplicateId(loaded, show, id) then Duplicate
    else was
  }

  ghost predicate Names(loaded: seq<Claim>, positions: seq<nat>, id: Uuid) {
    exists p :: p in positions && p < |loaded| && loaded[p].id == id
  }

  function MarkStatus(was: Status, named: bool): Status {
    if was == Pending && named then Duplicate else was
  }

  class ClaimTable {
    /** The tenant's claims in the order the query lists them, newest first. */
    const claims: seq<Claim>
    var status: map<Uuid, Status>
    var reviews: seq<Uuid>

    constructor (claims: seq<Claim>, status: map<Uuid, Status>)
      ensures this.claims == claims && this.status == status && reviews == []
    {
      this.claims, this.status, reviews := claims, status, [];
    }

    method MarkDuplicates(loaded: seq<Claim>, found: seq<nat>)
      requires forall p :: p in found ==> p < |loaded|
      modifies this`status
      ensures status.Keys == old(status).Keys
      ensures forall id :: id in status ==> status[id] == MarkStatus(old(status)[id], Names(loaded, found, id))
    {
      for k := 0 to |found|
        invariant status.Keys == old(status).Keys
        invariant forall id :: id in status ==> status[id] == MarkStatus(old(status)[id], Names(loaded, found[..k], id))
      {
        assert found[..k + 1] == found[..k] + [found[k]];
        assert found[k] in found;
        var id := loaded[found[k]].id;
        if id in status && status[id] == Pending {
          status := status[id := Duplicate];
        }
      }
      assert found[..|found|] == found;
    }

    method FlagConflicts(ids: seq<Uuid>)
      modifies this`status, this`reviews
      ensures status.Keys == old(status).Keys && reviews == old(reviews) + ids
      ensures forall id :: id in status ==> status[id] == if id in ids then NeedsReview else old(status)[id]
    {
      for k := 0 to |ids|
        invariant status.Keys == old(status).Keys && reviews == old(reviews) + ids[..k]
        invariant forall id :: id in status ==> status[id] == if id in ids[..k] then NeedsReview else old(status)[id]
      {
        assert ids[..k + 1] == ids[..k] + [ids[k]];
        reviews := reviews + [ids[k]];
        if ids[k] in status {
          status := status[ids[k] := NeedsReview];
        }
      }
      assert ids[..|ids|] == ids;
    }

    /** `correlate`: load, find, persist, report. Loading and persisting are two transactions: `meanwhile`
        is what other writers have made of the statuses in between. */
    method Correlate(maxClaims: int, show: Uuid -> string, requireReview: bool, conflictEnabled: bool,
                     meanwhile: map<Uuid, Status>)
      returns (report: Report, ghost flagged: seq<Uuid>)
      modifies this
      ensures status.Keys == meanwhile.Keys
      ensures var loaded := Load(claims, old(status), ClampMax(maxClaims));
        && (forall id :: id in status ==>
              status[id] == NextStatus(loaded, show, requireReview && conflictEnabled, id, meanwhile[id]))
        && report == Report(|loaded|, |Duplicates(KeysOf(loaded, show))|,
                            if conflictEnabled then PairCount(loaded, Concepts(loaded)) else 0)
        && reviews == old(reviews) + (if requireReview then flagged else [])
        && (if conflictEnabled then FlagIds(loaded, flagged) && |flagged| == report.conflicts else flagged == [])
    {
      var loaded := Load(claims, status, ClampMax(maxClaims));
      flagged, status := [], meanwhile;
      if loaded == [] {
        return Report(0, 0, 0), [];
      }
      var keys := KeysOf(loaded, show);
      var found := FindRepeats(keys, loaded);
      var conflicts: seq<Uuid> := [];
      if conflictEnabled {
        conflicts := FindConflicts(loaded);
      }
      flagged := conflicts;
      MarkDuplicates(loaded, found);
      if requireReview {
        FlagConflicts(conflicts);
      }
      report := Report(|loaded|, |found|, |conflicts|);
    }
  }

  /** Claim `j` has the key of an earlier one. */
  ghost predicate Repeats(loaded: seq<Claim>, show: Uuid -> string, j: nat)
    requires j < |loaded|
  {
    KeyOf(loaded[j], show).Some? && exists i :: 0 <= i < j && KeyOf(loaded[i], show) == KeyOf(loaded[j], show)
  }

  /** Claim `j` contradicts an earlier one of its concept. */
  ghost predicate Opposes(loaded: seq<Claim>, j: nat)
    requires j < |loaded|
  {
    exists i :: 0 <= i < j && loaded[i].concept.Some? && loaded[i].concept == loaded[j].concept
             && Contradicts(OrEmpty(loaded[i].normalized), OrEmpty(loaded[j].normalized))
  }

  /** What a pass makes of the claim at position `j`: it needs review when it contradicts an earlier loaded
      claim of its concept, else it is a duplicate when it is still pending and an earlier loaded claim
      has its key, else it stays what it is. */
  lemma PassDecides(loaded: seq<Claim>, show: Uuid -> string, review: bool, j: nat, was: Status)
    requires DistinctIds(loaded) && j < |loaded|
    ensures NextStatus(loaded, show, review, loaded[j].id, was) ==
      if review && Opposes(loaded, j) then NeedsReview
      else if was == Pending && Repeats(loaded, show, j) then Duplicate
      else was
  {
    FlaggedIdIff(loaded, j);
    DuplicateIdIff(loaded, show, j);
  }

  /** A claim that was not loaded stays what it is. */
  lemma OthersStay(loaded: seq<Claim>, show: Uuid -> string, review: bool, id: Uuid, was: Status)
    requires forall c :: c in loaded ==> c.id != id
    ensures NextStatus(loaded, show, review, id, was) == was
  {
  }

  lemma DuplicateIdIff(loaded: seq<Claim>, show: Uuid -> string, j: nat)
    requires DistinctIds(loaded) && j < |loaded|
    ensures IsDuplicateId(loaded, show, loaded[j].id) <==> Repeats(loaded, show, j)
  {
    var keys := KeysOf(loaded, show);
    RepeatsIff(loaded, show, j);
    if IsDuplicateId(loaded, show, loaded[j].id) {
      var m: nat :| m < |loaded| && m in Duplicates(keys) && loaded[m].id == loaded[j].id;
      assert m == j;
    }
  }

  lemma RepeatsIff(loaded: seq<Claim>, show: Uuid -> string, j: nat)
    requires j < |loaded|
    ensures j in Duplicates(KeysOf(loaded, show)) <==> Repeats(loaded, show, j)
  {
    var keys := KeysOf(loaded, show);
    assert forall i :: 0 <= i < j ==> keys[..j][i] == KeyOf(loaded[i], show);
    assert keys[j] == KeyOf(loaded[j], show);
  }

  lemma FlaggedIdIff(loaded: seq<Claim>, j: nat)
    requires DistinctIds(loaded) && j < |loaded|
    ensures IsFlaggedId(loaded, loaded[j].id) <==> Opposes(loaded, j)
  {
    if IsFlaggedId(loaded, loaded[j].id) {
      var m :| 0 <= m < |loaded| && Flagged(loaded, m) && loaded[m].id == loaded[j].id;
      assert m == j;
    }
    if i :| 0 <= i < j && Conflicting(loaded[i], loaded[j]) {
      assert Flagged(loaded, j);
    }
  }

  /** The update to needs-review has no guard: a claim that was settled between the two transactions is
      reopened exactly when review and conflict detection are on and it contradicts an earlier loaded claim
      of its concept. */
  lemma ReopenedIff(loaded: seq<Claim>, show: Uuid -> string, review: bool, j: nat)
    requires DistinctIds(loaded) && j < |loaded|
    ensures NextStatus(loaded, show, review, loaded[j].id, Settled) == NeedsReview
       <==> review && Opposes(loaded, j)
  {
    FlaggedIdIff(loaded, j);
  }

  // ---- A second pass ----------------------------------------------------------------------------

  lemma {:induction false} LoadedArePending(claims: seq<Claim>, status: map<Uuid, Status>, c: Claim)
    ensures c in PendingOf(claims, status) <==> c in claims && c.id in status && status[c.id] == Pending
  {
    if claims == [] {
    } else {
      LoadedArePending(claims[1..], status, c);
    }
  }

  lemma {:induction false} PendingDistinct(claims: seq<Claim>, status: map<Uuid, Status>)
    requires DistinctIds(claims)
    ensures DistinctIds(PendingOf(claims, status))
  {
    if claims == [] {
    } else {
      PendingDistinct(claims[1..], status);
      var rest := PendingOf(claims[1..], status);
      forall j | 0 <= j < |rest| ensures rest[j].id != claims[0].id {
        LoadedArePending(claims[1..], status, rest[j]);
      }
    }
  }

  lemma {:induction false} PendingConcat(a: seq<Claim>, b: seq<Claim>, status: map<Uuid, Status>)
    ensures PendingOf(a + b, status) == PendingOf(a, status) + PendingOf(b, status)
  {
    if a == [] {
      assert a + b == b;
    } else {
      var head := if a[0].id in status && status[a[0].id] == Pending then [a[0]] else [];
      assert (a + b)[1..] == a[1..] + b;
      PendingConcat(a[1..], b, status);
      ConcatAssociates(head, PendingOf(a[1..], status), PendingOf(b, status));
    }
  }

  /** The limit cuts off the end: a pending claim that is not loaded comes after every loaded one, and
      as many are loaded as the limit, which lies between 1 and 5000, allows. */
  lemma LoadTakesFirst(claims: seq<Claim>, status: map<Uuid, Status>, n: int, i: nat, j: nat)
    requires DistinctIds(claims) && i < j < |claims|
    requires claims[i].id in status && status[claims[i].id] == Pending
    requires claims[j] in Load(claims, status, ClampMax(n))
    ensures claims[i] in Load(claims, status, ClampMax(n))
    ensures |Load(claims, status, ClampMax(n))| == Min(|PendingOf(claims, status)|, Max(1, Min(n, 5000)))
  {
    var pending, max := PendingOf(claims, status), ClampMax(n);
    var front, back := PendingOf(claims[..j], status), PendingOf(claims[j..], status);
    assert claims == claims[..j] + claims[j..];
    PendingConcat(claims[..j], claims[j..], status);
    LoadedArePending(claims[..j], status, claims[i]);
    assert claims[..j][i] == claims[i];
    var p :| 0 <= p < |front| && front[p] == claims[i];
    var q :| 0 <= q < Min(max, |pending|) && pending[q] == claims[j];
    if q < |front| {
      NotBefore(claims, status, j, q);
    }
    assert Load(claims, status, max)[p] == claims[i];
  }

  lemma NotBefore(claims: seq<Claim>, status: map<Uuid, Status>, j: nat, q: nat)
    requires DistinctIds(claims) && j < |claims| && q < |PendingOf(claims[..j], status)|
    ensures PendingOf(claims[..j], status)[q] != claims[j]
  {
    var front := PendingOf(claims[..j], status);
    LoadedArePending(claims[..j], status, front[q]);
    var m :| 0 <= m < j && claims[..j][m] == front[q];
    assert claims[m].id != claims[j].id;
  }

  /** The pass left claim `j` pending: it is neither a duplicate nor flagged. */
  ghost predicate Survives(loaded: seq<Claim>, show: Uuid -> string, j: nat)
    requires j < |loaded|
  {
    j !in Duplicates(KeysOf(loaded, show)) && !Flagged(loaded, j)
  }

  /** No two survivors share a meaningful key or contradict each other. */
  lemma SurvivorsAgree(loaded: seq<Claim>, show: Uuid -> string, i: nat, j: nat)
    requires i < |loaded| && j < |loaded| && i != j
    requires Survives(loaded, show, i) && Survives(loaded, show, j)
    ensures KeyOf(loaded[i], show).None? || KeyOf(loaded[i], show) != KeyOf(loaded[j], show)
    ensures !Conflicting(loaded[i], loaded[j])
  {
    var a, b := Min(i, j), Max(i, j);
    var keys := KeysOf(loaded, show);
    assert keys[..b][a] == keys[a];
    assert !Conflicting(loaded[a], loaded[b]);
    ContradictsSymmetric(OrEmpty(loaded[i].normalized), OrEmpty(loaded[j].normalized));
  }

  lemma {:induction false} NoPairs(claims: seq<Claim>, done: set<Uuid>)
    requires forall i, j :: 0 <= i < j < |claims| ==> !Conflicting(claims[i], claims[j])
    ensures PairCount(claims, done) == 0
  {
    if claims == [] {
    } else {
      NoPairs(claims[1..], done);
      NoConflictsWith(claims[0], claims[1..]);
    }
  }

  lemma {:induction false} NoConflictsWith(c: Claim, rest: seq<Claim>)
    requires forall d :: d in rest ==> !Conflicting(c, d)
    ensures ConflictsWith(c, rest) == 0
  {
    if rest == [] {
    } else {
      NoConflictsWith(c, rest[1..]);
    }
  }

  lemma {:induction false} NoRepeats(keys: seq<Option<string>>)
    requires forall i, j :: 0 <= i < j < |keys| && keys[j].Some? ==> keys[i] != keys[j]
    ensures Duplicates(keys) == []
  {
    if keys == [] {
    } else {
      NoRepeats(keys[..|keys| - 1]);
    }
  }

  /** Any list of distinct survivors, in any order, has nothing left to report. */
  lemma SurvivorsAreStable(loaded: seq<Claim>, show: Uuid -> string, again: seq<Claim>)
    requires DistinctIds(loaded) && DistinctIds(again)
    requires forall c :: c in again ==> exists j :: 0 <= j < |loaded| && loaded[j] == c && Survives(loaded, show, j)
    ensures Duplicates(KeysOf(again, show)) == [] && PairCount(again, Concepts(again)) == 0
  {
    forall i, j | 0 <= i < j < |again|
      ensures KeyOf(again[i], show).None? || KeyOf(again[i], show) != KeyOf(again[j], show)
      ensures !Conflicting(again[i], again[j])
    {
      assert again[i] in again && again[j] in again;
      var p :| 0 <= p < |loaded| && loaded[p] == again[i] && Survives(loaded, show, p);
      var q :| 0 <= q < |loaded| && loaded[q] == again[j] && Survives(loaded, show, q);
      SurvivorsAgree(loaded, show, p, q);
    }
    NoRepeats(KeysOf(again, show));
    NoPairs(again, Concepts(again));
  }

  lemma StillPending(loaded: seq<Claim>, show: Uuid -> string, c: Claim, was: Status) returns (j: nat)
    requires c in loaded && NextStatus(loaded, show, true, c.id, was) == Pending
    ensures j < |loaded| && loaded[j] == c && Survives(loaded, show, j)
  {
    j :| 0 <= j < |loaded| && loaded[j] == c;
  }

  /** A second pass right after the first finds no duplicate and no conflict: with review and
      conflict detection on and every pending claim within the limit, whatever order the query
      lists claims of equal age in and whatever others do between the two transactions of the first,
      as long as they make no claim pending. */
  lemma SecondPassFindsNothing(claims: seq<Claim>, status: map<Uuid, Status>, max: nat, show: Uuid -> string,
                               meanwhile: map<Uuid, Status>, claims': seq<Claim>, status': map<Uuid, Status>)
    requires DistinctIds(claims) && DistinctIds(claims') && (forall c :: c in claims' ==> c in claims)
    requires |PendingOf(claims, status)| <= max
    requires forall id :: id in meanwhile && meanwhile[id] == Pending ==> id in status && status[id] == Pending
    requires status'.Keys == meanwhile.Keys && forall id :: id in status' ==>
      status'[id] == NextStatus(Load(claims, status, max), show, true, id, meanwhile[id])
    ensures Duplicates(KeysOf(Load(claims', status', max), show)) == []
    ensures PairCount(Load(claims', status', max), Concepts(Load(claims', status', max))) == 0
  {
    var loaded, again := PendingOf(claims, status), Load(claims', status', max);
    assert Load(claims, status, max) == loaded;
    PendingDistinct(claims, status);
    PendingDistinct(claims', status');
    forall c | c in again
      ensures exists j :: 0 <= j < |loaded| && loaded[j] == c && Survives(loaded, show, j)
    {
      LoadedArePending(claims', status', c);
      LoadedArePending(claims, status, c);
      var j := StillPending(loaded, show, c, meanwhile[c.id]);
    }
    SurvivorsAreStable(loaded, show, again);
  }
}
