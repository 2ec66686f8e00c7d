/** The sentence-packing chunker of the ingest pipeline. */
module Chunker {
  import opened Base
  import opened Text

  // ---- What the loops compute ---------------------------------------------------------

  predicate IsTerminator(c: char) { c == '.' || c == '!' || c == '?' }

  /** Sentences of `rest`, `buf` being the unfinished one before it. */
  function SentencesFrom(buf: string, rest: string): (out: seq<string>)
    decreases |rest|
  {
    if rest == [] then
      if Trim(buf) != [] then [buf] else []
    else if IsTerminator(rest[0]) && |rest| > 1 && IsSpace(rest[1]) then
      [buf + [rest[0]]] + SentencesFrom([], rest[1..])
    else
      SentencesFrom(buf + [rest[0]], rest[1..])
  }

  function Stride(target: nat, overlap: nat): (step: nat)
    ensures step >= 1
  {
    Max(target - overlap, 1)
  }

  /** The hard-split windows of `s` from `start` on. */
  function WindowsFrom(s: string, start: nat, target: nat, overlap: nat): (out: seq<string>)
    decreases |s| - start
  {
    if start >= |s| then []
    else
      var end := Min(start + target, |s|);
      [s[start..end]]
      + (if end == |s| then [] else WindowsFrom(s, start + Stride(target, overlap), target, overlap))
  }

  /** The last `n` characters, trimmed, that seed the next chunk. */
  function Tail(s: string, n: nat): (t: string) {
    if n == 0 then []
    else if |s| <= n then Trim(s)
    else TrimStart(s[|s| - n..])
  }

  function Append(current: string, sentence: string): string {
    if current == [] then sentence else current + [' '] + sentence
  }

  function Flushed(current: string): seq<string> {
    if current != [] then [current] else []
  }

  /** What one sentence does: the chunks it completes, and the chunk then under construction. */
  datatype Placed<C, T> = Placed(out: seq<C>, next: T)

  function Place(current: string, sentence: string, target: nat, overlap: nat): Placed<string, string> {
    if sentence == [] then
      Placed([], current)
    else if |sentence| > target then
      Placed(Flushed(current) + WindowsFrom(sentence, 0, target, overlap), [])
    else if current != [] && |current| + 1 + |sentence| > target then
      Placed([current], Append(Tail(current, overlap), sentence))
    else
      Placed([], Append(current, sentence))
  }

  /** Greedy packing of `sentences` onto the chunk `current` under construction. */
  function Pack(current: string, sentences: seq<string>, target: nat, overlap: nat): (out: seq<string>)
    decreases |sentences|
  {
    if sentences == [] then
      if Trim(current) != [] then [Trim(current)] else []
    else
      var placed := Place(current, Trim(sentences[0]), target, overlap);
      placed.out + Pack(placed.next, sentences[1..], target, overlap)
  }

  function Chunks(text: string, target: nat, overlap: nat): (out: seq<string>) {
    var trimmed := Trim(text);
    if trimmed == [] then []
    else if |trimmed| <= target then [trimmed]
    else Pack([], SentencesFrom([], trimmed), target, overlap)
  }

  // ---- The loops ------------------------------------------------------------------------

  method SplitSentences(text: string) returns (out: seq<string>)
    ensures out == SentencesFrom([], text)
  {
    out := [];
    var buf: string := [];
    var i := 0;
    while i < |text|
      invariant 0 <= i <= |text|
      invariant out + SentencesFrom(buf, text[i..]) == SentencesFrom([], text)
    {
      var c := text[i];
      ghost var rest := text[i..];
      assert rest[1..] == text[i + 1..];
      i := i + 1;
      if IsTerminator(c) && i < |text| && IsSpace(text[i]) {
        assert rest[1] == text[i];
        out, buf := out + [buf + [c]], [];
      } else {
        buf := buf + [c];
      }
    }
    if Trim(buf) != [] {
      out := out + [buf];
    }
  }

  method HardSplit(s: string, target: nat, overlap: nat) returns (out: seq<string>)
    ensures out == WindowsFrom(s, 0, target, overlap)
  {
    var step := Stride(target, overlap);
    out := [];
    var start := 0;
    while start < |s|
      invariant out + WindowsFrom(s, start, target, overlap) == WindowsFrom(s, 0, target, overlap)
      decreases |s| - start
    {
      var end := Min(start + target, |s|);
      out := out + [s[start..end]];
      if end == |s| {
        return;
      }
      start := start + step;
    }
  }

  /** The loop body: one trimmed sentence. */
  method PlaceSentence(chunks0: seq<string>, current0: string, sentence: string, target: nat, overlap: nat)
    returns (chunks: seq<string>, current: string)
    ensures chunks == chunks0 + Place(current0, sentence, target, overlap).out
    ensures current == Place(current0, sentence, target, overlap).next
  {
    chunks, current := chunks0, current0;
    if sentence == [] {
      return;
    }
    if |sentence| > target {
      if current != [] {
        chunks := chunks + [current];
        current := [];
      }
      var pieces := HardSplit(sentence, target, overlap);
      chunks := chunks + pieces;
      ConcatAssociates(chunks0, Flushed(current0), pieces);
      return;
    }
    var prospective := |current| + (if current == [] then 0 else 1) + |sentence|;
    if prospective > target && current != [] {
      var finished := current;
      current := Tail(finished, overlap);
      chunks := chunks + [finished];
    }
    ghost var seed := current;
    if current != [] {
      current := current + [' '];
    }
    current := current + sentence;
    assert current == Append(seed, sentence);
  }

  method ChunkText(text: string, target: nat, overlap: nat) returns (chunks: seq<string>)
    ensures chunks == Chunks(text, target, overlap)
  {
    var trimmed := Trim(text);
    if trimmed == [] {
      return [];
    }
    if |trimmed| <= target {
      return [trimmed];
    }
    var sentences := SplitSentences(trimmed);
    chunks := [];
    var current: string := [];
    for k := 0 to |sentences|
      invariant chunks + Pack(current, sentences[k..], target, overlap) == Pack([], sentences, target, overlap)
    {
      ghost var rest := sentences[k..];
      assert rest[0] == sentences[k] && rest[1..] == sentences[k + 1..];
      ghost var placed := Place(current, Trim(sentences[k]), target, overlap);
      ConcatAssociates(chunks, placed.out, Pack(placed.next, rest[1..], target, overlap));
      chunks, current := PlaceSentence(chunks, current, Trim(sentences[k]), target, overlap);
    }
    if Trim(current) != [] {
      chunks := chunks + [Trim(current)];
    }
  }

  // ---- Nothing is lost --------------------------------------------------------------------

  /** A chunk is packed from sentences, or it is the head or a later piece of an over-long sentence. */
  datatype Kind = Packed | Head | More

  /** A chunk seen as a prefix carried over from the chunk before it and a part of its own. */
  datatype Cut = Cut(carried: string, own: string, kind: Kind) {
    function Text(): string { carried + own }
  }

  /** What stands before the first chunk, and a chunk without any sentence yet. */
  ghost const START: Cut := Cut([], [], More)
  ghost const EMPTY: Cut := Cut([], [], Packed)

  ghost function Texts(cuts: seq<Cut>): (r: seq<string>)
    ensures |r| == |cuts|
  {
    seq(|cuts|, i requires 0 <= i < |cuts| => cuts[i].Text())
  }

  /** The own parts, in order. */
  ghost function Own(cuts: seq<Cut>): string {
    if cuts == [] then [] else cuts[0].own + Own(cuts[1..])
  }

  /** `t` is the end of `s` from the first non-whitespace character among its last `n` on. */
  ghost predicate IsTail(t: string, s: string, n: nat) {
    IsSuffix(t, s) && |t| <= n && Trimmed(t) && Ink(t) == Ink(Last(s, n))
  }

  /** The chunk adds something of its own. A packed chunk carries the tail of a packed chunk and
      nothing of a piece; the head of an over-long sentence carries nothing and is full; every later
      piece carries exactly the last `min(overlap, target - 1)` characters of the full piece before. */
  ghost predicate Follows(prev: Cut, cut: Cut, target: nat, overlap: nat) {
    && cut.own != []
    && match cut.kind
       case Packed => if prev.kind == Packed then IsTail(cut.carried, prev.Text(), overlap) else cut.carried == []
       case Head => cut.carried == [] && |cut.own| == target
       case More => prev.kind != Packed && |prev.Text()| == target >= 1
                    && cut.carried == Last(prev.Text(), Min(overlap, target - 1))
  }

  /** Every cut follows the one before it (`prev` for the first). */
  ghost predicate Chained(prev: Cut, cuts: seq<Cut>, target: nat, overlap: nat) {
    forall i {:trigger Before(prev, cuts, i)} :: 0 <= i < |cuts| ==>
      Follows(Before(prev, cuts, i), cuts[i], target, overlap)
  }

  ghost function Before(prev: Cut, cuts: seq<Cut>, i: nat): Cut
    requires i <= |cuts|
  {
    if i == 0 then prev else cuts[i - 1]
  }

  ghost function Joined(sentences: seq<string>): string {
    if sentences == [] then [] else sentences[0] + Joined(sentences[1..])
  }

  /** The window of a hard split at `start`, of which the characters up to `seen` were already shown. */
  ghost function Piece(s: string, start: nat, seen: nat, target: nat): Cut
    requires start <= seen < |s| && seen < start + target
  {
    Cut(s[start..seen], s[seen..Min(start + target, |s|)], if start == 0 then Head else More)
  }

  /** The windows from `start` on. */
  ghost function WindowCuts(s: string, start: nat, seen: nat, target: nat, overlap: nat): (cuts: seq<Cut>)
    requires start <= seen < |s| && seen < start + target
    ensures cuts != [] && cuts[0] == Piece(s, start, seen, target)
    decreases |s| - start
  {
    var piece := Piece(s, start, seen, target);
    if start + target >= |s| then [piece]
    else [piece] + WindowCuts(s, start + Stride(target, overlap), start + target, target, overlap)
  }

  ghost function FlushedCut(current: Cut): seq<Cut> {
    if current.Text() != [] then [current] else []
  }

  /** `sentence` appended to the chunk under construction. */
  ghost function Grow(current: Cut, sentence: string): Cut {
    if current.Text() == [] then Cut([], sentence, Packed)
    else Cut(current.carried, current.own + ([' '] + sentence), Packed)
  }

  ghost function PlaceCut(current: Cut, sentence: string, target: nat, overlap: nat): Placed<Cut, Cut>
    requires target >= 1
  {
    if sentence == [] then
      Placed([], current)
    else if |sentence| > target then
      Placed(FlushedCut(current) + WindowCuts(sentence, 0, 0, target, overlap), EMPTY)
    else if current.Text() != [] && |current.Text()| + 1 + |sentence| > target then
      Placed([current], Grow(Cut(Tail(current.Text(), overlap), [], Packed), sentence))
    else
      Placed([], Grow(current, sentence))
  }

  /** The cuts of a packing. */
  ghost function PackCuts(current: Cut, sentences: seq<string>, target: nat, overlap: nat): seq<Cut>
    requires target >= 1
    decreases |sentences|
  {
    if sentences == [] then FlushedCut(current)
    else
      var placed := PlaceCut(current, Trim(sentences[0]), target, overlap);
      placed.out + PackCuts(placed.next, sentences[1..], target, overlap)
  }

  lemma TrimOfTrimmed(s: string)
    requires Trimmed(s)
    ensures Trim(s) == s
  {
  }

  /** The carried tail holds exactly the non-whitespace characters of the last `n` characters. */
  lemma TailIsTail(s: string, n: nat)
    requires Trimmed(s)
    ensures IsTail(Tail(s, n), s, n)
  {
    if n == 0 {
      assert Last(s, 0) == [];
    } else if |s| > n {
      InkTrimStart(s[|s| - n..]);
    } else {
      TrimOfTrimmed(s);
    }
  }

  /** The chunk under construction is trimmed, and unless it is empty it has a part of its own. */
  ghost predicate Building(current: Cut) {
    current.kind == Packed && Trimmed(current.Text()) && (current.Text() != [] ==> current.own != [])
  }

  lemma GrowBuilds(current: Cut, sentence: string)
    requires Trimmed(current.Text()) && Trimmed(sentence) && sentence != []
    ensures Building(Grow(current, sentence))
    ensures Grow(current, sentence).Text() == Append(current.Text(), sentence)
    ensures Grow(current, sentence).carried == (if current.Text() == [] then [] else current.carried)
  {
    var grown := Grow(current, sentence);
    assert grown.Text() == Append(current.Text(), sentence);
  }

  lemma GrowInk(current: Cut, sentence: string)
    ensures Ink(Grow(current, sentence).own) == Ink(current.own) + Ink(sentence)
  {
    if current.Text() != [] {
      InkConcat(current.own, [' '] + sentence);
      InkConcat([' '], sentence);
      assert Ink([' ']) == [];
    }
  }

  lemma TextsConcat(a: seq<Cut>, b: seq<Cut>)
    ensures Texts(a + b) == Texts(a) + Texts(b)
  {
  }

  lemma {:induction false} OwnConcat(a: seq<Cut>, b: seq<Cut>)
    ensures Own(a + b) == Own(a) + Own(b)
  {
    if a == [] {
      assert a + b == b;
    } else {
      assert (a + b)[1..] == a[1..] + b;
      OwnConcat(a[1..], b);
    }
  }

  lemma {:induction false} WindowCutsText(s: string, start: nat, seen: nat, target: nat, overlap: nat)
    requires start <= seen < |s| && seen < start + target
    ensures Texts(WindowCuts(s, start, seen, target, overlap)) == WindowsFrom(s, start, target, overlap)
    decreases |s| - start
  {
    var end, next := start + target, start + Stride(target, overlap);
    PieceText(s, start, seen, target);
    if end < |s| {
      WindowCutsText(s, next, end, target, overlap);
      TextsConcat([Piece(s, start, seen, target)], WindowCuts(s, next, end, target, overlap));
    }
  }

  lemma PieceText(s: string, start: nat, seen: nat, target: nat)
    requires start <= seen < |s| && seen < start + target
    ensures Piece(s, start, seen, target).Text() == s[start..Min(start + target, |s|)]
    ensures Texts([Piece(s, start, seen, target)]) == [s[start..Min(start + target, |s|)]]
  {
    var end := Min(start + target, |s|);
    assert s[start..seen] + s[seen..end] == s[start..end];
  }

  /** The windows together add every character from `seen` on, once. */
  lemma {:induction false} WindowCutsOwn(s: string, start: nat, seen: nat, target: nat, overlap: nat)
    requires start <= seen < |s| && seen < start + target
    ensures Own(WindowCuts(s, start, seen, target, overlap)) == s[seen..]
    decreases |s| - start
  {
    var end, next := start + target, start + Stride(target, overlap);
    var piece := Piece(s, start, seen, target);
    if end < |s| {
      WindowCutsOwn(s, next, end, target, overlap);
      OwnCons(piece, WindowCuts(s, next, end, target, overlap));
      Rejoin(s, seen, end);
    } else {
      OwnCons(piece, []);
      assert [piece] + [] == [piece] && piece.own + [] == piece.own;
    }
  }

  lemma OwnCons(cut: Cut, more: seq<Cut>)
    ensures Own([cut] + more) == cut.own + Own(more)
  {
    assert ([cut] + more)[1..] == more;
  }

  lemma Rejoin(s: string, i: nat, j: nat)
    requires i <= j <= |s|
    ensures s[i..j] + s[j..] == s[i..]
  {
  }

  lemma ChainCons(prev: Cut, cut: Cut, cuts: seq<Cut>, target: nat, overlap: nat)
    requires Follows(prev, cut, target, overlap) && Chained(cut, cuts, target, overlap)
    ensures Chained(prev, [cut] + cuts, target, overlap)
  {
    var all := [cut] + cuts;
    forall i | 0 <= i < |all| ensures Follows(Before(prev, all, i), all[i], target, overlap) {
      if i > 0 {
        assert Follows(Before(cut, cuts, i - 1), cuts[i - 1], target, overlap);
        BeforeRest(prev, cut, cuts, i);
      }
    }
  }

  lemma BeforeRest(prev: Cut, cut: Cut, cuts: seq<Cut>, i: nat)
    requires 0 < i <= |cuts|
    ensures ([cut] + cuts)[i] == cuts[i - 1]
    ensures Before(prev, [cut] + cuts, i) == Before(cut, cuts, i - 1)
  {
  }

  lemma ChainConcat(prev: Cut, a: seq<Cut>, b: seq<Cut>, target: nat, overlap: nat)
    requires Chained(prev, a, target, overlap) && Chained(Before(prev, a, |a|), b, target, overlap)
    ensures Chained(prev, a + b, target, overlap)
  {
    forall i | 0 <= i < |a + b| ensures Follows(Before(prev, a + b, i), (a + b)[i], target, overlap) {
      FollowsInConcat(prev, a, b, i, target, overlap);
    }
  }

  lemma FollowsInConcat(prev: Cut, a: seq<Cut>, b: seq<Cut>, i: nat, target: nat, overlap: nat)
    requires Chained(prev, a, target, overlap) && Chained(Before(prev, a, |a|), b, target, overlap) && i < |a + b|
    ensures Follows(Before(prev, a + b, i), (a + b)[i], target, overlap)
  {
    if i < |a| {
      FollowsAt(prev, a, i, target, overlap);
      BeforeFront(prev, a, b, i);
    } else {
      var j := i - |a|;
      FollowsAt(Before(prev, a, |a|), b, j, target, overlap);
      BeforeBack(prev, a, b, j);
      assert |a| + j == i;
    }
  }

  lemma FollowsAt(prev: Cut, cuts: seq<Cut>, i: nat, target: nat, overlap: nat)
    requires Chained(prev, cuts, target, overlap) && i < |cuts|
    ensures Follows(Before(prev, cuts, i), cuts[i], target, overlap)
  {
  }

  lemma BeforeFront(prev: Cut, a: seq<Cut>, b: seq<Cut>, i: nat)
    requires i < |a|
    ensures (a + b)[i] == a[i] && Before(prev, a + b, i) == Before(prev, a, i)
  {
  }

  lemma BeforeBack(prev: Cut, a: seq<Cut>, b: seq<Cut>, i: nat)
    requires i < |b|
    ensures (a + b)[|a| + i] == b[i] && Before(prev, a + b, |a| + i) == Before(Before(prev, a, |a|), b, i)
  {
  }

  /** The pieces of an over-long sentence chain, and they are pieces. */
  lemma {:induction false} WindowCutsChained(s: string, start: nat, seen: nat, prev: Cut, target: nat, overlap: nat)
    requires start <= seen < |s| && seen < start + target
    requires Follows(prev, WindowCuts(s, start, seen, target, overlap)[0], target, overlap)
    ensures var cuts := WindowCuts(s, start, seen, target, overlap);
      Chained(prev, cuts, target, overlap) && cuts[|cuts| - 1].kind != Packed
    decreases |s| - start
  {
    var end, next := start + target, start + Stride(target, overlap);
    var piece := Piece(s, start, seen, target);
    if end < |s| {
      WindowFollows(s, start, seen, target, overlap);
      WindowCutsChained(s, next, end, piece, target, overlap);
      ChainCons(prev, piece, WindowCuts(s, next, end, target, overlap), target, overlap);
    } else {
      ChainCons(prev, piece, [], target, overlap);
      assert [piece] + [] == [piece];
    }
  }

  lemma WindowFollows(s: string, start: nat, seen: nat, target: nat, overlap: nat)
    requires start <= seen < |s| && seen < start + target < |s|
    ensures var next := Piece(s, start + Stride(target, overlap), start + target, target);
      Follows(Piece(s, start, seen, target), next, target, overlap)
  {
    var end, next := start + target, start + Stride(target, overlap);
    PieceText(s, start, seen, target);
    assert s[next..end] == s[start..end][next - start..];
  }

  lemma FlushedText(current: Cut)
    ensures Texts(FlushedCut(current)) == Flushed(current.Text())
  {
  }

  /** Placing a sentence as a cut spells what placing it as text does. */
  lemma PlaceCutText(current: Cut, sentence: string, target: nat, overlap: nat)
    requires target >= 1 && Building(current) && Trimmed(sentence)
    ensures var cut := PlaceCut(current, sentence, target, overlap);
      var placed := Place(current.Text(), sentence, target, overlap);
      Texts(cut.out) == placed.out && cut.next.Text() == placed.next && Building(cut.next)
  {
    if sentence == [] {
    } else if |sentence| > target {
      FlushedText(current);
      WindowCutsText(sentence, 0, 0, target, overlap);
      TextsConcat(FlushedCut(current), WindowCuts(sentence, 0, 0, target, overlap));
    } else if current.Text() != [] && |current.Text()| + 1 + |sentence| > target {
      var tail := Cut(Tail(current.Text(), overlap), [], Packed);
      TailIsTail(current.Text(), overlap);
      assert tail.Text() == tail.carried;
      GrowBuilds(tail, sentence);
    } else {
      GrowBuilds(current, sentence);
    }
  }

  /** The cuts spell the chunks. */
  lemma {:induction false} PackCutsText(current: Cut, sentences: seq<string>, target: nat, overlap: nat)
    requires target >= 1 && Building(current)
    ensures Texts(PackCuts(current, sentences, target, overlap))
         == Pack(current.Text(), sentences, target, overlap)
    decreases |sentences|
  {
    if sentences == [] {
      TrimOfTrimmed(current.Text());
    } else {
      var placed := PlaceCut(current, Trim(sentences[0]), target, overlap);
      TrimFacts(sentences[0]);
      PlaceCutText(current, Trim(sentences[0]), target, overlap);
      PackCutsText(placed.next, sentences[1..], target, overlap);
      TextsConcat(placed.out, PackCuts(placed.next, sentences[1..], target, overlap));
    }
  }

  /** Nothing is owned before there is any text. */
  ghost predicate OwnsText(current: Cut) { current.Text() == [] ==> current.own == [] }

  /** Placing a sentence adds its non-whitespace characters to what is owned. */
  lemma PlaceCutInk(current: Cut, sentence: string, target: nat, overlap: nat)
    requires target >= 1 && OwnsText(current)
    ensures var placed := PlaceCut(current, sentence, target, overlap);
      OwnsText(placed.next) && Ink(Own(placed.out)) + Ink(placed.next.own) == Ink(current.own) + Ink(sentence)
  {
    if sentence == [] {
      assert [] + Ink(current.own) == Ink(current.own) + [];
    } else if |sentence| > target {
      FlushedOwn(current);
      WindowCutsOwn(sentence, 0, 0, target, overlap);
      OwnInkConcat(FlushedCut(current), WindowCuts(sentence, 0, 0, target, overlap));
      assert sentence[0..] == sentence;
    } else if current.Text() != [] && |current.Text()| + 1 + |sentence| > target {
      GrowInk(Cut(Tail(current.Text(), overlap), [], Packed), sentence);
      assert Own([current]) == current.own + Own([]) == current.own;
      assert [] + Ink(sentence) == Ink(sentence);
    } else {
      GrowInk(current, sentence);
      assert [] + (Ink(current.own) + Ink(sentence)) == Ink(current.own) + Ink(sentence);
    }
  }

  /** The cuts own every non-whitespace character that was put in. */
  lemma {:induction false} PackCutsInk(current: Cut, sentences: seq<string>, target: nat, overlap: nat)
    requires target >= 1 && OwnsText(current)
    ensures Ink(Own(PackCuts(current, sentences, target, overlap))) == Ink(current.own) + Ink(Joined(sentences))
    decreases |sentences|
  {
    if sentences == [] {
      FlushedOwn(current);
      assert Ink(current.own) + Ink(Joined([])) == Ink(current.own);
    } else {
      var sentence, rest := Trim(sentences[0]), sentences[1..];
      var placed := PlaceCut(current, sentence, target, overlap);
      PlaceCutInk(current, sentence, target, overlap);
      PackCutsInk(placed.next, rest, target, overlap);
      OwnInkConcat(placed.out, PackCuts(placed.next, rest, target, overlap));
      JoinedInk(sentences);
      ConcatAssociates(Ink(Own(placed.out)), Ink(placed.next.own), Ink(Joined(rest)));
      ConcatAssociates(Ink(current.own), Ink(sentence), Ink(Joined(rest)));
    }
  }

  lemma FlushedOwn(current: Cut)
    requires current.Text() == [] ==> current.own == []
    ensures Own(FlushedCut(current)) == current.own
  {
    if current.Text() != [] {
      assert Own([current]) == current.own + Own([]) == current.own;
    }
  }

  lemma JoinedInk(sentences: seq<string>)
    requires sentences != []
    ensures Ink(Joined(sentences)) == Ink(Trim(sentences[0])) + Ink(Joined(sentences[1..]))
  {
    TrimFacts(sentences[0]);
    InkConcat(sentences[0], Joined(sentences[1..]));
  }

  lemma OwnInkConcat(a: seq<Cut>, b: seq<Cut>)
    ensures Ink(Own(a + b)) == Ink(Own(a)) + Ink(Own(b))
  {
    OwnConcat(a, b);
    InkConcat(Own(a), Own(b));
  }

  /** The chunk before whatever comes after `cuts`. */
  ghost function LastCut(prev: Cut, cuts: seq<Cut>): Cut { Before(prev, cuts, |cuts|) }

  /** The chunk under construction follows the last one; right after a piece it may still be empty. */
  ghost predicate Continues(prev: Cut, current: Cut, target: nat, overlap: nat) {
    if current.Text() == [] then prev.kind != Packed else Follows(prev, current, target, overlap)
  }

  /** The pieces of an over-long sentence continue any chain. */
  lemma SplitChained(prev: Cut, flushed: seq<Cut>, sentence: string, target: nat, overlap: nat)
    requires 1 <= target < |sentence| && Chained(prev, flushed, target, overlap)
    ensures var all := flushed + WindowCuts(sentence, 0, 0, target, overlap);
      Chained(prev, all, target, overlap) && LastCut(prev, all).kind != Packed
  {
    var windows := WindowCuts(sentence, 0, 0, target, overlap);
    assert windows[0] == Cut([], sentence[0..target], Head);
    WindowCutsChained(sentence, 0, 0, LastCut(prev, flushed), target, overlap);
    ChainConcat(prev, flushed, windows, target, overlap);
  }

  /** Placing a sentence continues the chain. */
  lemma PlaceCutChained(prev: Cut, current: Cut, sentence: string, target: nat, overlap: nat)
    requires target >= 1 && Building(current) && Continues(prev, current, target, overlap) && Trimmed(sentence)
    ensures var placed := PlaceCut(current, sentence, target, overlap);
      Chained(prev, placed.out, target, overlap)
      && Continues(LastCut(prev, placed.out), placed.next, target, overlap)
  {
    if sentence == [] {
    } else if |sentence| > target {
      SplitChained(prev, FlushedCut(current), sentence, target, overlap);
    } else if current.Text() != [] && |current.Text()| + 1 + |sentence| > target {
      var tail := Cut(Tail(current.Text(), overlap), [], Packed);
      TailIsTail(current.Text(), overlap);
      assert tail.Text() == tail.carried;
      GrowBuilds(tail, sentence);
    } else {
      GrowBuilds(current, sentence);
    }
  }

  /** Every chunk follows the one before it. */
  lemma {:induction false} PackCutsChained(prev: Cut, current: Cut, sentences: seq<string>,
                                           target: nat, overlap: nat)
    requires target >= 1 && Building(current) && Continues(prev, current, target, overlap)
    ensures Chained(prev, PackCuts(current, sentences, target, overlap), target, overlap)
    decreases |sentences|
  {
    if sentences == [] {
    } else {
      var sentence, rest := Trim(sentences[0]), sentences[1..];
      var placed := PlaceCut(current, sentence, target, overlap);
      TrimFacts(sentences[0]);
      PlaceCutText(current, sentence, target, overlap);
      PlaceCutChained(prev, current, sentence, target, overlap);
      PackCutsChained(LastCut(prev, placed.out), placed.next, rest, target, overlap);
      ChainConcat(prev, placed.out, PackCuts(placed.next, rest, target, overlap), target, overlap);
    }
  }

  lemma {:induction false} SentencesKeepInk(buf: string, rest: string)
    ensures Ink(Joined(SentencesFrom(buf, rest))) == Ink(buf) + Ink(rest)
    decreases |rest|
  {
    if rest == [] {
      BlankHasNoInk(buf);
      JoinedCons(buf, []);
      assert Ink(buf) + Ink(rest) == Ink(buf);
    } else {
      var grown := buf + [rest[0]];
      InkMoves(buf, rest);
      if IsTerminator(rest[0]) && |rest| > 1 && IsSpace(rest[1]) {
        var out := SentencesFrom([], rest[1..]);
        SentencesKeepInk([], rest[1..]);
        assert Ink(Joined(out)) == Ink(rest[1..]) by {
          assert Ink([]) + Ink(rest[1..]) == Ink(rest[1..]);
        }
        JoinedCons(grown, out);
        assert SentencesFrom(buf, rest) == [grown] + out;
      } else {
        SentencesKeepInk(grown, rest[1..]);
      }
    }
  }

  lemma JoinedCons(first: string, more: seq<string>)
    ensures Ink(Joined([first] + more)) == Ink(first) + Ink(Joined(more))
    ensures Joined([first]) == first
  {
    assert ([first] + more)[1..] == more;
    InkConcat(first, Joined(more));
  }

  /** Moving a character from `rest` to the end of `buf` moves its ink. */
  lemma InkMoves(buf: string, rest: string)
    requires rest != []
    ensures Ink(buf) + Ink(rest) == Ink(buf + [rest[0]]) + Ink(rest[1..])
  {
    assert (buf + [rest[0]]) + rest[1..] == buf + rest;
    InkConcat(buf + [rest[0]], rest[1..]);
    InkConcat(buf, rest);
  }

  /** `chunks` is spelled by cuts that chain and whose own parts hold exactly the ink of `text`. */
  ghost predicate Lossless(text: string, chunks: seq<string>, cuts: seq<Cut>, target: nat, overlap: nat) {
    Texts(cuts) == chunks && Chained(START, cuts, target, overlap) && Ink(Own(cuts)) == Ink(text)
  }

  ghost predicate IsLossless(text: string, chunks: seq<string>, target: nat, overlap: nat) {
    exists cuts :: Lossless(text, chunks, cuts, target, overlap)
  }

  /** For every positive target: each chunk is a carried prefix plus a non-empty part of its own, the
      carried prefix is what the overlap says of the chunk before it, and the own parts in order hold
      exactly the non-whitespace characters of the text. */
  lemma ChunksLossless(text: string, target: nat, overlap: nat)
    requires target >= 1
    ensures IsLossless(text, Chunks(text, target, overlap), target, overlap)
  {
    var trimmed := Trim(text);
    TrimFacts(text);
    if trimmed == [] || |trimmed| <= target {
      var whole := Cut([], trimmed, Packed);
      var cuts := FlushedCut(whole);
      assert whole.Text() == trimmed;
      FlushedOwn(whole);
      assert Texts(cuts) == Chunks(text, target, overlap);
      assert Lossless(text, Chunks(text, target, overlap), cuts, target, overlap);
    } else {
      var sentences := SentencesFrom([], trimmed);
      SentencesKeepInk([], trimmed);
      PackCutsText(EMPTY, sentences, target, overlap);
      PackCutsInk(EMPTY, sentences, target, overlap);
      PackCutsChained(START, EMPTY, sentences, target, overlap);
      var cuts := PackCuts(EMPTY, sentences, target, overlap);
      assert Lossless(text, Chunks(text, target, overlap), cuts, target, overlap);
    }
  }

  /** A text has chunks exactly when it is not blank. */
  lemma ChunksOfBlank(text: string, target: nat, overlap: nat)
    requires target >= 1
    ensures Chunks(text, target, overlap) == [] <==> Trim(text) == []
  {
    ChunksLossless(text, target, overlap);
    var cuts :| Lossless(text, Chunks(text, target, overlap), cuts, target, overlap);
    BlankHasNoInk(text);
    assert Trim(text) == [] ==> Chunks(text, target, overlap) == [];
    assert cuts == [] ==> Own(cuts) == [];
  }

  // ---- When a chunk is finished -----------------------------------------------------------------

  /** `current` with more sentences, one space before each; blank ones add nothing. */
  ghost function Line(current: string, sentences: seq<string>): (line: string)
    ensures |line| >= |current|
    decreases |sentences|
  {
    if sentences == [] then current
    else
      var sentence := Trim(sentences[0]);
      Line(if sentence == [] then current else current + ([' '] + sentence), sentences[1..])
  }

  /** Sentences that fit are packed onto the chunk under construction. */
  lemma {:induction false} PackTakes(current: string, sentences: seq<string>, k: nat, target: nat, overlap: nat)
    requires current != [] && k <= |sentences| && |Line(current, sentences[..k])| <= target
    ensures Pack(current, sentences, target, overlap)
         == Pack(Line(current, sentences[..k]), sentences[k..], target, overlap)
    decreases k
  {
    if k == 0 {
      assert sentences[0..] == sentences;
    } else {
      var sentence, rest := Trim(sentences[0]), sentences[1..];
      var next := if sentence == [] then current else current + ([' '] + sentence);
      assert sentences[..k][1..] == rest[..k - 1] && sentences[k..] == rest[k - 1..];
      assert next == current + [' '] + sentence || sentence == [];
      assert Place(current, sentence, target, overlap) == Placed([], next);
      PackTakes(next, rest, k - 1, target, overlap);
      assert [] + Pack(next, rest, target, overlap) == Pack(next, rest, target, overlap);
    }
  }

  /** A chunk is finished exactly when the next sentence does not fit: it is the longest line of
      sentences that keeps to the target. The next one starts with the tail of it, or, when it is an
      over-long sentence, is cut into windows; after those the packing starts anew. */
  lemma PackIsGreedy(current: string, sentences: seq<string>, k: nat, target: nat, overlap: nat)
    requires current != [] && Trimmed(current) && k <= |sentences| && |Line(current, sentences[..k])| <= target
    ensures var line := Line(current, sentences[..k]); var packed := Pack(current, sentences, target, overlap);
      if k == |sentences| then packed == [line]
      else
        var next, rest := Trim(sentences[k]), sentences[k + 1..];
        next != [] && |line| + 1 + |next| > target ==>
          packed == [line]
            + if |next| > target then WindowsFrom(next, 0, target, overlap) + Pack([], rest, target, overlap)
              else Pack(Append(Tail(line, overlap), next), rest, target, overlap)
  {
    var line := Line(current, sentences[..k]);
    PackTakes(current, sentences, k, target, overlap);
    LineTrimmed(current, sentences[..k]);
    if k == |sentences| {
      TrimOfTrimmed(line);
    } else {
      var rest := sentences[k..];
      assert rest[0] == sentences[k] && rest[1..] == sentences[k + 1..];
      PackFlushes(line, rest, target, overlap);
    }
  }

  lemma PackFlushes(line: string, rest: seq<string>, target: nat, overlap: nat)
    requires line != [] && rest != []
    ensures var next := Trim(rest[0]);
      next != [] && |line| + 1 + |next| > target ==>
        Pack(line, rest, target, overlap) == [line]
          + if |next| > target then WindowsFrom(next, 0, target, overlap) + Pack([], rest[1..], target, overlap)
            else Pack(Append(Tail(line, overlap), next), rest[1..], target, overlap)
  {
    var windows := WindowsFrom(Trim(rest[0]), 0, target, overlap);
    ConcatAssociates([line], windows, Pack([], rest[1..], target, overlap));
  }

  lemma {:induction false} LineTrimmed(current: string, sentences: seq<string>)
    requires current != [] && Trimmed(current)
    ensures Line(current, sentences) != [] && Trimmed(Line(current, sentences))
    decreases |sentences|
  {
    if sentences == [] {
    } else {
      TrimFacts(sentences[0]);
      LineTrimmed(if Trim(sentences[0]) == [] then current else current + ([' '] + Trim(sentences[0])), sentences[1..]);
    }
  }

  /** A text that fits is one chunk; any other is packed sentence by sentence, the first sentence that
      is not blank being the start of the first chunk, or cut into windows. */
  lemma PackingStarts(text: string, target: nat, overlap: nat)
    ensures 0 < |Trim(text)| <= target ==> Chunks(text, target, overlap) == [Trim(text)]
    ensures |Trim(text)| > target ==>
      Chunks(text, target, overlap) == Pack([], SentencesFrom([], Trim(text)), target, overlap)
    ensures forall sentences | sentences != [] ::
      var first, rest := Trim(sentences[0]), sentences[1..];
      Pack([], sentences, target, overlap) ==
        if first == [] then Pack([], rest, target, overlap)
        else if |first| > target then WindowsFrom(first, 0, target, overlap) + Pack([], rest, target, overlap)
        else Pack(first, rest, target, overlap)
  {
    forall sentences: seq<string> | sentences != []
      ensures var first, rest := Trim(sentences[0]), sentences[1..];
        Pack([], sentences, target, overlap) ==
          if first == [] then Pack([], rest, target, overlap)
          else if |first| > target then WindowsFrom(first, 0, target, overlap) + Pack([], rest, target, overlap)
          else Pack(first, rest, target, overlap)
    {
      var first, rest := Trim(sentences[0]), sentences[1..];
      var placed := Place([], first, target, overlap);
      assert [] + WindowsFrom(first, 0, target, overlap) == WindowsFrom(first, 0, target, overlap);
      var more := Pack(placed.next, rest, target, overlap);
      assert placed.out == [] ==> placed.out + more == more;
    }
  }

  // ---- Where sentences are cut ------------------------------------------------------------------

  /** A sentence may end at position `i`: a terminator with whitespace right after it. */
  predicate IsBoundary(s: string, i: nat) {
    i + 1 < |s| && s[i] in {'.', '!', '?'} && IsSpace(s[i + 1])
  }

  ghost predicate Uncut(s: string) { forall i :: 0 <= i < |s| ==> !IsBoundary(s, i) }

  ghost predicate Meet(a: string, b: string) {
    a != [] && b != [] && a[|a| - 1] in {'.', '!', '?'} && IsSpace(b[0])
  }

  /** No sentence has a boundary inside, and between two sentences there is one. */
  ghost predicate CutAtBoundaries(sentences: seq<string>) {
    && (forall k :: 0 <= k < |sentences| ==> sentences[k] != [] && Uncut(sentences[k]))
    && (forall k :: 0 < k < |sentences| ==> Meet(sentences[k - 1], sentences[k]))
  }

  lemma CutCons(first: string, more: seq<string>)
    requires first != [] && Uncut(first) && CutAtBoundaries(more)
    requires more != [] ==> Meet(first, more[0])
    ensures CutAtBoundaries([first] + more)
  {
    var all := [first] + more;
    forall k | 0 < k < |all| ensures Meet(all[k - 1], all[k]) {
      if k > 1 { assert Meet(more[k - 2], more[k - 1]); }
    }
  }

  lemma {:induction false} FirstCharacter(buf: string, rest: string)
    requires buf + rest != [] && SentencesFrom(buf, rest) != []
    ensures SentencesFrom(buf, rest)[0] != [] && SentencesFrom(buf, rest)[0][0] == (buf + rest)[0]
    decreases |rest|
  {
    if rest != [] && !(IsTerminator(rest[0]) && |rest| > 1 && IsSpace(rest[1])) {
      FirstCharacter(buf + [rest[0]], rest[1..]);
    }
  }

  lemma {:induction false} SentencesFromCut(buf: string, rest: string)
    requires Uncut(buf + (if rest == [] then [] else [rest[0]]))
    ensures CutAtBoundaries(SentencesFrom(buf, rest))
    decreases |rest|
  {
    if rest == [] {
      assert buf + [] == buf;
      if Trim(buf) != [] { CutCons(buf, []); }
    } else {
      var grown, more := buf + [rest[0]], rest[1..];
      if IsTerminator(rest[0]) && |rest| > 1 && IsSpace(rest[1]) {
        var out := SentencesFrom([], more);
        assert [] + [more[0]] == [more[0]];
        SentencesFromCut([], more);
        if out != [] {
          FirstCharacter([], more);
          assert ([] + more)[0] == rest[1];
        }
        CutCons(grown, out);
      } else {
        GrownUncut(grown, more);
        SentencesFromCut(grown, more);
      }
    }
  }

  lemma GrownUncut(buf: string, rest: string)
    requires buf != [] && Uncut(buf)
    requires !(IsTerminator(buf[|buf| - 1]) && rest != [] && IsSpace(rest[0]))
    ensures Uncut(buf + (if rest == [] then [] else [rest[0]]))
  {
    var more := buf + (if rest == [] then [] else [rest[0]]);
    forall i | 0 <= i < |more| ensures !IsBoundary(more, i) {
      if i + 1 < |buf| { assert !IsBoundary(buf, i); }
    }
  }

  /** The splitter drops a blank remainder and nothing else. */
  lemma {:induction false} SentencesRestore(buf: string, rest: string) returns (blank: string)
    ensures Trim(blank) == [] && Joined(SentencesFrom(buf, rest)) + blank == buf + rest
    decreases |rest|
  {
    if rest == [] {
      JoinedCons(buf, []);
      blank := if Trim(buf) != [] then [] else buf;
    } else {
      var grown := buf + [rest[0]];
      assert grown + rest[1..] == buf + rest;
      if IsTerminator(rest[0]) && |rest| > 1 && IsSpace(rest[1]) {
        blank := SentencesRestore([], rest[1..]);
        var out := SentencesFrom([], rest[1..]);
        assert ([grown] + out)[1..] == out;
        assert SentencesFrom(buf, rest) == [grown] + out;
        ConcatAssociates(grown, Joined(out), blank);
        assert [] + rest[1..] == rest[1..];
      } else {
        blank := SentencesRestore(grown, rest[1..]);
      }
    }
  }

  /** The sentences of a text are cut exactly where a terminator is followed by whitespace, and put
      together again they are the text, up to a blank end. */
  lemma SentencesAreCut(text: string) returns (blank: string)
    ensures CutAtBoundaries(SentencesFrom([], text))
    ensures Trim(blank) == [] && Joined(SentencesFrom([], text)) + blank == text
  {
    SentencesFromCut([], text);
    blank := SentencesRestore([], text);
    assert [] + text == text;
  }

  // ---- Without a target ------------------------------------------------------------------------

  ghost predicate AllWithin(chunks: seq<string>, bound: nat) {
    forall i :: 0 <= i < |chunks| ==> |chunks[i]| <= bound
  }

  lemma {:induction false} WindowsWithin(s: string, start: nat, target: nat, overlap: nat)
    ensures AllWithin(WindowsFrom(s, start, target, overlap), target)
    decreases |s| - start
  {
    if start < |s| && Min(start + target, |s|) < |s| {
      WindowsWithin(s, start + Stride(target, overlap), target, overlap);
    }
  }

  lemma {:induction false} ZeroTargetChunks(sentences: seq<string>, overlap: nat)
    ensures AllWithin(Pack([], sentences, 0, overlap), 0)
    decreases |sentences|
  {
    if sentences == [] {
    } else {
      WindowsWithin(Trim(sentences[0]), 0, 0, overlap);
      ZeroTargetChunks(sentences[1..], overlap);
    }
  }

  /** The positive target is needed: with target zero every chunk is empty, so a text is chunked
      without loss exactly when the target is positive or the text is blank. */
  lemma LosslessIff(text: string, target: nat, overlap: nat)
    ensures IsLossless(text, Chunks(text, target, overlap), target, overlap) <==> target >= 1 || Trim(text) == []
  {
    if target >= 1 {
      ChunksLossless(text, target, overlap);
    } else {
      ZeroTargetIff(text, target, overlap);
    }
  }

  lemma ZeroTargetIff(text: string, target: nat, overlap: nat)
    requires target == 0
    ensures IsLossless(text, Chunks(text, target, overlap), target, overlap) <==> Trim(text) == []
  {
    if Trim(text) == [] {
      BlankLossless(text, target, overlap);
    } else {
      ZeroTargetLoses(text, target, overlap);
    }
  }

  lemma BlankLossless(text: string, target: nat, overlap: nat)
    requires Trim(text) == []
    ensures IsLossless(text, Chunks(text, target, overlap), target, overlap)
  {
    BlankHasNoInk(text);
    assert Chunks(text, target, overlap) == [] && Ink(Own([])) == [] == Ink(text);
    assert Lossless(text, [], [], target, overlap);
  }

  lemma ZeroTargetLoses(text: string, target: nat, overlap: nat)
    requires target == 0 && Trim(text) != []
    ensures !IsLossless(text, Chunks(text, target, overlap), target, overlap)
  {
    var chunks := Chunks(text, target, overlap);
    ZeroTargetChunks(SentencesFrom([], Trim(text)), overlap);
    BlankHasNoInk(text);
    forall cuts ensures !Lossless(text, chunks, cuts, target, overlap) {
      if Lossless(text, chunks, cuts, target, overlap) {
        LosslessNotEmpty(text, chunks, cuts, target, overlap);
      }
    }
  }

  lemma LosslessNotEmpty(text: string, chunks: seq<string>, cuts: seq<Cut>, target: nat, overlap: nat)
    requires Lossless(text, chunks, cuts, target, overlap) && Ink(text) != []
    ensures !AllWithin(chunks, 0)
  {
    assert Follows(Before(START, cuts, 0), cuts[0], target, overlap);
    assert chunks[0] == Texts(cuts)[0] == cuts[0].carried + cuts[0].own;
  }
}
