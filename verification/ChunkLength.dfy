/** The exact length of the longest chunk, for every target and overlap. */
module ChunkLength {
  import opened Base
  import opened Text
  import opened Chunker

  /** The length of the longest chunk any text can have. The space that joins a carried tail to the
      next sentence makes it one more than `target + overlap`, except that without overlap or target
      nothing is carried, and that one-character sentences with an even overlap lose the tail's
      first character, a space, to trimming. */
  function Longest(target: nat, overlap: nat): nat {
    if target == 0 || overlap == 0 then target
    else if target == 1 && overlap % 2 == 0 then overlap + 1
    else target + overlap + 1
  }

  // ---- No chunk is longer ------------------------------------------------------------------

  lemma AppendTrimmed(current: string, sentence: string)
    requires Trimmed(current) && Trimmed(sentence) && sentence != []
    ensures Trimmed(Append(current, sentence))
    ensures |Append(current, sentence)| == |sentence| + if current == [] then 0 else |current| + 1
  {
  }

  /** The bound on the chunk under construction before parity is looked at. */
  function Roughly(target: nat, overlap: nat): nat {
    if overlap == 0 then target else target + overlap + 1
  }

  lemma {:induction false} PackWithin(current: string, sentences: seq<string>, target: nat, overlap: nat)
    requires Trimmed(current) && |current| <= Roughly(target, overlap)
    ensures AllWithin(Pack(current, sentences, target, overlap), Roughly(target, overlap))
    decreases |sentences|
  {
    if sentences == [] {
      TrimFacts(current);
    } else {
      var sentence, rest := Trim(sentences[0]), sentences[1..];
      TrimFacts(sentences[0]);
      if sentence == [] {
        PackWithin(current, rest, target, overlap);
      } else if |sentence| > target {
        WindowsWithin(sentence, 0, target, overlap);
        PackWithin([], rest, target, overlap);
      } else if current != [] && |current| + 1 + |sentence| > target {
        TailIsTail(current, overlap);
        AppendTrimmed(Tail(current, overlap), sentence);
        PackWithin(Append(Tail(current, overlap), sentence), rest, target, overlap);
      } else {
        AppendTrimmed(current, sentence);
        PackWithin(Append(current, sentence), rest, target, overlap);
      }
    }
  }

  /** Single characters with single spaces between them. */
  ghost predicate Spaced(s: string) {
    s != [] ==> |s| % 2 == 1 && forall i :: 0 <= i < |s| ==> (IsSpace(s[i]) <==> i % 2 == 1)
  }

  /** A tail of even length begins with a space and loses it. */
  lemma SpacedTail(s: string, overlap: nat)
    requires Spaced(s) && overlap > 0 && overlap % 2 == 0 && |s| <= overlap + 1
    ensures Spaced(Tail(s, overlap)) && |Tail(s, overlap)| < overlap
  {
    if |s| <= overlap {
      TrimOfTrimmed(s);
    } else {
      var tail := s[1..];
      assert s[|s| - overlap..] == tail && IsSpace(tail[0]) && tail[1..] == s[2..];
      assert !IsSpace(s[2..][0]) && TrimStart(tail) == s[2..];
      forall i | 0 <= i < |s[2..]| ensures IsSpace(s[2..][i]) <==> i % 2 == 1 {
        assert s[2..][i] == s[i + 2];
      }
    }
  }

  lemma SpacedAppend(current: string, sentence: string)
    requires Spaced(current) && |sentence| == 1 && !IsSpace(sentence[0])
    ensures Spaced(Append(current, sentence))
    ensures |Append(current, sentence)| == if current == [] then 1 else |current| + 2
  {
  }

  lemma {:induction false} SpacedPack(current: string, sentences: seq<string>, overlap: nat)
    requires overlap > 0 && overlap % 2 == 0 && Spaced(current) && |current| <= overlap + 1
    ensures AllWithin(Pack(current, sentences, 1, overlap), overlap + 1)
    decreases |sentences|
  {
    if sentences == [] {
      TrimFacts(current);
    } else {
      var sentence, rest := Trim(sentences[0]), sentences[1..];
      TrimFacts(sentences[0]);
      if sentence == [] {
        SpacedPack(current, rest, overlap);
      } else if |sentence| > 1 {
        WindowsWithin(sentence, 0, 1, overlap);
        SpacedPack([], rest, overlap);
      } else if current != [] {
        SpacedTail(current, overlap);
        SpacedAppend(Tail(current, overlap), sentence);
        SpacedPack(Append(Tail(current, overlap), sentence), rest, overlap);
      } else {
        SpacedPack(Append(current, sentence), rest, overlap);
      }
    }
  }

  /** No chunk is longer than `Longest`. */
  lemma ChunksWithin(text: string, target: nat, overlap: nat)
    ensures AllWithin(Chunks(text, target, overlap), Longest(target, overlap))
  {
    var sentences := SentencesFrom([], Trim(text));
    if target == 0 {
      ZeroTargetChunks(sentences, overlap);
    } else if target == 1 && overlap > 0 && overlap % 2 == 0 {
      SpacedPack([], sentences, overlap);
    } else {
      PackWithin([], sentences, target, overlap);
    }
  }

  // ---- A text with a chunk that long -----------------------------------------------------------

  function Dots(n: nat): string { if n == 0 then [] else ['.', ' '] + Dots(n - 1) }

  function Fill(n: nat): string { if n == 0 then [] else ['a'] + Fill(n - 1) }

  /** `n` one-character sentences and one of `t` characters, each after a space. */
  function Rest(n: nat, t: nat): string { [' '] + (Dots(n) + Fill(t)) }

  lemma {:induction false} Lengths(n: nat, t: nat)
    ensures |Dots(n)| == 2 * n && |Fill(t)| == t && |Rest(n, t)| == 1 + 2 * n + t
    decreases n + t
  {
    if n == 0 {
      if t > 0 { Lengths(0, t - 1); }
    } else {
      Lengths(n - 1, t);
    }
  }

  lemma {:induction false} FillSolid(t: nat, i: nat)
    requires i < |Fill(t)|
    ensures Fill(t)[i] == 'a'
  {
    if i == 0 {
    } else {
      FillSolid(t - 1, i - 1);
    }
  }

  /** One turn of the splitter that does not end a sentence. */
  lemma ReadOn(buf: string, rest: string)
    requires rest != [] && !(IsTerminator(rest[0]) && |rest| > 1 && IsSpace(rest[1]))
    ensures SentencesFrom(buf, rest) == SentencesFrom(buf + [rest[0]], rest[1..])
  {
  }

  lemma {:induction false} FillRead(buf: string, t: nat)
    requires Trim(buf + Fill(t)) != []
    ensures SentencesFrom(buf, Fill(t)) == [buf + Fill(t)]
    decreases t
  {
    if t == 0 {
      assert buf + [] == buf;
    } else {
      assert Fill(t)[0] == 'a' && Fill(t)[1..] == Fill(t - 1);
      assert (buf + ['a']) + Fill(t - 1) == buf + Fill(t);
      ReadOn(buf, Fill(t));
      FillRead(buf + ['a'], t - 1);
    }
  }

  lemma FillTrimmed(t: nat)
    requires t > 0
    ensures Fill(t) != [] && Trimmed(Fill(t)) && Trim(Fill(t)) == Fill(t)
  {
    Lengths(0, t);
    FillSolid(t, 0);
    FillSolid(t, t - 1);
    TrimOfTrimmed(Fill(t));
  }

  lemma TrimAfterSpace(s: string)
    ensures Trim([' '] + s) == Trim(s)
  {
    assert ([' '] + s)[1..] == s;
  }

  lemma LastSentence(t: nat)
    requires t > 0
    ensures Rest(0, t) == [' '] + Fill(t) && SentencesFrom([], Rest(0, t)) == [[' '] + Fill(t)]
    ensures Trim([' '] + Fill(t)) == Fill(t)
  {
    var rest := [' '] + Fill(t);
    assert Dots(0) + Fill(t) == Fill(t);
    FillTrimmed(t);
    TrimAfterSpace(Fill(t));
    assert rest[1..] == Fill(t) && [] + [' '] == [' '];
    ReadOn([], rest);
    FillRead([' '], t);
  }

  lemma NextSentence(n: nat, t: nat)
    requires n > 0
    ensures SentencesFrom([], Rest(n, t)) == [[' ', '.']] + SentencesFrom([], Rest(n - 1, t))
    ensures Trim([' ', '.']) == ['.'] && Rest(n, t) == [' ', '.'] + Rest(n - 1, t)
  {
    var rest, more := Rest(n, t), Rest(n - 1, t);
    assert rest == [' ', '.'] + more;
    var dot := ['.'] + more;
    assert rest[1..] == dot && dot[1] == ' ' && dot[1..] == more && [] + [' '] == [' '];
    ReadOn([], rest);
    assert [' '] + ['.'] == [' ', '.'] && [' ', '.'][1..] == ['.'];
    TrimOfTrimmed(['.']);
  }

  ghost predicate EndsIn(chunks: seq<string>, last: string) {
    chunks != [] && chunks[|chunks| - 1] == last
  }

  /** As long as the chunk under construction is no longer than the overlap, a flush carries all of
      it over: the last chunk is everything read so far. */
  lemma CarriesAll(current: string, sentence: string, rest: seq<string>, target: nat, overlap: nat, last: string)
    requires Trimmed(current) && current != [] && |current| <= overlap
    requires Trim(sentence) != [] && |Trim(sentence)| <= target
    requires EndsIn(Pack(current + ([' '] + Trim(sentence)), rest, target, overlap), last)
    ensures EndsIn(Pack(current, [sentence] + rest, target, overlap), last)
  {
    TrimOfTrimmed(current);
    PackStep(current, sentence, rest, target, overlap);
  }

  lemma PackStep(current: string, sentence: string, rest: seq<string>, target: nat, overlap: nat)
    requires current != [] && Tail(current, overlap) == current
    requires Trim(sentence) != [] && |Trim(sentence)| <= target
    ensures var out := Pack(current, [sentence] + rest, target, overlap);
      var more := Pack(current + ([' '] + Trim(sentence)), rest, target, overlap);
      out == more || out == [current] + more
  {
    assert ([sentence] + rest)[1..] == rest;
    assert Append(current, Trim(sentence)) == current + ([' '] + Trim(sentence));
  }

  lemma {:induction false} PackDots(current: string, n: nat, target: nat, overlap: nat)
    requires target > 0 && Trimmed(current) && current != [] && |current| + 2 * n <= overlap
    ensures EndsIn(Pack(current, SentencesFrom([], Rest(n, target)), target, overlap), current + Rest(n, target))
    decreases n
  {
    if n == 0 {
      LastSentence(target);
      FillTrimmed(target);
      Lengths(0, target);
      PackLast(current, Fill(target), target, overlap);
    } else {
      var more := SentencesFrom([], Rest(n - 1, target));
      NextSentence(n, target);
      assert Trimmed(current + [' ', '.']);
      PackDots(current + [' ', '.'], n - 1, target, overlap);
      ConcatAssociates(current, [' ', '.'], Rest(n - 1, target));
      PackDot(current, more, target, overlap, current + Rest(n, target));
    }
  }

  lemma PackDot(current: string, more: seq<string>, target: nat, overlap: nat, last: string)
    requires target > 0 && Trimmed(current) && current != [] && |current| <= overlap
    requires EndsIn(Pack(current + [' ', '.'], more, target, overlap), last)
    ensures EndsIn(Pack(current, [[' ', '.']] + more, target, overlap), last)
  {
    TrimAfterSpace(['.']);
    TrimOfTrimmed(['.']);
    assert [' '] + ['.'] == [' ', '.'];
    CarriesAll(current, [' ', '.'], more, target, overlap, last);
  }

  lemma PackLast(current: string, last: string, target: nat, overlap: nat)
    requires Trimmed(current) && current != [] && |current| <= overlap
    requires Trimmed(last) && last != [] && |last| <= target
    ensures EndsIn(Pack(current, [[' '] + last], target, overlap), current + ([' '] + last))
  {
    var whole := current + ([' '] + last);
    TrimAfterSpace(last);
    TrimOfTrimmed(last);
    TrimOfTrimmed(whole);
    assert Pack(whole, [], target, overlap) == [whole];
    assert [[' '] + last] + [] == [[' '] + last];
    CarriesAll(current, [' '] + last, [], target, overlap, whole);
  }

  /** A first sentence that ends in a full stop. */
  predicate IsOpening(first: string) { first == ['.'] || first == ['a', '.'] }

  lemma OpeningSplit(first: string, n: nat, t: nat)
    requires IsOpening(first)
    ensures SentencesFrom([], first + Rest(n, t)) == [first] + SentencesFrom([], Rest(n, t))
  {
    var rest := Rest(n, t);
    var dot := ['.'] + rest;
    assert dot[1..] == rest && dot[1] == ' ' && [] + ['.'] == ['.'];
    if first == ['a', '.'] {
      var text := first + rest;
      assert text[1..] == dot && text[0] == 'a' && [] + ['a'] == ['a'] && ['a'] + ['.'] == first;
      ReadOn([], text);
    }
  }

  /** The whole text is its own last chunk. */
  lemma WholeText(first: string, n: nat, target: nat, overlap: nat)
    requires IsOpening(first) && 0 < |first| <= target && |first| + 2 * n <= overlap
    ensures EndsIn(Chunks(first + Rest(n, target), target, overlap), first + Rest(n, target))
  {
    var text := first + Rest(n, target);
    var more := SentencesFrom([], Rest(n, target));
    Lengths(n, target);
    TextTrimmed(first, n, target);
    OpeningSplit(first, n, target);
    PackFirst(first, more, target, overlap);
    PackDots(first, n, target, overlap);
  }

  lemma TextTrimmed(first: string, n: nat, t: nat)
    requires IsOpening(first) && t > 0
    ensures Trim(first + Rest(n, t)) == first + Rest(n, t)
  {
    LastCharacter(n, t);
    TrimOfTrimmed(first + Rest(n, t));
  }

  lemma PackFirst(first: string, more: seq<string>, target: nat, overlap: nat)
    requires IsOpening(first) && |first| <= target
    ensures Pack([], [first] + more, target, overlap) == Pack(first, more, target, overlap)
  {
    TrimOfTrimmed(first);
    assert ([first] + more)[1..] == more;
  }

  lemma LastCharacter(n: nat, t: nat)
    requires t > 0
    ensures Rest(n, t) != [] && Rest(n, t)[|Rest(n, t)| - 1] == 'a'
  {
    Lengths(n, t);
    FillSolid(t, t - 1);
  }

  /** For every target and overlap some text has a chunk of exactly the longest length. */
  lemma LongestIsReached(target: nat, overlap: nat) returns (text: string, i: nat)
    ensures i < |Chunks(text, target, overlap)|
    ensures |Chunks(text, target, overlap)[i]| == Longest(target, overlap)
  {
    if target == 0 {
      text, i := ['a'], 0;
      EmptyChunk(overlap);
    } else if overlap == 0 {
      text, i := Fill(target), 0;
      SingleChunk(target, overlap);
    } else {
      text := LongText(target, overlap);
      i := |Chunks(text, target, overlap)| - 1;
    }
  }

  lemma LongText(target: nat, overlap: nat) returns (text: string)
    requires target > 0 && overlap > 0
    ensures EndsIn(Chunks(text, target, overlap), text) && |text| == Longest(target, overlap)
  {
    var first, n := Opening(target, overlap);
    Lengths(n, target);
    WholeText(first, n, target, overlap);
    text := first + Rest(n, target);
  }

  lemma Opening(target: nat, overlap: nat) returns (first: string, n: nat)
    requires target > 0 && overlap > 0
    ensures IsOpening(first) && 0 < |first| <= target && |first| + 2 * n <= overlap
    ensures |first| + 1 + 2 * n + target == Longest(target, overlap)
  {
    first := if overlap % 2 == 0 && target > 1 then ['a', '.'] else ['.'];
    n := (overlap - |first|) / 2;
  }

  lemma SingleChunk(target: nat, overlap: nat)
    requires target > 0
    ensures Chunks(Fill(target), target, overlap) == [Fill(target)] && |Fill(target)| == target
  {
    Lengths(0, target);
    FillTrimmed(target);
  }

  lemma EmptyChunk(overlap: nat)
    ensures Chunks(['a'], 0, overlap) == [[]]
  {
    var a := ['a'];
    TrimOfTrimmed(a);
    assert a[1..] == [] && [] + a == a;
    ReadOn([], a);
    assert SentencesFrom([], a) == [a];
    assert [a][1..] == [];
    assert WindowsFrom(a, 0, 0, overlap) == [[]] + WindowsFrom(a, Stride(0, overlap), 0, overlap);
    assert WindowsFrom(a, Stride(0, overlap), 0, overlap) == [];
    assert a[0..0] == [] && WindowsFrom(a, 0, 0, overlap) == [[]];
    assert Pack([], [], 0, overlap) == [];
    assert Pack([], [a], 0, overlap) == Flushed([]) + ([[]] + Pack([], [], 0, overlap)) == [[]];
  }

  /** Every text keeps to `target + overlap` characters exactly when nothing is carried over or, for
      one-character sentences, when the overlap is even. */
  lemma WithinTargetAndOverlapIff(target: nat, overlap: nat)
    ensures (forall text :: AllWithin(Chunks(text, target, overlap), target + overlap))
       <==> overlap == 0 || target == 0 || (target == 1 && overlap % 2 == 0)
  {
    var text, i := LongestIsReached(target, overlap);
    forall text ensures AllWithin(Chunks(text, target, overlap), Longest(target, overlap)) {
      ChunksWithin(text, target, overlap);
    }
  }
}
