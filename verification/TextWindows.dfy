/** The server's dependency-free chunker: overlapping character windows that prefer to end
    after a full stop. */
module TextWindows {
  import opened Base

  /** What `\s` matches in an ECMAScript regular expression. */
  predicate IsJsSpace(c: char) {
    || '\U{0009}' <= c <= '\U{000D}'
    || c == ' ' || c == '\U{00A0}' || c == '\U{1680}' || '\U{2000}' <= c <= '\U{200A}'
    || c == '\U{2028}' || c == '\U{2029}' || c == '\U{202F}' || c == '\U{205F}' || c == '\U{3000}' || c == '\U{FEFF}'
  }

  /** Every run of whitespace becomes one space; `inRun` says a run is already open. */
  function Collapse(text: string, inRun: bool): string {
    if text == [] then []
    else if !IsJsSpace(text[0]) then [text[0]] + Collapse(text[1..], false)
    else (if inRun then [] else [' ']) + Collapse(text[1..], true)
  }

  function StripStart(s: string): string { if s != [] && s[0] == ' ' then StripStart(s[1..]) else s }

  function StripEnd(s: string): string { if s != [] && s[|s| - 1] == ' ' then StripEnd(s[..|s| - 1]) else s }

  /** `trim()` of a string whose only whitespace is the space character. */
  function Strip(s: string): string { StripEnd(StripStart(s)) }

  function Clean(text: string): string { Strip(Collapse(text, false)) }

  predicate IsStop(s: string, i: int) {
    0 <= i && i + 1 < |s| && s[i] == '.' && s[i + 1] == ' '
  }

  /** `s.lastIndexOf('. ', from)`: the match may begin at `from` itself. */
  function LastStop(s: string, from: int): (i: int)
    ensures -1 <= i && (i >= 0 ==> i <= from && IsStop(s, i))
    decreases from + 1
  {
    if from < 0 then -1 else if IsStop(s, from) then from else LastStop(s, from - 1)
  }

  lemma {:induction false} LastStopIsLast(s: string, from: int, j: int)
    requires LastStop(s, from) < j <= from
    ensures !IsStop(s, j)
    decreases from + 1
  {
    if from >= 0 && !IsStop(s, from) && j < from {
      LastStopIsLast(s, from - 1, j);
    }
  }

  /** Where the window from `start` ends. `target / 2` is a real division in the source. */
  function WindowEnd(s: string, start: nat, target: nat): (end: nat)
    requires start < |s|
    ensures start <= end <= |s| && end <= start + target + 1
    ensures target >= 1 ==> end > start
  {
    var end := Min(start + target, |s|);
    if end < |s| then
      var dot := LastStop(s, end);
      if 2 * dot > 2 * start + target then dot + 1 else end
    else end
  }

  datatype Window = Window(start: nat, end: nat)

  function NextStart(w: Window, overlap: nat): nat { Max(w.end - overlap, w.start + 1) }

  /** The windows the loop cuts from `start` on. */
  function WindowsFrom(s: string, start: nat, target: nat, overlap: nat): (windows: seq<Window>)
    ensures start < |s| ==> windows != []
    decreases |s| - start
  {
    if start >= |s| then []
    else
      var w := Window(start, WindowEnd(s, start, target));
      [w] + (if w.end >= |s| then [] else WindowsFrom(s, NextStart(w, overlap), target, overlap))
  }

  /** A window's text without its outer spaces. */
  function Slice(s: string, w: Window): string
    requires w.start <= w.end <= |s|
  {
    Strip(s[w.start..w.end])
  }

  /** One chunk per window, its slice. */
  ghost predicate AreSlices(s: string, chunks: seq<string>, windows: seq<Window>) {
    && |chunks| == |windows|
    && forall i :: 0 <= i < |windows| ==>
         windows[i].start <= windows[i].end <= |s| && chunks[i] == Slice(s, windows[i])
  }

  /** The end of the window: the full-stop search of the loop body. */
  method FindEnd(clean: string, start: nat, target: nat) returns (end: nat)
    requires start < |clean|
    ensures end == WindowEnd(clean, start, target)
  {
    end := Min(start + target, |clean|);
    if end < |clean| {
      var dot := LastStop(clean, end);
      if 2 * dot > 2 * start + target {
        end := dot + 1;
      }
    }
  }

  method ChunkText(text: string, target: nat, overlap: nat) returns (chunks: seq<string>)
    ensures AreSlices(Clean(text), chunks, WindowsFrom(Clean(text), 0, target, overlap))
  {
    var clean := Clean(text);
    if clean == [] {
      return [];
    }
    chunks := ChunkClean(clean, target, overlap);
  }

  lemma SlicesGrow(s: string, chunks: seq<string>, cut: seq<Window>, w: Window)
    requires AreSlices(s, chunks, cut) && w.start <= w.end <= |s|
    ensures AreSlices(s, chunks + [Slice(s, w)], cut + [w])
  {
  }

  /** The window loop over the cleaned text. */
  method ChunkClean(clean: string, target: nat, overlap: nat) returns (chunks: seq<string>)
    ensures AreSlices(clean, chunks, WindowsFrom(clean, 0, target, overlap))
  {
    chunks := [];
    ghost var whole, cut: seq<Window> := WindowsFrom(clean, 0, target, overlap), [];
    var start := 0;
    while start < |clean|
      invariant AreSlices(clean, chunks, cut)
      invariant cut + WindowsFrom(clean, start, target, overlap) == whole
      decreases |clean| - start
    {
      var end := FindEnd(clean, start, target);
      var w := Window(start, end);
      ConcatAssociates(cut, [w], WindowsFrom(clean, NextStart(w, overlap), target, overlap));
      SlicesGrow(clean, chunks, cut, w);
      chunks, cut := chunks + [Slice(clean, w)], cut + [w];
      if end >= |clean| {
        assert cut + [] == cut == whole;
        break;
      }
      start := Max(end - overlap, start + 1);
      assert start == NextStart(w, overlap);
    }
    assert cut + [] == cut;
    assert cut == whole;
  }

  /** The windows run from `from` to the end of `s` without a gap, each starting later than
      the one before it but no later than where that one ended, none longer than `target + 1`. */
  ghost predicate Covers(s: string, windows: seq<Window>, from: nat, target: nat) {
    && windows != [] && windows[0].start == from && windows[|windows| - 1].end == |s|
    && (forall i :: 0 <= i < |windows| ==>
          windows[i].start < windows[i].end <= |s| && windows[i].end - windows[i].start <= target + 1)
    && (forall i :: 0 <= i < |windows| - 1 ==>
          windows[i].start < windows[i + 1].start <= windows[i].end)
  }

  /** For every positive target and every overlap, even one as large as the target. */
  lemma {:induction false} WindowsCover(s: string, start: nat, target: nat, overlap: nat)
    requires target >= 1 && start < |s|
    ensures Covers(s, WindowsFrom(s, start, target, overlap), start, target)
    decreases |s| - start
  {
    var w := Window(start, WindowEnd(s, start, target));
    if w.end < |s| {
      WindowsCover(s, NextStart(w, overlap), target, overlap);
      CoverCons(s, w, WindowsFrom(s, NextStart(w, overlap), target, overlap), NextStart(w, overlap), target);
    }
  }

  lemma CoverCons(s: string, w: Window, more: seq<Window>, next: nat, target: nat)
    requires Covers(s, more, next, target) && w.start < next <= w.end <= |s| && w.end - w.start <= target + 1
    ensures Covers(s, [w] + more, w.start, target)
  {
    var all := [w] + more;
    forall i | 0 <= i < |all| - 1 ensures all[i].start < all[i + 1].start <= all[i].end {
      if i > 0 { assert all[i] == more[i - 1] && all[i + 1] == more[i]; }
    }
  }

  /** So every character lies in some window. */
  lemma {:induction false} EveryCharacterCovered(s: string, windows: seq<Window>, from: nat, target: nat,
                                               k: nat, n: nat)
    requires Covers(s, windows, from, target) && n < |windows| && from <= k < windows[n].end
    ensures exists i :: 0 <= i <= n && windows[i].start <= k < windows[i].end
  {
    if k < windows[n].start {
      EveryCharacterCovered(s, windows, from, target, k, n - 1);
    }
  }

  /** A full stop before a space, in the second half of the window or right at its end. */
  ghost predicate IsBreak(s: string, start: nat, target: nat, d: nat) {
    d + 1 < |s| && s[d] == '.' && s[d + 1] == ' ' && start + target < 2 * d - start && d <= start + target
  }

  /** A window that reaches the end of the text ends there. Any other ends right after the last such full
      stop, or, when there is none, where the target says. */
  lemma WindowEndsAt(s: string, start: nat, target: nat)
    requires start < |s|
    ensures var end := WindowEnd(s, start, target);
      if start + target >= |s| then end == |s|
      else
        && (forall d: nat :: IsBreak(s, start, target, d) ==> d < end)
        && (if exists d: nat :: IsBreak(s, start, target, d)
            then end >= 1 && IsBreak(s, start, target, end - 1) else end == start + target)
  {
    if start + target < |s| {
      var dot := LastStop(s, start + target);
      forall d: nat | IsBreak(s, start, target, d) ensures d <= dot {
        if dot < d {
          LastStopIsLast(s, start + target, d);
        }
      }
      if dot >= 0 && 2 * dot > 2 * start + target {
        assert IsBreak(s, start, target, dot);
      }
    }
  }

  /** All windows but the first are those from where the second starts. */
  lemma LaterWindows(s: string, start: nat, target: nat, overlap: nat, i: nat)
    requires 1 <= i < |WindowsFrom(s, start, target, overlap)|
    ensures var next := NextStart(Window(start, WindowEnd(s, start, target)), overlap);
      && |WindowsFrom(s, start, target, overlap)| == |WindowsFrom(s, next, target, overlap)| + 1
      && WindowsFrom(s, start, target, overlap)[i] == WindowsFrom(s, next, target, overlap)[i - 1]
  {
  }

  lemma FirstWindow(s: string, start: nat, target: nat, overlap: nat)
    requires WindowsFrom(s, start, target, overlap) != []
    ensures start < |s| && WindowsFrom(s, start, target, overlap)[0] == Window(start, WindowEnd(s, start, target))
  {
  }

  /** Each window overlaps the one before it by exactly the overlap, or, if that is as long as the window,
      by all but its first character. */
  lemma {:induction false} WindowsOverlap(s: string, start: nat, target: nat, overlap: nat, i: nat)
    requires i + 1 < |WindowsFrom(s, start, target, overlap)|
    ensures var w, w' := WindowsFrom(s, start, target, overlap)[i], WindowsFrom(s, start, target, overlap)[i + 1];
      w.end - w'.start == Min(overlap, w.end - w.start - 1)
    decreases i
  {
    FirstWindow(s, start, target, overlap);
    var next := NextStart(Window(start, WindowEnd(s, start, target)), overlap);
    LaterWindows(s, start, target, overlap, i + 1);
    if i == 0 {
      FirstWindow(s, next, target, overlap);
    } else {
      LaterWindows(s, start, target, overlap, i);
      WindowsOverlap(s, next, target, overlap, i - 1);
    }
  }

  /** Nothing but spaces. */
  ghost predicate Spaces(s: string) { forall i :: 0 <= i < |s| ==> s[i] == ' ' }

  lemma {:induction false} StripStartCuts(s: string) returns (k: nat)
    ensures k <= |s| && StripStart(s) == s[k..] && Spaces(s[..k]) && (k < |s| ==> s[k] != ' ')
  {
    if s == [] || s[0] != ' ' {
      k := 0;
    } else {
      var j := StripStartCuts(s[1..]);
      k := j + 1;
      assert s[..k] == [s[0]] + s[1..][..j];
    }
  }

  lemma {:induction false} StripEndCuts(s: string) returns (k: nat)
    ensures k <= |s| && StripEnd(s) == s[..k] && Spaces(s[k..]) && (k > 0 ==> s[k - 1] != ' ')
  {
    if s == [] || s[|s| - 1] != ' ' {
      k := |s|;
    } else {
      k := StripEndCuts(s[..|s| - 1]);
      assert s[k..] == s[..|s| - 1][k..] + [' '];
    }
  }

  /** A chunk is its window without the spaces at either end, and nothing else is missing. */
  lemma SliceIsWindow(s: string, w: Window) returns (a: nat, b: nat)
    requires w.start <= w.end <= |s|
    ensures var part := s[w.start..w.end];
      && a <= b <= |part| && Slice(s, w) == part[a..b]
      && Spaces(part[..a]) && Spaces(part[b..]) && (a < b ==> part[a] != ' ' && part[b - 1] != ' ')
  {
    a, b := StripCuts(s[w.start..w.end]);
  }

  lemma StripCuts(s: string) returns (a: nat, b: nat)
    ensures a <= b <= |s| && Strip(s) == s[a..b]
    ensures Spaces(s[..a]) && Spaces(s[b..]) && (a < b ==> s[a] != ' ' && s[b - 1] != ' ')
  {
    a := StripStartCuts(s);
    var rest := s[a..];
    var m := StripEndCuts(rest);
    b := a + m;
    assert rest[..m] == s[a..b];
    assert rest[m..] == s[b..];
  }

  /** Some window of the text is longer than the target. */
  ghost predicate HasLongWindow(s: string, target: nat, overlap: nat) {
    exists w :: w in WindowsFrom(s, 0, target, overlap) && w.end - w.start > target
  }

  /** With target zero every window is empty. */
  lemma {:induction false} ZeroTargetWindows(s: string, start: nat, overlap: nat)
    ensures forall w :: w in WindowsFrom(s, start, 0, overlap) ==> w.start == w.end
    decreases |s| - start
  {
    if start >= |s| {
    } else {
      ZeroTargetWindows(s, NextStart(Window(start, start), overlap), overlap);
    }
  }

  /** Windows longer than the target do occur, for every positive target: the full stop a window ends
      with may sit exactly at its end. */
  lemma WindowCanExceedTarget(target: nat, overlap: nat)
    ensures (exists s :: HasLongWindow(s, target, overlap)) <==> target >= 1
  {
    if target == 0 {
      forall s ensures !HasLongWindow(s, target, overlap) {
        ZeroTargetWindows(s, 0, overlap);
      }
    } else {
      var s := seq(target, _ => 'a') + ". b";
      assert s[target..] == ". b" && IsStop(s, target);
      assert Window(0, target + 1) == WindowsFrom(s, 0, target, overlap)[0];
      assert HasLongWindow(s, target, overlap);
    }
  }

  /** Over a text that is not empty the windows cover it exactly for a positive target, which the
      source does not check: with target zero every window is empty. */
  lemma CoverIff(s: string, target: nat, overlap: nat)
    requires s != []
    ensures Covers(s, WindowsFrom(s, 0, target, overlap), 0, target) <==> target >= 1
  {
    if target >= 1 {
      WindowsCover(s, 0, target, overlap);
    } else {
      assert WindowsFrom(s, 0, 0, overlap)[0] == Window(0, 0);
    }
  }

  // ---- The cleaned text -----------------------------------------------------------------------

  /** The characters that are not whitespace, in order. */
  function Ink(s: string): string {
    if s == [] then [] else (if IsJsSpace(s[0]) then [] else [s[0]]) + Ink(s[1..])
  }

  /** Its only whitespace is the space character, never two in a row. */
  ghost predicate Single(s: string) {
    && (forall i :: 0 <= i < |s| && IsJsSpace(s[i]) ==> s[i] == ' ')
    && (forall i :: 0 < i < |s| && s[i] == ' ' ==> s[i - 1] != ' ')
  }

  lemma {:induction false} CollapseFacts(text: string, inRun: bool)
    ensures Ink(Collapse(text, inRun)) == Ink(text) && Single(Collapse(text, inRun))
    ensures inRun && Collapse(text, inRun) != [] ==> Collapse(text, inRun)[0] != ' '
    decreases |text|
  {
    if text == [] {
    } else if IsJsSpace(text[0]) {
      var rest := Collapse(text[1..], true);
      CollapseFacts(text[1..], true);
      SingleCons(' ', rest);
      assert Ink(text) == [] + Ink(text[1..]) == Ink(text[1..]);
      assert [] + rest == rest && Collapse(text, inRun) == if inRun then rest else [' '] + rest;
    } else {
      CollapseFacts(text[1..], false);
      SingleCons(text[0], Collapse(text[1..], false));
    }
  }

  lemma SingleCons(c: char, s: string)
    requires Single(s) && (IsJsSpace(c) ==> c == ' ' && (s != [] ==> s[0] != ' '))
    ensures Single([c] + s) && Ink([c] + s) == (if IsJsSpace(c) then [] else [c]) + Ink(s)
  {
    var all := [c] + s;
    assert all[1..] == s;
    forall i | 0 < i < |all| && all[i] == ' ' ensures all[i - 1] != ' ' {
      if i > 1 { assert s[i - 1] == ' ' && s[i - 2] != ' '; }
    }
  }

  lemma {:induction false} StripStartFacts(s: string)
    requires Single(s)
    ensures Ink(StripStart(s)) == Ink(s) && Single(StripStart(s))
    ensures StripStart(s) != [] ==> StripStart(s)[0] != ' '
  {
    if s == [] || s[0] != ' ' {
    } else {
      StripStartFacts(s[1..]);
    }
  }

  lemma {:induction false} InkSnoc(s: string, c: char)
    ensures Ink(s + [c]) == Ink(s) + (if IsJsSpace(c) then [] else [c])
  {
    if s == [] {
      assert [] + [c] == [c];
    } else {
      var tail: string := if IsJsSpace(c) then [] else [c];
      assert (s + [c])[1..] == s[1..] + [c];
      InkSnoc(s[1..], c);
      ConcatAssociates(if IsJsSpace(s[0]) then [] else [s[0]], Ink(s[1..]), tail);
    }
  }

  lemma {:induction false} StripEndFacts(s: string)
    requires Single(s)
    ensures Ink(StripEnd(s)) == Ink(s) && StripEnd(s) <= s
    ensures StripEnd(s) != [] ==> StripEnd(s)[|StripEnd(s)| - 1] != ' '
  {
    if s == [] || s[|s| - 1] != ' ' {
    } else {
      var front := s[..|s| - 1];
      assert s == front + [' '];
      InkSnoc(front, ' ');
      StripEndFacts(front);
    }
  }

  /** The maximal runs of characters that are not whitespace; `word` is the run being read. */
  function Words(word: string, s: string): seq<string>
    decreases |s|
  {
    if s == [] then (if word == [] then [] else [word])
    else if IsJsSpace(s[0]) then (if word == [] then [] else [word]) + Words([], s[1..])
    else Words(word + [s[0]], s[1..])
  }

  lemma {:induction false} CollapseWords(word: string, text: string, inRun: bool)
    requires inRun ==> word == []
    ensures Words(word, Collapse(text, inRun)) == Words(word, text)
    decreases |text|
  {
    if text == [] {
    } else if IsJsSpace(text[0]) {
      var rest := Collapse(text[1..], true);
      CollapseWords([], text[1..], true);
      assert ([' '] + rest)[1..] == rest && [] + rest == rest && [] + Words([], text[1..]) == Words([], text[1..]);
    } else {
      var rest := Collapse(text[1..], false);
      CollapseWords(word + [text[0]], text[1..], false);
      assert ([text[0]] + rest)[1..] == rest;
    }
  }

  lemma {:induction false} StripStartWords(s: string)
    ensures Words([], StripStart(s)) == Words([], s)
  {
    if s != [] && s[0] == ' ' {
      StripStartWords(s[1..]);
      assert [] + Words([], s[1..]) == Words([], s[1..]);
    }
  }

  lemma {:induction false} TrailingSpace(word: string, s: string)
    ensures Words(word, s + [' ']) == Words(word, s)
    decreases |s|
  {
    if s == [] {
      assert ([] + [' '])[1..] == [] && Words([], []) == [];
    } else {
      assert (s + [' '])[1..] == s[1..] + [' '];
      TrailingSpace(if IsJsSpace(s[0]) then [] else word + [s[0]], s[1..]);
    }
  }

  lemma {:induction false} StripEndWords(s: string)
    ensures Words([], StripEnd(s)) == Words([], s)
  {
    if s != [] && s[|s| - 1] == ' ' {
      StripEndWords(s[..|s| - 1]);
      TrailingSpace([], s[..|s| - 1]);
      assert s[..|s| - 1] + [' '] == s;
    }
  }

  /** Cleaning keeps the words of the text, with a single space between two of them and nothing else. */
  lemma CleanKeepsWords(text: string)
    ensures Words([], Clean(text)) == Words([], text)
  {
    CollapseWords([], text, false);
    StripStartWords(Collapse(text, false));
    StripEndWords(StripStart(Collapse(text, false)));
  }

  /** Cleaning keeps every character that is not whitespace; of the whitespace only single spaces
      between them are left. */
  lemma CleanFacts(text: string)
    ensures Ink(Clean(text)) == Ink(text) && Single(Clean(text))
    ensures Words([], Clean(text)) == Words([], text)
    ensures Clean(text) != [] ==> Clean(text)[0] != ' ' && Clean(text)[|Clean(text)| - 1] != ' '
  {
    var collapsed := Collapse(text, false);
    CollapseFacts(text, false);
    CleanKeepsWords(text);
    StripStartFacts(collapsed);
    StripEndFacts(StripStart(collapsed));
  }
}
