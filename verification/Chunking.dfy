/** ChunkText: overlapping windows whose right edge moves back to a sentence or line end when there is one. */
module Chunking {
  import opened Text
  import opened Normalize

  const CHARS_PER_TOKEN: nat := 4

  predicate IsBreak(c: char) { c == '\n' || c == '.' }

  /** Looks for a break at `j`, `j - 1`, ... down to `floor + 1`; the cut is just behind it. */
  function CutFrom(s: string, j: nat, floor: nat, otherwise: nat): nat
    requires j < |s|
  {
    if j <= floor then otherwise
    else if IsBreak(s[j]) then j + 1
    else CutFrom(s, j - 1, floor, otherwise)
  }

  /** Where the window that begins at `start` ends, for windows of `c` tokens. */
  function WindowEnd(s: string, c: nat, start: nat): nat {
    var end := start + CHARS_PER_TOKEN * c;
    if end >= |s| then |s| else CutFrom(s, end, start + CHARS_PER_TOKEN * c / 2, end)
  }

  lemma {:induction false} CutFromFinds(s: string, j: nat, floor: nat, otherwise: nat)
    requires floor <= j < |s|
    ensures var r := CutFrom(s, j, floor, otherwise);
      || (r == otherwise && forall i :: floor < i <= j ==> !IsBreak(s[i]))
      || (floor < r - 1 <= j && IsBreak(s[r - 1]) && forall i :: r - 1 < i <= j ==> !IsBreak(s[i]))
    decreases j
  {
    if j > floor && !IsBreak(s[j]) { CutFromFinds(s, j - 1, floor, otherwise); }
  }

  /**
   * The window ends behind the last break in the second half of the window (the character behind the
   * window included), or at its full length when there is none, or with the text.
   */
  lemma WindowEndIsLastBreak(s: string, c: nat, start: nat)
    requires start < |s| && c > 0
    ensures var end, e := WindowEnd(s, c, start), start + 4 * c;
      && (e >= |s| ==> end == |s|)
      && (e < |s| ==>
            || (end == e && forall i :: start + 2 * c < i <= e ==> s[i] !in {'\n', '.'})
            || (start + 2 * c < end - 1 <= e && s[end - 1] in {'\n', '.'} && forall i :: end <= i <= e ==> s[i] !in {'\n', '.'}))
      && start < end <= |s| && end <= start + 4 * c + 1
      && (end < |s| ==> end >= start + 2 * c + 2)
  {
    var e := start + 4 * c;
    if e < |s| { CutFromFinds(s, e, start + 2 * c, e); }
  }

  // ----- when the loop comes to an end

  datatype Cursor = Finished | At(start: nat)

  /** One round of the loop: the next start, or the end of the loop. */
  function NextStart(s: string, c: nat, o: nat, start: nat): Cursor {
    if start >= |s| then Finished
    else
      var end := WindowEnd(s, c, start);
      if end >= |s| then Finished
      else if end < CHARS_PER_TOKEN * o then At(0)
      else At(end - CHARS_PER_TOKEN * o)
  }

  function AfterRounds(s: string, c: nat, o: nat, n: nat): Cursor {
    if n == 0 then At(0)
    else
      var before := AfterRounds(s, c, o, n - 1);
      if before.Finished? then Finished else NextStart(s, c, o, before.start)
  }

  ghost predicate LoopEnds(s: string, c: nat, o: nat) {
    exists n :: AfterRounds(s, c, o, n) == Finished
  }

  lemma NextStartIsLarger(s: string, c: nat, o: nat, start: nat)
    requires c > 0 && 2 * o <= c && start < |s|
    ensures var next := NextStart(s, c, o, start);
      next.At? ==> start < next.start < |s| && next.start + 4 * o == WindowEnd(s, c, start)
  {
    WindowEndIsLastBreak(s, c, start);
  }

  lemma {:induction false} EndsFrom(s: string, c: nat, o: nat, n: nat)
    requires c > 0 && 2 * o <= c
    requires AfterRounds(s, c, o, n).At? ==> n == 0 || n <= AfterRounds(s, c, o, n).start < |s|
    ensures LoopEnds(s, c, o)
    decreases |s| + 1 - n
  {
    var at := AfterRounds(s, c, o, n);
    if at.At? {
      var next := AfterRounds(s, c, o, n + 1);
      assert next == NextStart(s, c, o, at.start);
      if at.start < |s| { NextStartIsLarger(s, c, o, at.start); }
      if n <= |s| { EndsFrom(s, c, o, n + 1); }
    }
  }

  /** A text with one break, placed just behind the middle of the first window. */
  function StuckText(c: nat): string {
    seq(4 * c + 2, i => if i == 2 * c + 1 then '.' else 'x')
  }

  lemma StuckForever(c: nat, o: nat, n: nat)
    requires c > 0 && 2 * o > c
    ensures AfterRounds(StuckText(c), c, o, n) == At(0)
  {
    if n > 0 {
      StuckForever(c, o, n - 1);
      var s := StuckText(c);
      WindowEndIsLastBreak(s, c, 0);
      var end := WindowEnd(s, c, 0);
      assert IsBreak(s[2 * c + 1]);
      assert end == 2 * c + 2;
    }
  }

  /** With window size `c` and overlap `o`, ChunkText returns on every text exactly when the overlap is at most half. */
  lemma EndsOnEveryTextIff(c: nat, o: nat)
    requires c > 0
    ensures (forall content :: LoopEnds(Normalized(content), c, o)) <==> 2 * o <= c
  {
    if 2 * o <= c {
      forall content ensures LoopEnds(Normalized(content), c, o) {
        EndsFrom(Normalized(content), c, o, 0);
      }
    } else {
      var s := StuckText(c);
      SolidTextIsNormal(s);
      forall n: nat ensures AfterRounds(s, c, o, n) != Finished { StuckForever(c, o, n); }
      assert !LoopEnds(Normalized(s), c, o);
    }
  }

  // ----- the windows

  datatype Window = Window(start: nat, end: nat)

  /** All windows from `start` on. */
  function Windows(s: string, c: nat, o: nat, start: nat): (ws: seq<Window>)
    requires c > 0 && 2 * o <= c && start < |s|
    ensures ws != [] && ws[0].start == start
    decreases |s| - start
  {
    NextStartIsLarger(s, c, o, start);
    var w := Window(start, WindowEnd(s, c, start));
    var next := NextStart(s, c, o, start);
    if next.Finished? then [w] else [w] + Windows(s, c, o, next.start)
  }

  predicate WithinText(s: string, ws: seq<Window>) {
    forall w :: w in ws ==> w.start <= w.end <= |s|
  }

  function Pieces(s: string, ws: seq<Window>): (r: seq<string>)
    requires WithinText(s, ws)
    ensures |r| == |ws|
  {
    seq(|ws|, i requires 0 <= i < |ws| => TrimSpace(s[ws[i].start..ws[i].end]))
  }

  /** Glues windows together again, dropping the first `drop` characters of each. */
  function Glue(s: string, ws: seq<Window>, drop: nat): string
    requires WithinText(s, ws) && LongerThan(ws, drop)
  {
    if ws == [] then [] else s[ws[0].start + drop..ws[0].end] + Glue(s, ws[1..], drop)
  }

  /** The first window and the rest of them. */
  lemma WindowsUnfold(s: string, c: nat, o: nat, start: nat)
    requires c > 0 && 2 * o <= c && start < |s|
    ensures var end, ws := WindowEnd(s, c, start), Windows(s, c, o, start);
      && ws[0] == Window(start, end) && start < end <= |s| && end <= start + 4 * c + 1
      && (end == |s| ==> ws == [Window(start, end)])
      && (end < |s| ==> 4 * o <= end && start < end - 4 * o && end < WindowEnd(s, c, end - 4 * o)
                        && ws == [Window(start, end)] + Windows(s, c, o, end - 4 * o))
  {
    WindowEndIsLastBreak(s, c, start);
    NextStartIsLarger(s, c, o, start);
    var next := NextStart(s, c, o, start);
    if next.At? { WindowEndIsLastBreak(s, c, next.start); }
  }

  /** A window of at most 4c + 1 characters that ends where the search for a break says. */
  predicate WindowOk(s: string, c: nat, w: Window) {
    w.end == WindowEnd(s, c, w.start) && w.start < w.end <= |s| && w.end <= w.start + 4 * c + 1
  }

  /** Two neighbours share exactly the overlap, and both edges move forward. */
  predicate StepOk(o: nat, v: Window, w: Window) {
    w.start + 4 * o == v.end && v.start < w.start && v.end < w.end
  }

  /** What the windows from `start` on look like. */
  lemma {:induction false} WindowsShape(s: string, c: nat, o: nat, start: nat)
    requires c > 0 && 2 * o <= c && start < |s|
    ensures var ws := Windows(s, c, o, start);
      && WithinText(s, ws) && ws[|ws| - 1].end == |s|
      && (forall w :: w in ws ==> WindowOk(s, c, w))
      && (forall i, j :: 0 <= i && j == i + 1 && j < |ws| ==> StepOk(o, ws[i], ws[j]))
    decreases |s| - start
  {
    hide WindowEnd, Windows;
    WindowsUnfold(s, c, o, start);
    var end, ws := WindowEnd(s, c, start), Windows(s, c, o, start);
    if end < |s| {
      WindowsShape(s, c, o, end - 4 * o);
      WindowsUnfold(s, c, o, end - 4 * o);
      var rest := Windows(s, c, o, end - 4 * o);
      assert ws[1..] == rest;
      forall i, j | 0 <= i && j == i + 1 && j < |ws| ensures StepOk(o, ws[i], ws[j]) {
        if i > 0 { assert ws[i] == rest[i - 1] && ws[j] == rest[j - 1]; }
      }
    }
  }

  predicate LongerThan(ws: seq<Window>, drop: nat) { forall w :: w in ws ==> w.start + drop <= w.end }

  /** The windows behind the first one, without the overlap each shares with its predecessor. */
  lemma {:induction false} GlueRestores(s: string, c: nat, o: nat, start: nat)
    requires c > 0 && 2 * o <= c && start < |s|
    ensures var ws := Windows(s, c, o, start);
      && WithinText(s, ws) && LongerThan(ws[1..], 4 * o)
      && Glue(s, ws[1..], 4 * o) == s[ws[0].end..]
    decreases |s| - start
  {
    hide WindowEnd, Windows;
    WindowsUnfold(s, c, o, start);
    var end, ws := WindowEnd(s, c, start), Windows(s, c, o, start);
    if end < |s| {
      GlueRestores(s, c, o, end - 4 * o);
      WindowsUnfold(s, c, o, end - 4 * o);
      var rest := Windows(s, c, o, end - 4 * o);
      assert ws[1..] == rest && rest == [rest[0]] + rest[1..];
      var edge := rest[0].end;
      assert s[end..] == s[end..edge] + s[edge..];
    }
  }

  /** Nothing of the text is lost: the first window followed by the fresh part of every later one is the text. */
  lemma WindowsRebuildText(s: string, c: nat, o: nat)
    requires c > 0 && 2 * o <= c && s != []
    ensures var ws := Windows(s, c, o, 0);
      && WithinText(s, ws) && LongerThan(ws[1..], 4 * o)
      && s == s[..ws[0].end] + Glue(s, ws[1..], 4 * o)
  {
    GlueRestores(s, c, o, 0);
  }

  // ----- the method

  function ChunkTokens(chunkSizeTokens: int): (c: nat)
    ensures c > 0
  {
    if chunkSizeTokens <= 0 then 500 else chunkSizeTokens
  }

  function OverlapTokens(overlapTokens: int): nat { if overlapTokens < 0 then 50 else overlapTokens }

  /** The window at the head of the remaining ones, and what remains behind it. */
  lemma NextPiece(s: string, c: nat, o: nat, all: seq<Window>, k: nat, start: nat)
    requires c > 0 && 2 * o <= c && start < |s| && WithinText(s, all)
    requires k < |all| && all[k..] == Windows(s, c, o, start)
    ensures var end := WindowEnd(s, c, start);
      && start < end <= |s| && Pieces(s, all)[..k + 1] == Pieces(s, all)[..k] + [TrimSpace(s[start..end])]
      && (end == |s| ==> k + 1 == |all|)
      && (end < |s| ==> 4 * o <= end && start < end - 4 * o && all[k + 1..] == Windows(s, c, o, end - 4 * o))
  {
    hide Windows, WindowEnd, TrimSpace;
    WindowsUnfold(s, c, o, start);
    assert all[k] == all[k..][0];
    assert all[k + 1..] == all[k..][1..];
  }

  lemma PiecesAre(s: string, ws: seq<Window>)
    requires WithinText(s, ws)
    ensures |Pieces(s, ws)| == |ws| && forall i :: 0 <= i < |ws| ==> ws[i].start <= ws[i].end <= |s|
    ensures forall i :: 0 <= i < |ws| ==> Pieces(s, ws)[i] == TrimSpace(s[ws[i].start..ws[i].end])
  {
  }

  /** The inner loop: the last break behind the middle of the window, or the full window. */
  method LookBack(s: string, start: nat, end: nat, chunkChars: nat) returns (cut: nat)
    requires start <= end < |s|
    ensures cut == CutFrom(s, end, start + chunkChars / 2, end)
  {
    cut := end;
    var j := end;
    while j > start + chunkChars / 2 && j > start
      invariant start <= j <= end && cut == end
      invariant CutFrom(s, j, start + chunkChars / 2, end) == CutFrom(s, end, start + chunkChars / 2, end)
    {
      if IsBreak(s[j]) { return j + 1; }
      j := j - 1;
    }
  }

  /** Where the window that begins at `start` ends. */
  method NextEnd(s: string, start: nat, c: nat, chunkChars: nat) returns (end: nat)
    requires c > 0 && chunkChars == c * CHARS_PER_TOKEN && start < |s|
    ensures end == WindowEnd(s, c, start)
  {
    end := start + chunkChars;
    if end > |s| { end := |s|; }
    if end < |s| { end := LookBack(s, start, end, chunkChars); }
  }

  /** Does not return on some texts outside the precondition: see EndsOnEveryTextIff. */
  method ChunkText(content: string, chunkSizeTokens: int, overlapTokens: int) returns (chunks: seq<string>)
    requires |Normalized(content)| <= 4 * ChunkTokens(chunkSizeTokens)
      || 2 * OverlapTokens(overlapTokens) <= ChunkTokens(chunkSizeTokens)
    ensures var s, c, o := Normalized(content), ChunkTokens(chunkSizeTokens), OverlapTokens(overlapTokens);
      if |s| <= 4 * c then chunks == [s]
      else WithinText(s, Windows(s, c, o, 0)) && chunks == Pieces(s, Windows(s, c, o, 0))
    ensures var s, c, o := Normalized(content), if chunkSizeTokens <= 0 then 500 else chunkSizeTokens,
                           if overlapTokens < 0 then 50 else overlapTokens;
      |s| > 4 * c ==>
        var ws := Windows(s, c, o, 0);
        |chunks| == |ws| && WithinText(s, ws) && forall i :: 0 <= i < |ws| ==> chunks[i] == TrimSpace(s[ws[i].start..ws[i].end])
  {
    hide Windows, WindowEnd, Pieces, Normalized, TrimSpace, WithinText;
    var c, o := chunkSizeTokens, overlapTokens;
    if c <= 0 { c := 500; }
    if o < 0 { o := 50; }
    var chunkChars, overlapChars := c * CHARS_PER_TOKEN, o * CHARS_PER_TOKEN;
    var s := NormalizeContent(content);
    if |s| <= chunkChars { return [s]; }
    chunks := [];
    var start := 0;
    WindowsShape(s, c, o, 0);
    ghost var all := Windows(s, c, o, 0);
    ghost var k := 0;
    while start < |s|
      invariant 0 <= start < |s|
      invariant 0 <= k < |all| && all[k..] == Windows(s, c, o, start)
      invariant chunks == Pieces(s, all)[..k]
      decreases |s| - start
    {
      NextPiece(s, c, o, all, k, start);
      var end := NextEnd(s, start, c, chunkChars);
      chunks := chunks + [TrimSpace(s[start..end])];
      k := k + 1;
      if end >= |s| { break; }
      start := end - overlapChars;
      if start < 0 { start := 0; }
    }
    assert k == |all|;
    PiecesAre(s, all);
  }
}
