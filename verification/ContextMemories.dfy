/** The memories an agent's prompt gets: duplicate removal, the exchange sort and the size budget. */
module ContextMemories {
  import opened Text
  import Similarity

  datatype Status = Active | Conflict | Candidate | Validating | Merged | Superseded | Stale | Archived

  datatype Memory = Memory(content: string, status: Status, confidence: real, importance: real, detail: string)

  predicate Usable(s: Status) { !s.Archived? && !s.Superseded? && !s.Stale? && !s.Merged? }

  // ----- duplicate removal

  /** Keeps, for every normal form, the first usable memory that has it. */
  function Dedup(ms: seq<Memory>, norm: string -> string): seq<Memory> {
    if ms == [] then []
    else
      var rest, m := Dedup(ms[..|ms| - 1], norm), ms[|ms| - 1];
      if Usable(m.status) && !HasForm(rest, norm, norm(m.content)) then rest + [m] else rest
  }

  predicate HasForm(ms: seq<Memory>, norm: string -> string, form: string) {
    exists i :: 0 <= i < |ms| && norm(ms[i].content) == form
  }

  predicate NoTwoAlike(ms: seq<Memory>, norm: string -> string) {
    forall i, j :: 0 <= i < j < |ms| ==> norm(ms[i].content) != norm(ms[j].content)
  }

  /** Whether position `i` of `ms` is the first usable one with its normal form. */
  predicate IsFirst(ms: seq<Memory>, norm: string -> string, i: nat)
    requires i < |ms|
  {
    Usable(ms[i].status)
    && forall k :: 0 <= k < i && Usable(ms[k].status) ==> norm(ms[k].content) != norm(ms[i].content)
  }

  lemma FormsGrow(ms: seq<Memory>, m: Memory, norm: string -> string)
    ensures forall f :: HasForm(ms + [m], norm, f) <==> HasForm(ms, norm, f) || f == norm(m.content)
  {
    var both := ms + [m];
    forall f ensures HasForm(both, norm, f) <==> HasForm(ms, norm, f) || f == norm(m.content) {
      if HasForm(ms, norm, f) {
        var i :| 0 <= i < |ms| && norm(ms[i].content) == f;
        assert both[i] == ms[i];
      }
      if f == norm(m.content) { assert both[|ms|] == m; }
    }
  }

  /** Some usable memory has this normal form. */
  predicate UsableForm(ms: seq<Memory>, norm: string -> string, form: string) {
    exists i :: 0 <= i < |ms| && Usable(ms[i].status) && norm(ms[i].content) == form
  }

  /** Exactly the forms of usable memories survive, each once. */
  lemma {:induction false} DedupKeepsForms(ms: seq<Memory>, norm: string -> string)
    ensures forall f :: HasForm(Dedup(ms, norm), norm, f) <==> UsableForm(ms, norm, f)
    ensures NoTwoAlike(Dedup(ms, norm), norm)
  {
    if ms != [] {
      var n := |ms| - 1;
      var rest, m := Dedup(ms[..n], norm), ms[n];
      DedupKeepsForms(ms[..n], norm);
      FormsGrow(rest, m, norm);
      forall f ensures UsableForm(ms, norm, f) <==> UsableForm(ms[..n], norm, f) || (Usable(m.status) && norm(m.content) == f) {
        if UsableForm(ms[..n], norm, f) {
          var i :| 0 <= i < n && Usable(ms[..n][i].status) && norm(ms[..n][i].content) == f;
          assert Usable(ms[i].status) && norm(ms[i].content) == f;
        }
      }
      if Usable(m.status) && !HasForm(rest, norm, norm(m.content)) {
        forall i | 0 <= i < |rest| ensures norm(rest[i].content) != norm(m.content) {}
      }
    }
  }

  /** The result is the subsequence of first usable memories: nothing else is kept and none of them is lost. */
  lemma {:induction false} DedupKeepsFirsts(ms: seq<Memory>, norm: string -> string) returns (at: seq<nat>)
    ensures |at| == |Dedup(ms, norm)|
    ensures forall k :: 0 <= k < |at| ==> at[k] < |ms| && IsFirst(ms, norm, at[k]) && Dedup(ms, norm)[k] == ms[at[k]]
    ensures forall k, l :: 0 <= k < l < |at| ==> at[k] < at[l]
    ensures forall i :: 0 <= i < |ms| && IsFirst(ms, norm, i) ==> i in at
    ensures NoTwoAlike(Dedup(ms, norm), norm)
  {
    DedupKeepsForms(ms, norm);
    if ms == [] {
      at := [];
    } else {
      var n := |ms| - 1;
      at := DedupKeepsFirsts(ms[..n], norm);
      DedupKeepsForms(ms[..n], norm);
      FirstIffNew(ms, norm);
      FirstsOfPrefix(ms, norm);
      if IsFirst(ms, norm, n) { at := at + [n]; }
    }
  }

  lemma FirstIffNew(ms: seq<Memory>, norm: string -> string)
    requires ms != []
    ensures IsFirst(ms, norm, |ms| - 1) <==>
      Usable(ms[|ms| - 1].status) && !UsableForm(ms[..|ms| - 1], norm, norm(ms[|ms| - 1].content))
  {
    var before := ms[..|ms| - 1];
    assert forall k :: 0 <= k < |before| ==> before[k] == ms[k];
  }

  lemma FirstsOfPrefix(ms: seq<Memory>, norm: string -> string)
    requires ms != []
    ensures forall i :: 0 <= i < |ms| - 1 ==> IsFirst(ms[..|ms| - 1], norm, i) == IsFirst(ms, norm, i)
  {
  }

  function PromptForm(content: string): string { Similarity.Lower(TrimSpace(content)) }

  /** A list without unusable or alike memories passes unchanged. */
  lemma {:induction false} DedupOfDistinct(ms: seq<Memory>, norm: string -> string)
    requires NoTwoAlike(ms, norm) && forall i :: 0 <= i < |ms| ==> Usable(ms[i].status)
    ensures Dedup(ms, norm) == ms
  {
    if ms != [] { DedupOfDistinct(ms[..|ms| - 1], norm); }
  }

  /** Retrieval has already removed duplicates by a coarser form, so removing them again changes nothing. */
  lemma SecondDedupIsIdentity(ms: seq<Memory>)
    ensures Dedup(Dedup(ms, Similarity.Norm), PromptForm) == Dedup(ms, Similarity.Norm)
  {
    hide TrimSpace, Similarity.Collapse, Similarity.DropPeriod, Similarity.Lower;
    var at := DedupKeepsFirsts(ms, Similarity.Norm);
    DedupOfDistinct(Dedup(ms, Similarity.Norm), PromptForm);
  }

  method DeduplicateForContext(ms: seq<Memory>) returns (filtered: seq<Memory>)
    ensures filtered == Dedup(ms, Similarity.Norm)
  {
    hide Similarity.Norm;
    var seen: set<string> := {};
    filtered := [];
    for i := 0 to |ms|
      invariant filtered == Dedup(ms[..i], Similarity.Norm)
      invariant forall f :: f in seen <==> HasForm(filtered, Similarity.Norm, f)
    {
      assert ms[..i + 1][..i] == ms[..i];
      var norm := Similarity.Norm(ms[i].content);
      if norm in seen { continue; }
      if ms[i].status.Superseded? || ms[i].status.Archived? || ms[i].status.Stale? || ms[i].status.Merged? { continue; }
      seen := seen + {norm};
      FormsGrow(filtered, ms[i], Similarity.Norm);
      filtered := filtered + [ms[i]];
    }
    assert ms[..|ms|] == ms;
  }

  /** The prompt builder's own filter: the status is looked at first, and the form is the lower-cased trimmed text. */
  method FilterForPrompt(ms: seq<Memory>) returns (filtered: seq<Memory>)
    ensures filtered == Dedup(ms, PromptForm)
  {
    hide PromptForm;
    var seen: set<string> := {};
    filtered := [];
    for i := 0 to |ms|
      invariant filtered == Dedup(ms[..i], PromptForm)
      invariant forall f :: f in seen <==> HasForm(filtered, PromptForm, f)
    {
      assert ms[..i + 1][..i] == ms[..i];
      if ms[i].status.Archived? || ms[i].status.Superseded? || ms[i].status.Stale? || ms[i].status.Merged? { continue; }
      var norm := PromptForm(ms[i].content);
      if norm in seen { continue; }
      seen := seen + {norm};
      FormsGrow(filtered, ms[i], PromptForm);
      filtered := filtered + [ms[i]];
    }
    assert ms[..|ms|] == ms;
  }

  // ----- the exchange sort

  /** `a` may stand before `b`: higher confidence, or equal confidence and no lower importance. */
  predicate Before(a: Memory, b: Memory) {
    a.confidence > b.confidence || (a.confidence == b.confidence && a.importance >= b.importance)
  }

  predicate Ranked(s: seq<Memory>) { forall i, j :: 0 <= i < j < |s| ==> Before(s[i], s[j]) }

  method Swap(a: array<Memory>, i: nat, j: nat)
    requires i < j < a.Length
    modifies a
    ensures a[..] == old(a[..])[i := old(a[j])][j := old(a[i])]
    ensures multiset(a[..]) == multiset(old(a[..]))
  {
    a[i], a[j] := a[j], a[i];
  }

  /** The first `i` places are final: nothing behind them may stand before them. */
  predicate Settled(s: seq<Memory>, i: nat) {
    forall k, l :: 0 <= k < i && k < l < |s| ==> Before(s[k], s[l])
  }

  /** Place `i` holds the best of the places from `i` up to `j`. */
  predicate BestUpTo(s: seq<Memory>, i: nat, j: nat)
    requires i < |s| && j <= |s|
  {
    forall l :: i < l < j ==> Before(s[i], s[l])
  }

  lemma SwapKeepsSettled(s: seq<Memory>, i: nat, j: nat)
    requires i < j < |s| && Settled(s, i)
    ensures Settled(s[i := s[j]][j := s[i]], i)
  {
    hide Before;
  }

  lemma SwapImproves(s: seq<Memory>, i: nat, j: nat)
    requires i < j < |s| && BestUpTo(s, i, j) && !Before(s[i], s[j])
    ensures BestUpTo(s[i := s[j]][j := s[i]], i, j + 1)
  {
  }

  lemma OneMoreSettled(s: seq<Memory>, i: nat)
    requires i < |s| && Settled(s, i) && BestUpTo(s, i, |s|)
    ensures Settled(s, i + 1)
  {
    hide Before;
  }

  lemma SettledIsRanked(s: seq<Memory>)
    requires Settled(s, |s|)
    ensures Ranked(s)
  {
    hide Before;
  }

  method ExchangeSort(a: array<Memory>)
    modifies a
    ensures Ranked(a[..]) && multiset(a[..]) == multiset(old(a[..]))
  {
    hide Settled, Ranked;
    assert Settled(a[..], 0) by { NothingSettled(a[..]); }
    for i := 0 to a.Length
      invariant multiset(a[..]) == multiset(old(a[..])) && Settled(a[..], i)
    {
      for j := i + 1 to a.Length
        invariant multiset(a[..]) == multiset(old(a[..])) && Settled(a[..], i) && BestUpTo(a[..], i, j)
      {
        if a[j].confidence > a[i].confidence
           || (a[j].confidence == a[i].confidence && a[j].importance > a[i].importance)
        {
          SwapKeepsSettled(a[..], i, j);
          SwapImproves(a[..], i, j);
          Swap(a, i, j);
        }
      }
      OneMoreSettled(a[..], i);
    }
    SettledIsRanked(a[..]);
  }

  lemma NothingSettled(s: seq<Memory>)
    ensures Settled(s, 0)
  {
  }

  // ----- the size budget

  const MAX_LINES: nat := 3
  const MAX_TOTAL: nat := 1000

  /** The lines of the first `k` memories, numbered from one. */
  function Lines(ms: seq<Memory>, render: (nat, Memory) -> string, k: nat): string
    requires k <= |ms|
  {
    if k == 0 then [] else Lines(ms, render, k - 1) + render(k, ms[k - 1])
  }

  /** The loop stops behind `k` lines: all are written, three are, or the next would break the budget. */
  predicate StopsAt(ms: seq<Memory>, render: (nat, Memory) -> string, k: nat) {
    && k <= |ms| && k <= MAX_LINES && |Lines(ms, render, k)| <= MAX_TOTAL
    && (k == |ms| || k == MAX_LINES || |Lines(ms, render, k + 1)| > MAX_TOTAL)
  }

  lemma {:induction false} LinesGrow(ms: seq<Memory>, render: (nat, Memory) -> string, k: nat, l: nat)
    requires k <= l <= |ms|
    ensures Lines(ms, render, k) <= Lines(ms, render, l)
    decreases l
  {
    if k < l { LinesGrow(ms, render, k, l - 1); }
  }

  /** The text is written line by line: line `i + 1` is that of memory `i`, and comes right behind the lines before it. */
  lemma {:induction false} LineFollows(ms: seq<Memory>, render: (nat, Memory) -> string, k: nat, i: nat) returns (after: string)
    requires i < k <= |ms|
    ensures Lines(ms, render, k) == Lines(ms, render, i) + render(i + 1, ms[i]) + after
    ensures Lines(ms, render, 0) == "" && (i + 1 == k ==> after == "")
    decreases k
  {
    if i + 1 == k {
      after := "";
    } else {
      after := LineFollows(ms, render, k - 1, i);
      after := after + render(k, ms[k - 1]);
    }
  }

  /** There is one such place only, so the budget determines what is written. */
  lemma StopIsUnique(ms: seq<Memory>, render: (nat, Memory) -> string, k: nat, l: nat)
    requires StopsAt(ms, render, k) && StopsAt(ms, render, l)
    ensures k == l
  {
    if k < l { LinesGrow(ms, render, k + 1, l); }
    if l < k { LinesGrow(ms, render, l + 1, k); }
  }

  method Emit(ms: seq<Memory>, render: (nat, Memory) -> string) returns (text: string, count: nat)
    ensures StopsAt(ms, render, count) && text == Lines(ms, render, count)
  {
    text, count := "", 0;
    var total := 0;
    for i := 0 to |ms|
      invariant count == i && i <= MAX_LINES && total == |text| <= MAX_TOTAL
      invariant text == Lines(ms, render, i)
    {
      if count >= MAX_LINES { return; }
      var line := render(count + 1, ms[i]);
      if total + |line| > MAX_TOTAL { return; }
      text := text + line;
      total := total + |line|;
      count := count + 1;
    }
  }

  /** The memory section of the prompt. */
  method MemorySection(ms: seq<Memory>, render: (nat, Memory) -> string)
    returns (text: string, ghost ranked: seq<Memory>, count: nat)
    ensures Ranked(ranked) && multiset(ranked) == multiset(Dedup(ms, PromptForm))
    ensures StopsAt(ranked, render, count)
    ensures text == if ms == [] then "none\n" else if count == 0 then "none (filtered duplicates/superseded)\n"
                    else Lines(ranked, render, count)
  {
    hide PromptForm;
    var filtered := FilterForPrompt(ms);
    var a := new Memory[|filtered|](i requires 0 <= i < |filtered| => filtered[i]);
    assert a[..] == filtered;
    ExchangeSort(a);
    ranked := a[..];
    text, count := Emit(a[..], render);
    if |ms| == 0 { text := "none\n"; } else if count == 0 { text := "none (filtered duplicates/superseded)\n"; }
  }

  lemma MemberByMultiset(s: seq<Memory>, t: seq<Memory>)
    requires multiset(s) == multiset(t)
    ensures forall i :: 0 <= i < |s| ==> s[i] in t
    ensures |s| == |t|
  {
    forall i | 0 <= i < |s| ensures s[i] in t { assert s[i] in multiset(s); }
    assert |multiset(s)| == |s| && |multiset(t)| == |t|;
  }

  lemma {:induction false} TwoPlaces(s: seq<Memory>, i: nat, j: nat)
    requires i < j < |s| && s[i] == s[j]
    ensures multiset(s)[s[i]] >= 2
  {
    assert s == s[..j] + [s[j]] + s[j + 1..];
    assert s[i] in s[..j];
  }

  lemma {:induction false} PlacesOf(s: seq<Memory>, m: Memory) returns (i: nat, j: nat)
    requires multiset(s)[m] >= 2
    ensures i < j < |s| && s[i] == s[j] == m
    decreases |s|
  {
    var n := |s| - 1;
    assert s == s[..n] + [s[n]];
    if s[n] == m {
      assert m in s[..n];
      i :| 0 <= i < n && s[..n][i] == m;
      j := n;
    } else {
      i, j := PlacesOf(s[..n], m);
    }
  }

  /** Reordering makes no two memories alike. */
  lemma ReorderingKeepsDistinct(s: seq<Memory>, t: seq<Memory>, norm: string -> string)
    requires multiset(s) == multiset(t) && NoTwoAlike(t, norm)
    ensures NoTwoAlike(s, norm)
  {
    MemberByMultiset(s, t);
    forall i, j | 0 <= i < j < |s| ensures norm(s[i].content) != norm(s[j].content) {
      if s[i] == s[j] {
        TwoPlaces(s, i, j);
        var k, l := PlacesOf(t, s[i]);
        assert false;
      }
      var k :| 0 <= k < |t| && t[k] == s[i];
      var l :| 0 <= l < |t| && t[l] == s[j];
    }
  }

  /** What is listed is at most three lines and 1000 bytes, and stops for no other reason. */
  lemma SectionFitsBudget(ranked: seq<Memory>, render: (nat, Memory) -> string, count: nat)
    requires StopsAt(ranked, render, count)
    ensures count <= 3 && count <= |ranked| && |Lines(ranked, render, count)| <= 1000
    ensures count == 3 || count == |ranked| || |Lines(ranked, render, count) + render(count + 1, ranked[count])| > 1000
  {
  }

  /** May stand in a prompt: neither merged, superseded, stale nor archived. */
  predicate InUse(m: Memory) { m.status in {Active, Conflict, Candidate, Validating} }

  /** Equal but for case and outer spaces. */
  predicate SameText(a: Memory, b: Memory) {
    Similarity.Lower(TrimSpace(a.content)) == Similarity.Lower(TrimSpace(b.content))
  }

  /**
   * What the section chooses from, in this order: usable memories, no two with the same text, one for every text that
   * a usable memory has. What is listed has more confidence than what is left out, or as much and no less importance.
   */
  lemma SectionListsBest(ms: seq<Memory>, render: (nat, Memory) -> string, ranked: seq<Memory>, count: nat)
    requires Ranked(ranked) && multiset(ranked) == multiset(Dedup(ms, PromptForm)) && StopsAt(ranked, render, count)
    ensures forall i :: 0 <= i < |ranked| ==> ranked[i] in ms && InUse(ranked[i])
    ensures NoTwoAlike(ranked, PromptForm) && forall i, j :: 0 <= i < j < |ranked| ==> !SameText(ranked[i], ranked[j])
    ensures forall m :: m in ms && InUse(m) ==> exists r :: r in ranked && SameText(r, m)
    ensures forall i, j :: 0 <= i < j < |ranked| ==>
      ranked[i].confidence > ranked[j].confidence
      || (ranked[i].confidence == ranked[j].confidence && ranked[i].importance >= ranked[j].importance)
    ensures forall i, m :: 0 <= i < count && m in ranked && m !in ranked[..count] ==> Before(ranked[i], m)
  {
    hide Dedup, SameText, InUse, PromptForm, NoTwoAlike, Ranked, Before;
    RankedIsInUse(ms, ranked);
    RankedHasAllTexts(ms, ranked);
    RankedIsDistinct(ms, ranked);
    RankedBestFirst(ranked, count);
  }

  lemma RankedBestFirst(ranked: seq<Memory>, count: nat)
    requires Ranked(ranked) && count <= |ranked|
    ensures forall i, j :: 0 <= i < j < |ranked| ==>
      ranked[i].confidence > ranked[j].confidence
      || (ranked[i].confidence == ranked[j].confidence && ranked[i].importance >= ranked[j].importance)
    ensures forall i, m :: 0 <= i < count && m in ranked && m !in ranked[..count] ==> Before(ranked[i], m)
  {
    forall i, m | 0 <= i < count && m in ranked && m !in ranked[..count] ensures Before(ranked[i], m) {
      assert forall l :: 0 <= l < count ==> ranked[l] in ranked[..count];
      var j :| 0 <= j < |ranked| && ranked[j] == m;
    }
  }

  lemma RankedIsDistinct(ms: seq<Memory>, ranked: seq<Memory>)
    requires multiset(ranked) == multiset(Dedup(ms, PromptForm))
    ensures NoTwoAlike(ranked, PromptForm) && forall i, j :: 0 <= i < j < |ranked| ==> !SameText(ranked[i], ranked[j])
  {
    hide Dedup, SameText, PromptForm;
    DedupKeepsForms(ms, PromptForm);
    ReorderingKeepsDistinct(ranked, Dedup(ms, PromptForm), PromptForm);
    forall i, j | 0 <= i < j < |ranked| ensures !SameText(ranked[i], ranked[j]) { FormIsText(ranked[i], ranked[j]); }
  }

  lemma FormIsText(a: Memory, b: Memory)
    ensures PromptForm(a.content) == PromptForm(b.content) <==> SameText(a, b)
  {
    hide TrimSpace, Similarity.Lower;
  }

  lemma RankedIsInUse(ms: seq<Memory>, ranked: seq<Memory>)
    requires multiset(ranked) == multiset(Dedup(ms, PromptForm))
    ensures forall i :: 0 <= i < |ranked| ==> ranked[i] in ms && InUse(ranked[i])
  {
    hide PromptForm;
    var kept := Dedup(ms, PromptForm);
    MemberByMultiset(ranked, kept);
    var at := DedupKeepsFirsts(ms, PromptForm);
    hide Dedup;
    forall i | 0 <= i < |ranked| ensures ranked[i] in ms && InUse(ranked[i]) {
      var k :| 0 <= k < |kept| && kept[k] == ranked[i];
    }
  }

  lemma RankedHasAllTexts(ms: seq<Memory>, ranked: seq<Memory>)
    requires multiset(ranked) == multiset(Dedup(ms, PromptForm))
    ensures forall m :: m in ms && InUse(m) ==> exists r :: r in ranked && SameText(r, m)
  {
    hide PromptForm, Dedup, SameText;
    var kept := Dedup(ms, PromptForm);
    MemberByMultiset(kept, ranked);
    DedupKeepsForms(ms, PromptForm);
    forall m | m in ms && InUse(m) ensures exists r :: r in ranked && SameText(r, m) {
      var i :| 0 <= i < |ms| && ms[i] == m;
      assert UsableForm(ms, PromptForm, PromptForm(m.content));
      var k :| 0 <= k < |kept| && PromptForm(kept[k].content) == PromptForm(m.content);
      FormIsText(kept[k], m);
      assert kept[k] in ranked;
    }
  }
}
