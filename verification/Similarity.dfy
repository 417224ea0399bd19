/** Comparing two memory texts: normal form, tokens, similarity and the relationship label. */
module Similarity {
  import opened Text
  import Lcs

  // ----- text

  function LowerChar(c: char): char {
    if 'A' <= c <= 'Z' then c - 'A' + 'a' else c
  }

  function Lower(s: string): (r: string)
    ensures |r| == |s| && forall i :: 0 <= i < |s| ==> r[i] == LowerChar(s[i])
  {
    seq(|s|, i requires 0 <= i < |s| => LowerChar(s[i]))
  }

  /** The characters matched by the class \s of the regular expression package. */
  predicate IsBlank(c: char) { IsSpace(c) && c != '\U{0B}' }

  /** Every run of blanks becomes one space; `inRun` says whether the run has been written already. */
  function Collapse(s: string, inRun: bool): string {
    if s == [] then []
    else if !IsBlank(s[0]) then [s[0]] + Collapse(s[1..], false)
    else if inRun then Collapse(s[1..], true)
    else " " + Collapse(s[1..], true)
  }

  function DropPeriod(s: string): string {
    if s != [] && s[|s| - 1] == '.' then s[..|s| - 1] else s
  }

  function Norm(s: string): string { DropPeriod(Collapse(Lower(TrimSpace(s)), false)) }

  /** The length of the longest prefix whose characters satisfy `p`. */
  function PrefixLength(s: string, p: char -> bool): (n: nat)
    ensures n <= |s|
    ensures forall i :: 0 <= i < n ==> p(s[i])
    ensures n < |s| ==> !p(s[n])
  {
    if s == [] || !p(s[0]) then 0 else 1 + PrefixLength(s[1..], p)
  }

  /** strings.Fields: the words between spaces. */
  function Fields(s: string): seq<string>
    decreases |s|
  {
    if s == [] then []
    else if IsSpace(s[0]) then Fields(s[1..])
    else
      var n := PrefixLength(s, c => !IsSpace(c));
      [s[..n]] + Fields(s[n..])
  }

  predicate IsTokenChar(c: char) { 'a' <= c <= 'z' || '0' <= c <= '9' }

  function TokenSet(s: string): set<string>
    decreases |s|
  {
    if s == [] then {}
    else if !IsTokenChar(s[0]) then TokenSet(s[1..])
    else
      var n := PrefixLength(s, IsTokenChar);
      (if n >= 2 then {s[..n]} else {}) + TokenSet(s[n..])
  }

  predicate IsDigit(c: char) { '0' <= c <= '9' }

  /** An optional character: behind it if it stands at `i`. */
  function Past(s: string, i: nat, c: char): (j: nat)
    requires i <= |s|
    ensures i <= j <= |s|
  {
    if i < |s| && s[i] == c then i + 1 else i
  }

  /** Where the digits that begin at `i` end. */
  function DigitsEnd(s: string, i: nat): (j: nat)
    requires i <= |s|
    ensures i <= j <= |s| && (i < |s| && IsDigit(s[i]) ==> i < j)
  {
    i + PrefixLength(s[i..], IsDigit)
  }

  /** How much of `s`, which begins with a digit, the pattern \d+\.?\d*%? takes. */
  function NumberLength(s: string): (n: nat)
    requires s != [] && IsDigit(s[0])
    ensures 0 < n <= |s|
  {
    Past(s, DigitsEnd(s, Past(s, DigitsEnd(s, 0), '.')), '%')
  }

  function Numbers(s: string): seq<string>
    decreases |s|
  {
    if s == [] then []
    else if !IsDigit(s[0]) then Numbers(s[1..])
    else [s[..NumberLength(s)]] + Numbers(s[NumberLength(s)..])
  }

  function JoinComma(parts: seq<string>): string {
    if parts == [] then [] else if |parts| == 1 then parts[0] else parts[0] + "," + JoinComma(parts[1..])
  }

  // ----- similarity

  function Jaccard(a: set<string>, b: set<string>): real {
    if |a| == 0 && |b| == 0 then 1.0
    else
      var inter := |a * b|;
      var union := |a| + |b| - inter;
      if union == 0 then 0.0 else inter as real / union as real
  }

  lemma JaccardInRange(a: set<string>, b: set<string>)
    ensures 0.0 <= Jaccard(a, b) <= 1.0
    ensures Jaccard(a, b) == Jaccard(b, a)
  {
    assert a * b == b * a;
    IntersectionIsSmaller(a, b);
    IntersectionIsSmaller(b, a);
    var inter, union := |a * b|, |a| + |b| - |a * b|;
    if union > 0 { QuotientInRange(inter as real, union as real); }
  }

  lemma {:induction false} IntersectionIsSmaller(a: set<string>, b: set<string>)
    ensures |a * b| <= |a|
  {
    var c := a * b;
    assert a == c + (a - c);
  }

  lemma QuotientInRange(x: real, y: real)
    requires 0.0 <= x <= y && y > 0.0
    ensures 0.0 <= x / y <= 1.0
  {
  }

  lemma {:induction false} CollapseKeepsHead(s: string)
    requires s != [] && !IsSpace(s[0])
    ensures Collapse(s, false) != [] && Collapse(s, false)[0] == s[0]
  {
  }

  lemma NormHead(s: string)
    ensures Norm(s) != [] ==> !IsSpace(Norm(s)[0])
  {
    assert Trimmed(TrimSpace(s)) by { TrimSpaceTrims(s); }
    assert Collapse([], false) == [];
    hide TrimSpace, Lower, Collapse;
    var t := TrimSpace(s);
    if t != [] { CollapseKeepsHead(Lower(t)); }
  }

  /** A nonempty normal form has a word, so two different ones never both have none. */
  lemma NormHasWord(s: string)
    requires Norm(s) != []
    ensures |Fields(Norm(s))| > 0
  {
    NormHead(s);
  }

  lemma DifferentTextsHaveWords(a: string, b: string)
    requires Norm(a) != Norm(b)
    ensures |Fields(Norm(a))| + |Fields(Norm(b))| > 0
  {
    if Norm(a) != [] { NormHasWord(a); } else { NormHasWord(b); }
  }

  function WordOverlap(a: string, b: string): real
    requires Norm(a) != Norm(b)
  {
    DifferentTextsHaveWords(a, b);
    var wa, wb := Fields(Norm(a)), Fields(Norm(b));
    (2 * Lcs.Length(wa, wb, |wa|, |wb|)) as real / (|wa| + |wb|) as real
  }

  /** Never divides by zero: WordOverlap's precondition is the branch condition. */
  function Sim(a: string, b: string): real {
    if Norm(a) == Norm(b) then 1.0
    else Jaccard(TokenSet(Norm(a)), TokenSet(Norm(b))) * 0.6 + WordOverlap(a, b) * 0.4
  }

  lemma WordOverlapInRange(a: string, b: string)
    requires Norm(a) != Norm(b)
    ensures 0.0 <= WordOverlap(a, b) <= 1.0
    ensures WordOverlap(a, b) == WordOverlap(b, a)
  {
    hide Norm, Fields, Lcs.Length;
    var wa, wb := Fields(Norm(a)), Fields(Norm(b));
    Lcs.LengthIsSymmetric(wa, wb);
    DifferentTextsHaveWords(a, b);
    QuotientInRange((2 * Lcs.Length(wa, wb, |wa|, |wb|)) as real, (|wa| + |wb|) as real);
  }

  /** textSimilarity lies between 0 and 1 and does not depend on the order of the texts. */
  lemma SimInRange(a: string, b: string)
    ensures 0.0 <= Sim(a, b) <= 1.0
    ensures Sim(a, b) == Sim(b, a)
    ensures Norm(a) == Norm(b) ==> Sim(a, b) == 1.0
  {
    hide Norm, Jaccard, WordOverlap, TokenSet;
    if Norm(a) != Norm(b) {
      JaccardInRange(TokenSet(Norm(a)), TokenSet(Norm(b)));
      WordOverlapInRange(a, b);
    }
  }

  // ----- the relationship label

  const SUBJECTS: seq<string> :=
    ["customer", "user", "report", "reports", "preference", "prefers", "format", "csv", "pdf", "project", "task", "memory"]
  const VALUE_FORMATS: seq<string> :=
    ["csv", "pdf", "json", "xlsx", "xls", "tsv", "xml", "txt", "html", "parquet", "avro"]
  const FORMATS: seq<string> := ["csv", "pdf", "json", "xlsx", "xls", "tsv", "xml", "txt", "html"]
  const OPPOSITES: seq<(string, string)> :=
    [("csv", "pdf"), ("pdf", "csv"), ("enabled", "disabled"), ("active", "archived"), ("yes", "no")]

  predicate BothContain(a: string, b: string, words: seq<string>) {
    exists i :: 0 <= i < |words| && Contains(a, words[i]) && Contains(b, words[i])
  }

  function TokenOverlap(a: string, b: string): real { Jaccard(TokenSet(Norm(a)), TokenSet(Norm(b))) }

  predicate SharesSubject(a: string, b: string) {
    BothContain(Lower(a), Lower(b), SUBJECTS) || TokenOverlap(a, b) > 0.3
  }

  /** The loop keeps overwriting its result, so the last listed format in the text wins. */
  function LastFormat(low: string, formats: seq<string>): string {
    if formats == [] then ""
    else if Contains(low, formats[|formats| - 1]) then formats[|formats| - 1]
    else LastFormat(low, formats[..|formats| - 1])
  }

  predicate FormatsDiffer(a: string, b: string, formats: seq<string>) {
    var fa, fb := LastFormat(Lower(a), formats), LastFormat(Lower(b), formats);
    fa != "" && fb != "" && fa != fb
  }

  predicate HasValueChange(a: string, b: string) {
    || FormatsDiffer(a, b, VALUE_FORMATS)
    || (var na, nb := Numbers(Lower(a)), Numbers(Lower(b));
        |na| > 0 && |nb| > 0 && JoinComma(na) != JoinComma(nb) && SharesSubject(a, b))
  }

  predicate Opposed(a: string, b: string, pairs: seq<(string, string)>) {
    exists i :: 0 <= i < |pairs| &&
      ((Contains(a, pairs[i].0) && Contains(b, pairs[i].1)) || (Contains(a, pairs[i].1) && Contains(b, pairs[i].0)))
  }

  predicate IsContradictory(a: string, b: string) {
    SharesSubject(a, b)
    && (FormatsDiffer(a, b, FORMATS)
        || Contains(Lower(a), "not") != Contains(Lower(b), "not")
        || Opposed(Lower(a), Lower(b), OPPOSITES))
  }

  datatype Label = Duplicate | Reinforce | Update | Contradiction | Unrelated | Ambiguous

  function Classify(existing: string, candidate: string): (Label, real) {
    if Norm(existing) == Norm(candidate) then (Duplicate, 0.95)
    else
      var jacc, sim := TokenOverlap(existing, candidate), Sim(existing, candidate);
      if IsContradictory(existing, candidate) then (Contradiction, 0.85)
      else if SharesSubject(existing, candidate) && HasValueChange(existing, candidate) && (sim > 0.45 || jacc > 0.35)
        then (Update, 0.78)
      else if sim > 0.88 || jacc > 0.85 then (Duplicate, 0.9)
      else if sim > 0.75 || jacc > 0.7 then (Reinforce, 0.8)
      else if SharesSubject(existing, candidate) && (sim > 0.45 || jacc > 0.4) then
        if HasValueChange(existing, candidate) then (Update, 0.75) else (Reinforce, 0.7)
      else if sim < 0.3 && jacc < 0.2 then (Unrelated, 0.2)
      else if 0.3 <= sim <= 0.75 then (Ambiguous, 0.5)
      else (Unrelated, 0.3)
  }

  /** Swapping the two texts changes nothing. */
  lemma ClassifyIsSymmetric(a: string, b: string)
    ensures Classify(a, b) == Classify(b, a)
    ensures SharesSubject(a, b) == SharesSubject(b, a) && HasValueChange(a, b) == HasValueChange(b, a)
  {
    hide Norm, Jaccard, TokenSet, Sim, Contains, Lower, LastFormat, Numbers, JoinComma;
    SimInRange(a, b);
    JaccardInRange(TokenSet(Norm(a)), TokenSet(Norm(b)));
    assert SharesSubject(a, b) == SharesSubject(b, a);
  }

  /**
   * Exactly when two texts are kept apart (unrelated, or ambiguous, which without a language model is
   * handled the same way).
   */
  lemma KeptApartIff(a: string, b: string)
    ensures Classify(a, b).0 in {Unrelated, Ambiguous} <==>
      && Norm(a) != Norm(b) && !IsContradictory(a, b)
      && (if SharesSubject(a, b) then Sim(a, b) <= 0.45 && TokenOverlap(a, b) <= (if HasValueChange(a, b) then 0.35 else 0.4)
          else Sim(a, b) <= 0.75)
  {
    hide Norm, Jaccard, TokenSet, Sim, Contains, Lower, HasValueChange, IsContradictory, BothContain;
  }

  /** Similar texts are never kept apart. */
  lemma SimilarIsNeverKeptApart(a: string, b: string)
    requires Sim(a, b) > 0.75 || TokenOverlap(a, b) > 0.4
    ensures Classify(a, b).0 !in {Unrelated, Ambiguous}
  {
    hide Norm, Jaccard, TokenSet, Sim, Contains, Lower, HasValueChange, IsContradictory, BothContain;
    KeptApartIff(a, b);
  }

  // ----- choosing the text to keep

  function Score(s: string): real {
    var words, unique := |Fields(s)|, |TokenSet(s)|;
    words as real * 0.5 + unique as real * 0.5 - (if words < 4 then 2.0 else 0.0)
  }

  function Stronger(a: string, b: string): (r: string)
    ensures r == TrimSpace(a) || r == TrimSpace(b)
  {
    var at, bt := TrimSpace(a), TrimSpace(b);
    if bt == [] then at
    else if at == [] then bt
    else if Score(bt) > Score(at) then bt
    else at
  }
}
