/** What the comparison of two memory texts computes: words, tokens, numbers, normal form, similarity and labels. */
module SimilarityLaws {
  import opened Text
  import opened Similarity
  import Lcs

  // ----- reading a text piece by piece

  /** What comes behind `m` cannot continue a run of `p` characters that reaches the end of `m`. */
  lemma {:induction false} PrefixPad(m: string, r: string, p: char -> bool)
    requires r == [] || !p(r[0])
    ensures PrefixLength(m + r, p) == PrefixLength(m, p)
    decreases |m|
  {
    if m == [] {
      assert m + r == r;
    } else if p(m[0]) {
      assert (m + r)[1..] == m[1..] + r;
      PrefixPad(m[1..], r, p);
    }
  }

  lemma NextField(s: string, n: nat)
    requires s != [] && !IsSpace(s[0]) && n == PrefixLength(s, c => !IsSpace(c))
    ensures 0 < n <= |s| && Fields(s) == [s[..n]] + Fields(s[n..])
  {
  }

  /** A separator splits a text into its words. */
  lemma {:induction false} FieldsSplit(a: string, c: char, b: string)
    requires IsSpace(c)
    ensures Fields(a + [c] + b) == Fields(a) + Fields(b)
    decreases |a|
  {
    var s := a + [c] + b;
    if a == [] {
      assert s[1..] == b;
    } else if IsSpace(a[0]) {
      assert s[1..] == a[1..] + [c] + b;
      FieldsSplit(a[1..], c, b);
    } else {
      var n := PrefixLength(a, c => !IsSpace(c));
      assert s == a + ([c] + b);
      PrefixPad(a, [c] + b, c => !IsSpace(c));
      NextField(a, n);
      NextField(s, n);
      hide Fields, PrefixLength;
      assert s[n..] == a[n..] + [c] + b && s[..n] == a[..n];
      FieldsSplit(a[n..], c, b);
    }
  }

  lemma {:induction false} WholePrefix(w: string, p: char -> bool)
    requires forall i :: 0 <= i < |w| ==> p(w[i])
    ensures PrefixLength(w, p) == |w|
  {
  }

  lemma WordIsField(w: string)
    requires w != [] && forall i :: 0 <= i < |w| ==> !IsSpace(w[i])
    ensures Fields(w) == [w] && Fields([]) == []
  {
    hide PrefixLength;
    WholePrefix(w, c => !IsSpace(c));
    var n := PrefixLength(w, c => !IsSpace(c));
    assert w[..n] == w && w[n..] == [];
    assert Fields([]) == [];
    assert Fields(w) == [w[..n]] + Fields(w[n..]);
  }

  /** Any character that belongs to no token splits a text into its tokens. */
  lemma {:induction false} TokensSplit(a: string, c: char, b: string)
    requires !IsTokenChar(c)
    ensures TokenSet(a + [c] + b) == TokenSet(a) + TokenSet(b)
    decreases |a|
  {
    var s := a + [c] + b;
    if a == [] {
      assert s[1..] == b;
    } else if !IsTokenChar(a[0]) {
      assert s[1..] == a[1..] + [c] + b;
      TokensSplit(a[1..], c, b);
    } else {
      var n := PrefixLength(a, IsTokenChar);
      assert s == a + ([c] + b);
      PrefixPad(a, [c] + b, IsTokenChar);
      assert s[n..] == a[n..] + [c] + b && s[..n] == a[..n];
      TokensSplit(a[n..], c, b);
    }
  }

  /** A run of letters and digits is one token, if it is longer than one character. */
  lemma RunIsToken(w: string)
    requires w != [] && forall i :: 0 <= i < |w| ==> 'a' <= w[i] <= 'z' || '0' <= w[i] <= '9'
    ensures TokenSet(w) == (if |w| >= 2 then {w} else {}) && TokenSet([]) == {}
  {
    hide PrefixLength;
    WholePrefix(w, IsTokenChar);
    assert w[..|w|] == w && w[|w|..] == [];
    assert TokenSet([]) == {};
    assert TokenSet(w) == (if |w| >= 2 then {w} else {}) + TokenSet(w[|w|..]);
  }

  /** Cannot belong to a number. */
  predicate EndsNumber(r: string) { r == [] || (!IsDigit(r[0]) && r[0] != '.' && r[0] != '%') }

  lemma PastPad(m: string, r: string, i: nat, c: char)
    requires EndsNumber(r) && i <= |m| && (c == '.' || c == '%')
    ensures Past(m + r, i, c) == Past(m, i, c)
  {
    if i == |m| && r != [] { assert (m + r)[i] == r[0]; }
  }

  lemma DigitsEndPad(m: string, r: string, i: nat)
    requires EndsNumber(r) && i <= |m|
    ensures DigitsEnd(m + r, i) == DigitsEnd(m, i)
  {
    hide PrefixLength;
    assert (m + r)[i..] == m[i..] + r;
    PrefixPad(m[i..], r, IsDigit);
  }

  lemma NumberLengthPad(m: string, r: string)
    requires EndsNumber(r) && m != [] && IsDigit(m[0])
    ensures NumberLength(m + r) == NumberLength(m)
  {
    hide DigitsEnd, Past, EndsNumber, IsDigit;
    var dot := Past(m, DigitsEnd(m, 0), '.');
    DigitsEndPad(m, r, 0);
    PastPad(m, r, DigitsEnd(m, 0), '.');
    DigitsEndPad(m, r, dot);
    PastPad(m, r, DigitsEnd(m, dot), '%');
  }

  /** Numbers are read piece by piece, too. */
  lemma {:induction false} NumbersSplit(a: string, c: char, b: string)
    requires !IsDigit(c) && c != '.' && c != '%'
    ensures Numbers(a + [c] + b) == Numbers(a) + Numbers(b)
    decreases |a|
  {
    var s, r := a + [c] + b, [c] + b;
    assert s == a + r;
    if a == [] {
      assert s[1..] == b;
    } else if !IsDigit(a[0]) {
      assert s[1..] == a[1..] + [c] + b;
      NumbersSplit(a[1..], c, b);
    } else {
      NumberLengthPad(a, r);
      var n := NumberLength(a);
      assert s[n..] == a[n..] + [c] + b && s[..n] == a[..n];
      NumbersSplit(a[n..], c, b);
    }
  }

  /** A number: digits, a point and digits behind it if there are any, a percent sign if there is one. */
  lemma NumberIsFound(whole: string, fraction: string, percent: bool)
    requires whole != [] && (forall i :: 0 <= i < |whole| ==> IsDigit(whole[i]))
    requires forall i :: 0 <= i < |fraction| ==> IsDigit(fraction[i])
    ensures var tail := if percent then "%" else "";
      Numbers(whole + tail) == [whole + tail] && Numbers(whole + "." + fraction + tail) == [whole + "." + fraction + tail]
  {
    hide NumberLength, DigitsEnd, Numbers;
    var tail := if percent then "%" else "";
    WholeNumber(whole, tail);
    WholeNumber(fraction, tail);
    DecimalNumber(whole, fraction, tail);
    OneNumber(whole + tail);
    OneNumber(whole + "." + fraction + tail);
  }

  lemma OneNumber(s: string)
    requires s != [] && IsDigit(s[0]) && NumberLength(s) == |s|
    ensures Numbers(s) == [s]
  {
    hide NumberLength;
    assert s[..|s|] == s && s[|s|..] == [];
    assert Numbers([]) == [];
    assert Numbers(s) == [s[..|s|]] + Numbers(s[|s|..]);
  }

  lemma WholeNumber(digits: string, tail: string)
    requires forall i :: 0 <= i < |digits| ==> IsDigit(digits[i])
    requires tail == "" || tail == "%"
    ensures DigitsEnd(digits + tail, 0) == |digits|
    ensures digits != [] ==> NumberLength(digits + tail) == |digits + tail|
  {
    assert (digits + tail)[0..] == digits + tail;
    PrefixPad(digits, tail, IsDigit);
    WholePrefix(digits, IsDigit);
    if digits != [] {
      var s := digits + tail;
      var n := |digits|;
      assert Past(s, n, '.') == n;
      assert s[n..] == tail;
      assert DigitsEnd(s, n) == n;
    }
  }

  lemma DecimalNumber(whole: string, fraction: string, tail: string)
    requires whole != [] && (forall i :: 0 <= i < |whole| ==> IsDigit(whole[i]))
    requires (tail == "" || tail == "%") && DigitsEnd(fraction + tail, 0) == |fraction|
    ensures NumberLength(whole + "." + fraction + tail) == |whole| + 1 + |fraction| + |tail|
  {
    var s := whole + "." + fraction + tail;
    var n := |whole|;
    assert s[0..] == whole + ("." + fraction + tail);
    PrefixPad(whole, "." + fraction + tail, IsDigit);
    WholePrefix(whole, IsDigit);
    assert DigitsEnd(s, 0) == n && s[n] == '.';
    assert s[n + 1..] == (fraction + tail)[0..];
    assert DigitsEnd(s, n + 1) == n + 1 + |fraction|;
  }

  // ----- the normal form

  lemma {:induction false} TrimLowered(s: string)
    ensures TrimSpace(Lower(s)) == Lower(TrimSpace(s)) && Lower(Lower(s)) == Lower(s)
  {
    LeftLowered(s);
    RightLowered(TrimLeft(s));
  }

  lemma {:induction false} LeftLowered(s: string)
    ensures TrimLeft(Lower(s)) == Lower(TrimLeft(s))
  {
    hide Lower;
    if s != [] {
      LowerEnds(s);
      LeftLowered(s[1..]);
    } else {
      LowerOfNothing();
    }
  }

  lemma LowerOfNothing()
    ensures Lower([]) == []
  {
  }

  lemma LowerEnds(s: string)
    requires s != []
    ensures |Lower(s)| == |s| && Lower(s)[1..] == Lower(s[1..]) && Lower(s)[..|s| - 1] == Lower(s[..|s| - 1])
    ensures IsSpace(Lower(s)[0]) == IsSpace(s[0]) && IsSpace(Lower(s)[|s| - 1]) == IsSpace(s[|s| - 1])
  {
  }

  lemma {:induction false} RightLowered(s: string)
    ensures TrimRight(Lower(s)) == Lower(TrimRight(s))
    decreases |s|
  {
    hide Lower;
    if s != [] {
      LowerEnds(s);
      RightLowered(s[..|s| - 1]);
    } else {
      LowerOfNothing();
    }
  }

  /** Upper and lower case make no difference. */
  lemma NormIgnoresCase(a: string, b: string)
    requires Lower(a) == Lower(b)
    ensures Norm(a) == Norm(b)
  {
    hide TrimSpace, Lower, Collapse;
    TrimLowered(a);
    TrimLowered(b);
    assert Lower(TrimSpace(a)) == Lower(TrimSpace(b));
  }

  /** Nothing left to normalise: trimmed, in lower case, single spaces for blanks, no final period. */
  ghost predicate IsNormal(s: string) {
    && Trimmed(s) && (s != [] ==> s[|s| - 1] != '.')
    && (forall i :: 0 <= i < |s| ==> !('A' <= s[i] <= 'Z') && (IsBlank(s[i]) ==> s[i] == ' '))
    && (forall i, j :: 0 <= i && j == i + 1 && j < |s| ==> !(IsBlank(s[i]) && IsBlank(s[j])))
  }

  lemma {:induction false} CollapseStays(s: string, inRun: bool)
    requires forall i :: 0 <= i < |s| && IsBlank(s[i]) ==> s[i] == ' '
    requires forall i, j :: 0 <= i && j == i + 1 && j < |s| ==> !(IsBlank(s[i]) && IsBlank(s[j]))
    requires inRun && s != [] ==> !IsBlank(s[0])
    ensures Collapse(s, inRun) == s
    decreases |s|
  {
    if s != [] { CollapseStays(s[1..], IsBlank(s[0])); }
  }

  /** A normal text is its own normal form, with or without a final period. */
  lemma NormalTextStays(s: string)
    requires IsNormal(s)
    ensures Norm(s) == s && (s != [] ==> Norm(s + ".") == s)
  {
    hide Collapse, TrimSpace;
    TrimSpaceTrims(s);
    assert Lower(s) == s;
    CollapseStays(s, false);
    if s != [] { NormalTextEnds(s); }
  }

  lemma NormalTextEnds(s: string)
    requires IsNormal(s) && s != []
    ensures Norm(s + ".") == s
  {
    hide Collapse, TrimSpace;
    var t := s + ".";
    TrimSpaceTrims(t);
    assert Lower(t) == t;
    forall i, j | 0 <= i && j == i + 1 && j < |t| ensures !(IsBlank(t[i]) && IsBlank(t[j])) {
      if j < |s| { assert t[i] == s[i] && t[j] == s[j]; }
    }
    CollapseStays(t, false);
  }

  lemma {:induction false} CollapseRun(w: string, b: string)
    requires (forall i :: 0 <= i < |w| ==> IsBlank(w[i])) && (b == [] || !IsBlank(b[0]))
    ensures Collapse(w + b, true) == Collapse(b, false)
    decreases |w|
  {
    if w == [] {
      assert w + b == b;
    } else {
      assert (w + b)[1..] == w[1..] + b;
      CollapseRun(w[1..], b);
    }
  }

  lemma {:induction false} CollapseSplits(a: string, w: string, b: string, inRun: bool)
    requires w != [] && (forall i :: 0 <= i < |w| ==> IsBlank(w[i])) && (b == [] || !IsBlank(b[0]))
    requires if a == [] then !inRun else !IsBlank(a[|a| - 1])
    ensures Collapse(a + w + b, inRun) == Collapse(a, inRun) + " " + Collapse(b, false)
    decreases |a|
  {
    var s := a + w + b;
    if a == [] {
      assert s[1..] == w[1..] + b;
      CollapseRun(w[1..], b);
    } else {
      assert s[1..] == a[1..] + w + b;
      CollapseSplits(a[1..], w, b, IsBlank(a[0]));
    }
  }

  /** A run of blanks between two pieces counts as one space. */
  lemma NormIgnoresRuns(a: string, w: string, b: string)
    requires a != [] && b != [] && !IsSpace(a[0]) && !IsBlank(a[|a| - 1]) && !IsBlank(b[0]) && !IsSpace(b[|b| - 1])
    requires w != [] && forall i :: 0 <= i < |w| ==> IsBlank(w[i])
    ensures Norm(a + w + b) == Norm(a + " " + b)
  {
    hide Collapse, Lower, TrimSpace;
    TrimSpaceTrims(a + w + b);
    TrimSpaceTrims(a + " " + b);
    LowerConcat(a, w, b);
    LowerConcat(a, " ", b);
    LowerBlanks(a);
    LowerBlanks(w);
    LowerBlanks(b);
    LowerBlanks(" ");
    CollapseSplits(Lower(a), Lower(w), Lower(b), false);
    CollapseSplits(Lower(a), Lower(" "), Lower(b), false);
  }

  lemma LowerConcat(a: string, w: string, b: string)
    ensures Lower(a + w + b) == Lower(a) + Lower(w) + Lower(b)
  {
  }

  lemma LowerBlanks(s: string)
    ensures |Lower(s)| == |s| && forall i :: 0 <= i < |s| ==> (IsBlank(Lower(s)[i]) <==> IsBlank(s[i]))
  {
  }

  // ----- similarity

  /** The share of the common elements among all. */
  lemma JaccardCounts(a: set<string>, b: set<string>)
    ensures a + b == {} ==> Jaccard(a, b) == 1.0
    ensures a + b != {} ==> |a + b| > 0 && Jaccard(a, b) == Share(|a * b|, |a + b|)
  {
  }

  function Share(part: nat, whole: nat): real { if whole == 0 then 0.0 else part as real / whole as real }

  /**
   * The similarity of two texts with different normal forms: three fifths for the share of common tokens, two fifths
   * for the words of a longest common subsequence, counted in both texts.
   */
  lemma SimCounts(a: string, b: string, s: seq<string>)
    requires Norm(a) != Norm(b)
    requires var wa, wb := Fields(Norm(a)), Fields(Norm(b));
      Lcs.CommonSubsequence(s, wa, wb) && forall r :: Lcs.CommonSubsequence(r, wa, wb) ==> |r| <= |s|
    ensures var ta, tb, words := TokenSet(Norm(a)), TokenSet(Norm(b)), |Fields(Norm(a))| + |Fields(Norm(b))|;
      words > 0
      && Sim(a, b) == 0.6 * (if ta + tb == {} then 1.0 else Share(|ta * tb|, |ta + tb|)) + 0.4 * Share(2 * |s|, words)
  {
    hide Norm, Fields, TokenSet, Lcs.Length;
    var wa, wb := Fields(Norm(a)), Fields(Norm(b));
    Lcs.LengthIsMaximum(wa, wb);
    DifferentTextsHaveWords(a, b);
    JaccardCounts(TokenSet(Norm(a)), TokenSet(Norm(b)));
  }

  /** Longer texts with more different words score higher; a text of fewer than four words loses four half points. */
  function Weight(s: string): int { |Fields(s)| + |TokenSet(s)| - if |Fields(s)| < 4 then 4 else 0 }

  lemma ScoreWeighs(a: string, b: string)
    ensures Score(a) <= Score(b) <==> Weight(a) <= Weight(b)
  {
    hide Fields, TokenSet;
  }

  // ----- the labels

  /** Both texts hold this subject word. */
  predicate BothHold(a: string, b: string, w: string) {
    w in {"customer", "user", "report", "reports", "preference", "prefers", "format", "csv", "pdf", "project", "task", "memory"}
    && Contains(a, w) && Contains(b, w)
  }

  /** Two texts are about one subject if they share a subject word, or more than three tenths of their tokens. */
  lemma SharesSubjectIff(a: string, b: string)
    ensures SharesSubject(a, b) <==> TokenOverlap(a, b) > 0.3 || exists w :: BothHold(Lower(a), Lower(b), w)
  {
    hide Contains, Lower, TokenOverlap;
    SubjectWords();
    var la, lb := Lower(a), Lower(b);
    if i :| 0 <= i < |SUBJECTS| && Contains(la, SUBJECTS[i]) && Contains(lb, SUBJECTS[i]) {
      assert SUBJECTS[i] in SUBJECTS;
      assert BothHold(la, lb, SUBJECTS[i]);
    }
    if w :| BothHold(la, lb, w) {
      assert w in SUBJECTS;
      var i :| 0 <= i < |SUBJECTS| && SUBJECTS[i] == w;
      assert BothContain(la, lb, SUBJECTS);
    }
  }

  lemma SubjectWords()
    ensures forall w :: w in SUBJECTS <==> w in {"customer", "user", "report", "reports", "preference", "prefers", "format",
                                                 "csv", "pdf", "project", "task", "memory"}
  {
    assert SUBJECTS[0] == "customer" && SUBJECTS[1] == "user" && SUBJECTS[2] == "report" && SUBJECTS[3] == "reports";
    assert SUBJECTS[4] == "preference" && SUBJECTS[5] == "prefers" && SUBJECTS[6] == "format" && SUBJECTS[7] == "csv";
    assert SUBJECTS[8] == "pdf" && SUBJECTS[9] == "project" && SUBJECTS[10] == "task" && SUBJECTS[11] == "memory";
  }

  /** Of the words in the list, this is the last one that occurs. */
  predicate LastOf(low: string, words: seq<string>, i: nat) {
    i < |words| && Contains(low, words[i]) && forall k :: i < k < |words| ==> !Contains(low, words[k])
  }

  lemma {:induction false} LastFormatIsLast(low: string, words: seq<string>)
    ensures forall i: nat :: LastOf(low, words, i) ==> LastFormat(low, words) == words[i]
    ensures (forall i: nat :: !LastOf(low, words, i)) ==> LastFormat(low, words) == ""
    decreases |words|
  {
    hide Contains;
    if words != [] {
      var n := |words| - 1;
      LastFormatIsLast(low, words[..n]);
      if Contains(low, words[n]) {
        assert LastOf(low, words, n);
      } else {
        forall i: nat ensures LastOf(low, words, i) <==> LastOf(low, words[..n], i) {}
      }
    }
  }

  /** Both texts name a format of the list, and the last ones they name differ. */
  ghost predicate NameDifferentFormats(a: string, b: string, words: seq<string>) {
    exists i: nat, j: nat :: LastOf(Lower(a), words, i) && LastOf(Lower(b), words, j) && words[i] != words[j]
  }

  lemma FormatsDifferIff(a: string, b: string, words: seq<string>)
    requires forall i :: 0 <= i < |words| ==> words[i] != ""
    ensures FormatsDiffer(a, b, words) <==> NameDifferentFormats(a, b, words)
  {
    hide Contains, LastFormat, Lower;
    var la, lb := Lower(a), Lower(b);
    LastFormatIsLast(la, words);
    LastFormatIsLast(lb, words);
  }

  /** One of the texts says one word of a listed pair, and the other one the other. */
  predicate SayOpposites(a: string, b: string) {
    || (Contains(a, "csv") && Contains(b, "pdf")) || (Contains(a, "pdf") && Contains(b, "csv"))
    || (Contains(a, "enabled") && Contains(b, "disabled")) || (Contains(a, "disabled") && Contains(b, "enabled"))
    || (Contains(a, "active") && Contains(b, "archived")) || (Contains(a, "archived") && Contains(b, "active"))
    || (Contains(a, "yes") && Contains(b, "no")) || (Contains(a, "no") && Contains(b, "yes"))
  }

  lemma OpposedIff(a: string, b: string)
    ensures Opposed(a, b, OPPOSITES) <==> SayOpposites(a, b)
  {
    hide Contains;
    assert OPPOSITES[0] == ("csv", "pdf") && OPPOSITES[1] == ("pdf", "csv") && OPPOSITES[2] == ("enabled", "disabled");
    assert OPPOSITES[3] == ("active", "archived") && OPPOSITES[4] == ("yes", "no");
  }

  /** Two texts on one subject contradict each other by format, by a negation in one of them, or by opposite words. */
  lemma ContradictoryIff(a: string, b: string)
    ensures IsContradictory(a, b) <==>
      && SharesSubject(a, b)
      && (|| NameDifferentFormats(a, b, ["csv", "pdf", "json", "xlsx", "xls", "tsv", "xml", "txt", "html"])
          || (Contains(Lower(a), "not") <==> !Contains(Lower(b), "not"))
          || SayOpposites(Lower(a), Lower(b)))
  {
    hide Contains, LastFormat, Lower, SharesSubject, SayOpposites, NameDifferentFormats;
    FormatsDifferIff(a, b, FORMATS);
    OpposedIff(Lower(a), Lower(b));
  }

  /** Nonempty and without a comma. */
  predicate AreParts(parts: seq<string>) { forall i :: 0 <= i < |parts| ==> parts[i] != "" && ',' !in parts[i] }

  /** The joined list tells the parts. */
  lemma {:induction false} JoinTellsParts(p: seq<string>, q: seq<string>)
    requires p != [] && q != [] && AreParts(p) && AreParts(q) && JoinComma(p) == JoinComma(q)
    ensures p == q
    decreases |p|
  {
    JoinSplits(p);
    JoinSplits(q);
    if |p| > 1 && |q| > 1 {
      JoinTellsParts(p[1..], q[1..]);
      assert p == [p[0]] + p[1..] && q == [q[0]] + q[1..];
    }
  }

  lemma JoinSplits(p: seq<string>)
    requires p != [] && AreParts(p)
    ensures var s := JoinComma(p); var n := PrefixLength(s, c => c != ',');
      && s[..n] == p[0] && (|p| == 1 <==> n == |s|) && (|p| > 1 ==> n < |s| && s[n + 1..] == JoinComma(p[1..]))
  {
    var rest := if |p| == 1 then [] else "," + JoinComma(p[1..]);
    assert JoinComma(p) == p[0] + rest;
    forall i | 0 <= i < |p[0]| ensures p[0][i] != ',' { assert p[0][i] in p[0]; }
    WholePrefix(p[0], c => c != ',');
    PrefixPad(p[0], rest, c => c != ',');
  }

  lemma {:induction false} NumbersAreParts(s: string)
    ensures AreParts(Numbers(s))
    decreases |s|
  {
    hide NumberLength;
    if s != [] && IsDigit(s[0]) {
      NumberHasNoComma(s);
      NumbersAreParts(s[NumberLength(s)..]);
    } else if s != [] {
      NumbersAreParts(s[1..]);
    }
  }

  lemma NumberHasNoComma(s: string)
    requires s != [] && IsDigit(s[0])
    ensures ',' !in s[..NumberLength(s)]
  {
    var i := DigitsEnd(s, 0);
    var j := Past(s, i, '.');
    var k := DigitsEnd(s, j);
    forall x | 0 <= x < NumberLength(s) ensures s[x] != ',' {
      if x < i { assert s[0..][x] == s[x]; } else if j <= x < k { assert s[j..][x - j] == s[x]; }
    }
  }

  /** A value changes with the format, or with the numbers of two texts on one subject that both have some. */
  lemma ValueChangeIff(a: string, b: string)
    ensures HasValueChange(a, b) <==>
      || NameDifferentFormats(a, b, ["csv", "pdf", "json", "xlsx", "xls", "tsv", "xml", "txt", "html", "parquet", "avro"])
      || (SharesSubject(a, b) && Numbers(Lower(a)) != [] && Numbers(Lower(b)) != [] && Numbers(Lower(a)) != Numbers(Lower(b)))
  {
    hide Contains, LastFormat, Lower, SharesSubject, Numbers, JoinComma, NameDifferentFormats;
    NumbersAreParts(Lower(a));
    NumbersAreParts(Lower(b));
    if Numbers(Lower(a)) != [] && Numbers(Lower(b)) != [] && JoinComma(Numbers(Lower(a))) == JoinComma(Numbers(Lower(b))) {
      JoinTellsParts(Numbers(Lower(a)), Numbers(Lower(b)));
    }
    FormatsDifferIff(a, b, VALUE_FORMATS);
  }

  /** How alike two texts are, by similarity and by common tokens. */
  predicate Above(a: string, b: string, sim: real, jacc: real) { Sim(a, b) > sim || TokenOverlap(a, b) > jacc }

  /**
   * Each label by a condition of its own. An update is a changed value of one subject in fairly similar texts, always
   * with confidence 0.78: the later branch for updates, with 0.75, is never reached. A changed value of one subject
   * is never merged as a duplicate or a reinforcement.
   */
  lemma LabelsIff(a: string, b: string)
    ensures
      var c, differ := Classify(a, b), Norm(a) != Norm(b) && !IsContradictory(a, b);
      var changed := SharesSubject(a, b) && HasValueChange(a, b);
      && (c.0 == Contradiction <==> Norm(a) != Norm(b) && IsContradictory(a, b))
      && (c.0 == Update <==> differ && changed && Above(a, b, 0.45, 0.35))
      && (c.0 == Duplicate <==> Norm(a) == Norm(b) || (differ && !changed && Above(a, b, 0.88, 0.85)))
      && (c.0 == Reinforce <==>
            (differ && !changed && !Above(a, b, 0.88, 0.85)
             && (Above(a, b, 0.75, 0.7) || (SharesSubject(a, b) && Above(a, b, 0.45, 0.4)))))
      && (c.0 == Ambiguous <==> c.0 !in {Contradiction, Update, Duplicate, Reinforce} && Sim(a, b) >= 0.3)
      && (c.0 == Contradiction ==> c.1 == 0.85) && (c.0 == Update ==> c.1 == 0.78)
      && (c.0 == Duplicate ==> c.1 == if Norm(a) == Norm(b) then 0.95 else 0.9)
      && (c.0 == Reinforce ==> c.1 == if Above(a, b, 0.75, 0.7) then 0.8 else 0.7)
  {
    hide Norm, Jaccard, TokenSet, Sim, Contains, Lower, HasValueChange, IsContradictory, BothContain, TokenOverlap, SharesSubject;
  }
}
