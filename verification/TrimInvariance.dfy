/** Trimming a stored memory text changes nothing the consolidation decides about it. */
module TrimInvariance {
  import opened Text
  import opened Similarity
  import opened SimilarityLaws

  predicate AllSpaces(s: string) { forall c :: c in s ==> IsSpace(c) }

  /** Cannot match across the edge between a text and the spaces around it. */
  predicate Solid(p: string) { p != [] && !IsSpace(p[0]) && !IsSpace(p[|p| - 1]) }

  lemma {:induction false} PadLeft(l: string, m: string, p: string)
    requires AllSpaces(l) && Solid(p)
    ensures Contains(l + m, p) == Contains(m, p)
    decreases |l|
  {
    if l == [] {
      assert l + m == m;
    } else {
      assert (l + m)[0] == l[0] && (l + m)[1..] == l[1..] + m && IsSpace(l[0]);
      PadLeft(l[1..], m, p);
    }
  }

  lemma {:induction false} PadRight(m: string, r: string, p: string)
    requires AllSpaces(r) && Solid(p)
    ensures Contains(m + r, p) == Contains(m, p)
    decreases |m|
  {
    if m == [] {
      assert m + r == r + [];
      PadLeft(r, [], p);
    } else {
      assert (m + r)[1..] == m[1..] + r;
      PadRight(m[1..], r, p);
      if |m| < |p| <= |m + r| { assert (m + r)[|p| - 1] in r; }
    }
  }

  lemma NumbersPad(m: string, r: string)
    requires AllSpaces(r)
    ensures Numbers(m + r) == Numbers(m)
  {
    if r == [] {
      assert m + r == m;
    } else {
      assert m + r == m + [r[0]] + r[1..];
      assert r[0] in r && IsSpace(r[0]);
      NumbersSplit(m, r[0], r[1..]);
      assert r[1..] + [] == r[1..];
      NumbersPadLeft(r[1..], []);
    }
  }

  lemma {:induction false} NumbersPadLeft(l: string, m: string)
    requires AllSpaces(l)
    ensures Numbers(l + m) == Numbers(m)
    decreases |l|
  {
    if l == [] {
      assert l + m == m;
    } else {
      assert (l + m)[0] == l[0] && (l + m)[1..] == l[1..] + m && IsSpace(l[0]);
      NumbersPadLeft(l[1..], m);
    }
  }

  lemma LoweredParts(x: string) returns (l: string, r: string)
    ensures AllSpaces(l) && AllSpaces(r) && Lower(x) == l + (Lower(TrimSpace(x)) + r)
  {
    hide TrimSpace;
    var left, right := TrimSpaceSplits(x);
    l, r := Lower(left), Lower(right);
    forall c | c in l ensures IsSpace(c) { var i :| 0 <= i < |l| && l[i] == c; assert left[i] in left; }
    forall c | c in r ensures IsSpace(c) { var i :| 0 <= i < |r| && r[i] == c; assert right[i] in right; }
  }

  lemma ContainsTrim(x: string, p: string)
    requires Solid(p)
    ensures Contains(Lower(TrimSpace(x)), p) == Contains(Lower(x), p)
  {
    hide TrimSpace, Lower;
    var l, r := LoweredParts(x);
    PadLeft(l, Lower(TrimSpace(x)) + r, p);
    PadRight(Lower(TrimSpace(x)), r, p);
  }

  lemma NumbersTrim(x: string)
    ensures Numbers(Lower(TrimSpace(x))) == Numbers(Lower(x))
  {
    hide TrimSpace, Lower;
    var l, r := LoweredParts(x);
    NumbersPadLeft(l, Lower(TrimSpace(x)) + r);
    NumbersPad(Lower(TrimSpace(x)), r);
  }

  predicate AllSolid(words: seq<string>) { forall i :: 0 <= i < |words| ==> Solid(words[i]) }

  lemma WordListsAreSolid()
    ensures AllSolid(SUBJECTS) && AllSolid(VALUE_FORMATS) && AllSolid(FORMATS)
    ensures forall i :: 0 <= i < |OPPOSITES| ==> Solid(OPPOSITES[i].0) && Solid(OPPOSITES[i].1)
  {
  }

  lemma {:induction false} LastFormatTrim(x: string, formats: seq<string>)
    requires AllSolid(formats)
    ensures LastFormat(Lower(TrimSpace(x)), formats) == LastFormat(Lower(x), formats)
    decreases |formats|
  {
    if formats != [] {
      ContainsTrim(x, formats[|formats| - 1]);
      LastFormatTrim(x, formats[..|formats| - 1]);
    }
  }

  lemma NormTrim(x: string)
    ensures Norm(TrimSpace(x)) == Norm(x)
  {
    TrimSpaceTrims(x);
  }

  lemma SimTrim(x: string, y: string)
    ensures Sim(TrimSpace(x), y) == Sim(x, y) && TokenOverlap(TrimSpace(x), y) == TokenOverlap(x, y)
  {
    hide TrimSpace, Norm;
    NormTrim(x);
  }

  lemma SharesSubjectTrim(x: string, y: string)
    ensures SharesSubject(TrimSpace(x), y) == SharesSubject(x, y)
  {
    hide TrimSpace, Lower, Contains, TokenOverlap;
    WordListsAreSolid();
    SimTrim(x, y);
    forall i | 0 <= i < |SUBJECTS|
      ensures Contains(Lower(TrimSpace(x)), SUBJECTS[i]) == Contains(Lower(x), SUBJECTS[i])
    {
      ContainsTrim(x, SUBJECTS[i]);
    }
  }

  lemma HasValueChangeTrim(x: string, y: string)
    ensures HasValueChange(TrimSpace(x), y) == HasValueChange(x, y)
  {
    hide TrimSpace, Lower, Contains, Numbers, SharesSubject, LastFormat;
    WordListsAreSolid();
    LastFormatTrim(x, VALUE_FORMATS);
    NumbersTrim(x);
    SharesSubjectTrim(x, y);
  }

  lemma IsContradictoryTrim(x: string, y: string)
    ensures IsContradictory(TrimSpace(x), y) == IsContradictory(x, y)
  {
    hide TrimSpace, Lower, Contains, SharesSubject, LastFormat;
    WordListsAreSolid();
    LastFormatTrim(x, FORMATS);
    SharesSubjectTrim(x, y);
    ContainsTrim(x, "not");
    forall i | 0 <= i < |OPPOSITES|
      ensures Contains(Lower(TrimSpace(x)), OPPOSITES[i].0) == Contains(Lower(x), OPPOSITES[i].0)
      ensures Contains(Lower(TrimSpace(x)), OPPOSITES[i].1) == Contains(Lower(x), OPPOSITES[i].1)
    {
      ContainsTrim(x, OPPOSITES[i].0);
      ContainsTrim(x, OPPOSITES[i].1);
    }
  }

  /** The label, the confidence and the chosen text are the same for a text and its trimmed form. */
  lemma ClassifyTrim(x: string, y: string)
    ensures Classify(TrimSpace(x), y) == Classify(x, y)
    ensures Stronger(TrimSpace(x), y) == Stronger(x, y)
  {
    hide TrimSpace, Norm, Sim, TokenOverlap, IsContradictory, SharesSubject, HasValueChange, Score;
    NormTrim(x);
    SimTrim(x, y);
    IsContradictoryTrim(x, y);
    SharesSubjectTrim(x, y);
    HasValueChangeTrim(x, y);
    TrimSpaceTrims(x);
  }
}
