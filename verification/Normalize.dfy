/** NormalizeContent: trimming, line endings, and the loop that removes surplus blank lines. */
module Normalize {
  import opened Text

  const CRLF := "\r\n"
  const LF := "\n"
  const LF2 := "\n\n"
  const LF3 := "\n\n\n"

  /** Keeps at most two newlines of every run; `n` of them (at most two) were already seen. */
  function Cap(n: nat, s: string): (r: string)
    requires n <= 2
    ensures |r| <= |s|
    decreases |s|
  {
    if s == [] then []
    else if s[0] != '\n' then [s[0]] + Cap(0, s[1..])
    else if n < 2 then LF + Cap(n + 1, s[1..])
    else Cap(2, s[1..])
  }

  function Normalized(s: string): string { Cap(0, ReplaceAll(TrimSpace(s), CRLF, LF)) }

  function Newlines(k: nat): (s: string)
    ensures |s| == k
  {
    seq(k, _ => '\n')
  }

  function Seen(n: nat, k: nat): (m: nat)
    ensures m <= 2
  {
    if n + k <= 2 then n + k else 2
  }

  lemma {:induction false} CapAfterNewlines(n: nat, k: nat, rest: string)
    requires n <= 2
    ensures Cap(n, Newlines(k) + rest) == Newlines(Seen(n, k) - n) + Cap(Seen(n, k), rest)
    decreases k
  {
    var s := Newlines(k) + rest;
    if k == 0 {
      assert s == rest;
    } else {
      assert s[1..] == Newlines(k - 1) + rest;
      CapAfterNewlines(if n < 2 then n + 1 else 2, k - 1, rest);
      if n < 2 { assert LF + Newlines(Seen(n, k) - n - 1) == Newlines(Seen(n, k) - n); }
    }
  }

  /** One pass of the loop does not change what is left once every run is capped. */
  lemma {:induction false} PassKeepsCap(n: nat, s: string)
    requires n <= 2
    ensures Cap(n, ReplaceAll(s, LF3, LF2)) == Cap(n, s)
    decreases |s|
  {
    if s != [] {
      var t := ReplaceAll(s, LF3, LF2);
      if LF3 <= s {
        var y := ReplaceAll(s[3..], LF3, LF2);
        assert s == Newlines(3) + s[3..] && t == Newlines(2) + y;
        CapAfterNewlines(n, 3, s[3..]);
        CapAfterNewlines(n, 2, y);
        PassKeepsCap(2, s[3..]);
      } else {
        assert t[1..] == ReplaceAll(s[1..], LF3, LF2);
        PassKeepsCap(if s[0] != '\n' then 0 else Seen(n, 1), s[1..]);
      }
    }
  }

  function LeadingNewlines(s: string): nat {
    if s == [] || s[0] != '\n' then 0 else 1 + LeadingNewlines(s[1..])
  }

  lemma LongRunIsFound(s: string)
    requires LeadingNewlines(s) > 2
    ensures Contains(s, LF3)
  {
    assert LeadingNewlines(s[1..]) > 1 && LeadingNewlines(s[1..][1..]) > 0;
    assert s[0] == '\n' && s[1] == '\n' && s[2] == '\n';
  }

  /** A text the loop leaves alone has no run to cap. */
  lemma {:induction false} CapOfCapped(n: nat, s: string)
    requires n <= 2 && !Contains(s, LF3) && n + LeadingNewlines(s) <= 2
    ensures Cap(n, s) == s
    decreases |s|
  {
    if s != [] {
      if s[0] == '\n' {
        CapOfCapped(n + 1, s[1..]);
      } else {
        if LeadingNewlines(s[1..]) > 2 { LongRunIsFound(s[1..]); }
        CapOfCapped(0, s[1..]);
      }
    }
  }

  method NormalizeContent(content: string) returns (s: string)
    ensures s == Normalized(content)
  {
    s := TrimSpace(content);
    s := ReplaceAll(s, CRLF, LF);
    while Contains(s, LF3)
      invariant Cap(0, s) == Normalized(content)
      decreases |s|
    {
      PassKeepsCap(0, s);
      ReplaceAllShortens(s, LF3, LF2);
      s := ReplaceAll(s, LF3, LF2);
    }
    if LeadingNewlines(s) > 2 { LongRunIsFound(s); }
    CapOfCapped(0, s);
  }

  // ----- what the capped text is: every maximal run of k newlines becomes min(k, 2)

  /** `ks[0]` newlines, `cs[0]`, `ks[1]` newlines, `cs[1]`, ..., and the last of `ks` newlines. */
  function Weave(ks: seq<nat>, cs: string): string
    requires |ks| == |cs| + 1
  {
    Newlines(ks[0]) + if cs == [] then [] else [cs[0]] + Weave(ks[1..], cs[1..])
  }

  function AtMostTwo(ks: seq<nat>): (r: seq<nat>)
    ensures |r| == |ks|
  {
    seq(|ks|, i requires 0 <= i < |ks| => if ks[i] < 2 then ks[i] else 2)
  }

  lemma CapOfRun(k: nat, rest: string)
    requires rest == [] || rest[0] != '\n'
    ensures Cap(0, Newlines(k) + rest) == Newlines(if k < 2 then k else 2) + Cap(0, rest)
  {
    CapAfterNewlines(0, k, rest);
  }

  /** The runs are capped one by one, and everything between them stays, in order. */
  lemma {:induction false} CapCapsEveryRun(ks: seq<nat>, cs: string)
    requires |ks| == |cs| + 1 && '\n' !in cs
    ensures Cap(0, Weave(ks, cs)) == Weave(AtMostTwo(ks), cs)
    decreases |cs|
  {
    if cs == [] {
      assert Weave(ks, cs) == Newlines(ks[0]) + [];
      CapOfRun(ks[0], []);
    } else {
      var rest := [cs[0]] + Weave(ks[1..], cs[1..]);
      assert rest[1..] == Weave(ks[1..], cs[1..]);
      CapOfRun(ks[0], rest);
      CapCapsEveryRun(ks[1..], cs[1..]);
      assert AtMostTwo(ks)[1..] == AtMostTwo(ks[1..]);
    }
  }

  /** Every text is such a weave, so the previous lemma speaks about all of them. */
  lemma {:induction false} EveryTextIsWoven(s: string) returns (ks: seq<nat>, cs: string)
    ensures |ks| == |cs| + 1 && '\n' !in cs && s == Weave(ks, cs)
    decreases |s|
  {
    if s == [] {
      ks, cs := [0], [];
    } else {
      var ks', cs' := EveryTextIsWoven(s[1..]);
      if s[0] == '\n' {
        ks, cs := [ks'[0] + 1] + ks'[1..], cs';
        assert Newlines(ks[0]) == LF + Newlines(ks'[0]);
      } else {
        ks, cs := [0] + ks', [s[0]] + cs';
        assert ks[1..] == ks' && cs[1..] == cs';
      }
    }
  }

  /** NormalizeContent on a text written as runs, once trimmed and freed of carriage returns before newlines. */
  lemma NormalizedCapsRuns(s: string) returns (ks: seq<nat>, cs: string)
    ensures |ks| == |cs| + 1 && '\n' !in cs
    ensures ReplaceAll(TrimSpace(s), CRLF, LF) == Weave(ks, cs)
    ensures Normalized(s) == Weave(AtMostTwo(ks), cs)
  {
    ks, cs := EveryTextIsWoven(ReplaceAll(TrimSpace(s), CRLF, LF));
    CapCapsEveryRun(ks, cs);
  }

  // ----- idempotence

  lemma {:induction false} CapKeepsCrlf(n: nat, s: string)
    requires n <= 2
    ensures Contains(Cap(n, s), CRLF) <==> Contains(s, CRLF)
    decreases |s|
  {
    if s != [] {
      if s[0] != '\n' {
        CapKeepsCrlf(0, s[1..]);
        assert Cap(n, s)[1..] == Cap(0, s[1..]);
      } else if n < 2 {
        CapKeepsCrlf(n + 1, s[1..]);
        assert Cap(n, s)[1..] == Cap(n + 1, s[1..]);
      } else {
        CapKeepsCrlf(2, s[1..]);
      }
    }
  }

  const CRCRLF := "\r\r\n"

  lemma {:induction false} CrlfLeftOver(s: string)
    ensures Contains(ReplaceAll(s, CRLF, LF), CRLF) <==> Contains(s, CRCRLF)
    decreases |s|
  {
    if s != [] {
      var r := ReplaceAll(s, CRLF, LF);
      if CRLF <= s {
        CrlfLeftOver(s[2..]);
        assert r[1..] == ReplaceAll(s[2..], CRLF, LF);
        assert s[1..][1..] == s[2..] && s[1..][0] == '\n';
      } else {
        CrlfLeftOver(s[1..]);
        var q := ReplaceAll(s[1..], CRLF, LF);
        assert r[1..] == q;
        if s[0] == '\r' && |s| > 1 {
          assert s[1..][0] != '\n';
          assert q[0] == '\n' <==> CRLF <= s[1..];
          assert CRCRLF <= s <==> CRLF <= s[1..];
        }
      }
    }
  }

  /** Whether the next character is written, and how many newlines were seen behind it. */
  lemma CapUnfolds(n: nat, s: string) returns (kept: string, m: nat)
    requires n <= 2 && s != []
    ensures m <= 2 && Cap(n, s) == kept + Cap(m, s[1..]) && Cap(n, []) == [] == Cap(m, [])
    ensures kept == (if s[0] == '\n' && n == 2 then [] else [s[0]])
  {
    if s[0] != '\n' { kept, m := [s[0]], 0; } else if n < 2 { kept, m := LF, n + 1; } else { kept, m := [], 2; }
  }

  lemma {:induction false} CapKeepsEnds(n: nat, s: string)
    requires n <= 2 && s != [] && s[|s| - 1] != '\n'
    ensures Cap(n, s) != [] && Cap(n, s)[|Cap(n, s)| - 1] == s[|s| - 1]
    ensures s[0] != '\n' ==> Cap(n, s)[0] == s[0]
    decreases |s|
  {
    hide Cap;
    var kept, m := CapUnfolds(n, s);
    if |s| > 1 {
      CapKeepsEnds(m, s[1..]);
    } else {
      assert s[1..] == [];
    }
  }

  lemma {:induction false} LineEndingsKeepEnds(s: string)
    requires s != [] && !IsSpace(s[|s| - 1])
    ensures var r := ReplaceAll(s, CRLF, LF); r != [] && r[|r| - 1] == s[|s| - 1]
    ensures !IsSpace(s[0]) ==> ReplaceAll(s, CRLF, LF)[0] == s[0]
    decreases |s|
  {
    if CRLF <= s {
      assert s[|s| - 1] != s[1];
      LineEndingsKeepEnds(s[2..]);
    } else if |s| > 1 {
      LineEndingsKeepEnds(s[1..]);
    } else {
      assert ReplaceAll(s[1..], CRLF, LF) == [];
    }
  }

  lemma NormalizedIsTrimmed(s: string)
    ensures Trimmed(Normalized(s))
  {
    var t := TrimSpace(s);
    if t != [] {
      LineEndingsKeepEnds(t);
      CapKeepsEnds(0, ReplaceAll(t, CRLF, LF));
    }
  }

  lemma {:induction false} CapIdempotent(n: nat, s: string)
    requires n <= 2
    ensures Cap(n, Cap(n, s)) == Cap(n, s)
    decreases |s|
  {
    if s != [] {
      var m := if s[0] != '\n' then 0 else if n < 2 then n + 1 else 2;
      CapIdempotent(m, s[1..]);
      if s[0] != '\n' || n < 2 { assert Cap(n, s)[1..] == Cap(m, s[1..]); }
    }
  }

  /**
   * NormalizeContent is idempotent exactly on the texts without "\r\r\n" between their outer spaces:
   * there the first pass leaves a "\r\n" behind. In particular it is on text free of carriage returns.
   */
  lemma IdempotentIff(s: string)
    ensures Normalized(Normalized(s)) == Normalized(s) <==> !Contains(TrimSpace(s), CRCRLF)
  {
    hide TrimSpace, Trimmed, Contains, ReplaceAll, Cap;
    var u := ReplaceAll(TrimSpace(s), CRLF, LF);
    var n := Normalized(s);
    NormalizedIsTrimmed(s);
    TrimSpaceTrims(n);
    CrlfLeftOver(TrimSpace(s));
    CapKeepsCrlf(0, u);
    ReplaceAllShortens(n, CRLF, LF);
    if !Contains(n, CRLF) {
      ReplaceAllWithout(n, CRLF, LF);
      CapIdempotent(0, u);
    }
  }

  lemma {:induction false} NoCarriageReturnNoCrcrlf(s: string)
    requires '\r' !in s
    ensures !Contains(s, CRCRLF) && !Contains(s, CRLF)
  {
    assert CRCRLF[0] == '\r' && CRLF[0] == '\r';
    if s != [] {
      assert s[0] != '\r';
      NoCarriageReturnNoCrcrlf(s[1..]);
    }
  }

  lemma IdempotentWithoutCarriageReturns(s: string)
    requires '\r' !in s
    ensures Normalized(Normalized(s)) == Normalized(s)
  {
    IdempotentIff(s);
    NoCarriageReturnNoCrcrlf(TrimSpace(s));
  }

  lemma {:induction false} CapWithoutNewlines(s: string)
    requires '\n' !in s
    ensures Cap(0, s) == s
  {
    if s != [] { CapWithoutNewlines(s[1..]); }
  }

  /** A text without spaces is its own normal form. */
  lemma SolidTextIsNormal(s: string)
    requires forall c :: c in s ==> !IsSpace(c)
    ensures Normalized(s) == s
  {
    hide TrimSpace, Contains, ReplaceAll, Cap;
    TrimSpaceTrims(s);
    assert '\r' !in s && '\n' !in s;
    NoCarriageReturnNoCrcrlf(s);
    ReplaceAllWithout(s, CRLF, LF);
    CapWithoutNewlines(s);
  }
}
