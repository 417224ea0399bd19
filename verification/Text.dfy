/** The string operations the services share, on ASCII text. */
module Text {

  predicate IsSpace(c: char) {
    c == ' ' || c == '\t' || c == '\n' || c == '\r' || c == '\U{0B}' || c == '\U{0C}'
  }

  function TrimLeft(s: string): (r: string)
    ensures |r| <= |s| && r == s[|s| - |r|..]
    ensures r != [] ==> !IsSpace(r[0])
    ensures s != [] && !IsSpace(s[0]) ==> r == s
  {
    if s != [] && IsSpace(s[0]) then TrimLeft(s[1..]) else s
  }

  function TrimRight(s: string): (r: string)
    ensures |r| <= |s| && r == s[..|r|]
    ensures r != [] ==> !IsSpace(r[|r| - 1])
    ensures s != [] && !IsSpace(s[|s| - 1]) ==> r == s
  {
    if s != [] && IsSpace(s[|s| - 1]) then TrimRight(s[..|s| - 1]) else s
  }

  function TrimSpace(s: string): string { TrimRight(TrimLeft(s)) }

  /** Neither end is a space. */
  predicate Trimmed(s: string) { s != [] ==> !IsSpace(s[0]) && !IsSpace(s[|s| - 1]) }

  lemma TrimSpaceTrims(s: string)
    ensures Trimmed(TrimSpace(s))
    ensures Trimmed(s) ==> TrimSpace(s) == s
    ensures TrimSpace(TrimSpace(s)) == TrimSpace(s)
  {
  }

  /** Trimming cuts only spaces, and only at the two ends. */
  lemma TrimSpaceSplits(s: string) returns (left: string, right: string)
    ensures s == left + TrimSpace(s) + right
    ensures (forall c :: c in left ==> IsSpace(c)) && (forall c :: c in right ==> IsSpace(c))
  {
    left := TrimmedLeft(s);
    var rest := TrimLeft(s);
    right := TrimmedRight(rest);
    assert s == left + (TrimRight(rest) + right);
  }

  lemma {:induction false} TrimmedLeft(s: string) returns (left: string)
    ensures s == left + TrimLeft(s) && forall c :: c in left ==> IsSpace(c)
    decreases |s|
  {
    if s != [] && IsSpace(s[0]) {
      var tail := TrimmedLeft(s[1..]);
      left := [s[0]] + tail;
    } else {
      left := [];
    }
  }

  lemma {:induction false} TrimmedRight(s: string) returns (right: string)
    ensures s == TrimRight(s) + right && forall c :: c in right ==> IsSpace(c)
    decreases |s|
  {
    if s != [] && IsSpace(s[|s| - 1]) {
      var tail := TrimmedRight(s[..|s| - 1]);
      right := tail + [s[|s| - 1]];
    } else {
      right := [];
    }
  }

  function Contains(s: string, sub: string): bool {
    sub <= s || (s != [] && Contains(s[1..], sub))
  }

  /** `sub` stands in `s` from position `i` on. */
  predicate StandsAt(s: string, sub: string, i: nat) { i + |sub| <= |s| && s[i..i + |sub|] == sub }

  lemma {:induction false} ContainsIff(s: string, sub: string)
    ensures Contains(s, sub) <==> exists i: nat :: StandsAt(s, sub, i)
    decreases |s|
  {
    assert sub <= s <==> StandsAt(s, sub, 0);
    if s != [] {
      ContainsIff(s[1..], sub);
      forall i: nat ensures StandsAt(s[1..], sub, i) <==> StandsAt(s, sub, i + 1) {
        if i + |sub| < |s| { assert s[1..][i..i + |sub|] == s[i + 1..i + 1 + |sub|]; }
      }
      forall i: nat | StandsAt(s, sub, i) && i > 0 ensures Contains(s, sub) { assert StandsAt(s[1..], sub, i - 1); }
    }
  }

  /** Replaces the occurrences of `old` from left to right, never looking at what it has just written. */
  function ReplaceAll(s: string, was: string, now: string): string
    requires was != []
  {
    if s == [] then []
    else if was <= s then now + ReplaceAll(s[|was|..], was, now)
    else [s[0]] + ReplaceAll(s[1..], was, now)
  }

  lemma {:induction false} ReplaceAllWithout(s: string, was: string, now: string)
    requires was != [] && !Contains(s, was)
    ensures ReplaceAll(s, was, now) == s
  {
    if s != [] { ReplaceAllWithout(s[1..], was, now); }
  }

  lemma {:induction false} ReplaceAllShortens(s: string, was: string, now: string)
    requires was != [] && |now| < |was|
    ensures |ReplaceAll(s, was, now)| <= |s|
    ensures Contains(s, was) ==> |ReplaceAll(s, was, now)| < |s|
  {
    if s != [] {
      if was <= s { ReplaceAllShortens(s[|was|..], was, now); } else { ReplaceAllShortens(s[1..], was, now); }
    }
  }
}
