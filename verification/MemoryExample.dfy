/** Tables and inputs on which the same call, made twice, adds a row the second time. */
module MemoryExample {
  import opened Options
  import opened Text
  import opened Similarity
  import opened Memories
  import opened MemoryTheorems

  predicate IsWord(s: string) { |s| >= 2 && forall i :: 0 <= i < |s| ==> 'a' <= s[i] <= 'z' }

  lemma {:induction false} LowerWordStays(s: string)
    requires forall i :: 0 <= i < |s| ==> 'a' <= s[i] <= 'z'
    ensures Lower(s) == s && Collapse(s, false) == s
    decreases |s|
  {
    if s != [] { LowerWordStays(s[1..]); }
  }

  lemma {:induction false} WholePrefix(s: string, p: char -> bool)
    requires forall i :: 0 <= i < |s| ==> p(s[i])
    ensures PrefixLength(s, p) == |s|
    decreases |s|
  {
    if s != [] { WholePrefix(s[1..], p); }
  }

  lemma WordIsNormal(s: string)
    requires IsWord(s)
    ensures TrimSpace(s) == s && Norm(s) == s
  {
    hide TrimSpace, Lower, Collapse;
    TrimSpaceTrims(s);
    LowerWordStays(s);
  }

  lemma WordFields(s: string)
    requires IsWord(s)
    ensures Fields(s) == [s]
  {
    WholePrefix(s, c => !IsSpace(c));
    assert s[..|s|] == s && s[|s|..] == [];
  }

  lemma WordTokens(s: string)
    requires IsWord(s)
    ensures TokenSet(s) == {s}
  {
    WholePrefix(s, IsTokenChar);
    assert s[..|s|] == s && s[|s|..] == [];
    assert TokenSet(s) == {s[..|s|]} + TokenSet([]);
  }

  lemma WordScore(s: string)
    requires IsWord(s)
    ensures Score(s) == -1.0
  {
    hide Fields, TokenSet;
    WordFields(s);
    WordTokens(s);
  }

  /** An expired row that carries the word `old` under the hash of the word `new`, as an update may leave it. */
  function ExpiredRow(env: Env, x: Input, old': string): Row {
    Row(x.key, old', InputHash(env, x), 0.6, 0.5, Active, 0, Some(env.now), None, 1)
  }

  /**
   * For all words, scopes and environments that tell the two words apart: the first call merges into the
   * row and re-hashes it, the second neither finds nor may compare it and creates a row.
   */
  lemma RepeatAddsRow(env: Env, x: Input, old': string)
    requires IsWord(old') && IsWord(x.content) && !env.rejects(x) && env.hash(old') != env.hash(x.content)
    ensures var t := [ExpiredRow(env, x, old')];
      var u := Consolidated(env, t, x, 0).1;
      |u| == 1 && |Consolidated(env, u, x, 0).1| == 2
  {
    hide TrimSpace, Norm, Score, Consolidated;
    WordIsNormal(old');
    WordIsNormal(x.content);
    WordScore(old');
    WordScore(x.content);
    var t := [ExpiredRow(env, x, old')];
    assert Matches(env, t[0], x) && Chosen(env, t, x, 0) == 0;
    assert Eligibility(env, t, x) == [None];
    assert FirstDecisive(env, t, x) == NoCandidate;
    assert MergedRow(env, t[0], x, 0.0).content == old';
    assert LosesItsMatch(env, t, x, 0);
    AddsRowIff(env, t, x, 0);
    AddsRowIff(env, Consolidated(env, t, x, 0).1, x, 0);
    RepeatAddsRowIff(env, t, x, 0, 0);
  }

  // ----- the second way

  const OLD := "notuser"
  const NEW := "user"

  lemma OldTextFacts()
    ensures IsWord(OLD) && TrimSpace(OLD) == OLD && Norm(OLD) == OLD && Lower(OLD) == OLD
    ensures Contains(OLD, "user") && Contains(OLD, "not")
  {
    hide TrimSpace, Norm, Lower, Collapse;
    WordIsNormal(OLD);
    LowerWordStays(OLD);
    assert OLD[1..][1..][1..] == "user";
  }

  lemma NewTextFacts()
    ensures IsWord(NEW) && TrimSpace(NEW) == NEW && Norm(NEW) == NEW && Lower(NEW) == NEW
    ensures Contains(NEW, "user") && !Contains(NEW, "not")
  {
    hide TrimSpace, Norm, Lower, Collapse;
    WordIsNormal(NEW);
    LowerWordStays(NEW);
    assert NEW[1..] == "ser" && "ser"[1..] == "er" && "er"[1..] == "r";
    assert !Contains("r", "not") && !Contains("er", "not");
    assert "not"[0] == 'n' && "ser"[0] == 's' && NEW[0] == 'u';
    assert !Contains("ser", "not");
  }

  lemma OldTextIsKept()
    ensures Stronger(OLD, NEW) == OLD
  {
    hide TrimSpace, Norm, Lower, Score;
    OldTextFacts();
    NewTextFacts();
    WordScore(OLD);
    WordScore(NEW);
  }

  lemma OldAndNewContradict()
    ensures Classify(OLD, NEW) == (Contradiction, 0.85) && SharesSubject(OLD, NEW)
  {
    hide TrimSpace, Norm, Lower, Contains, TokenOverlap, Sim, FormatsDiffer, Opposed;
    OldTextFacts();
    NewTextFacts();
    assert SUBJECTS[1] == "user";
  }

  /** The contradicted row, and a row of another conversation that holds the hash of the new text. */
  function ContradictedRow(env: Env, x: Input): Row {
    Row(x.key, OLD, env.hash(OLD), 0.5, 0.7, Active, 0, None, None, 1)
  }

  function BlockingRow(env: Env, x: Input, conversation: Option<Uuid>): Row {
    Row(x.key.(conversation := conversation), NEW, env.hash(NEW), 0.5, 0.5, Active, 0, None, None, 1)
  }

  lemma {:induction false} OneEligible(env: Env, t: Table, x: Input)
    requires |t| == 2 && Eligible(env, t[0], x) && !Eligible(env, t[1], x)
    ensures Nearest(env, Eligibility(env, t, x), x) == [0]
  {
    hide Eligible;
    var e := Eligibility(env, t, x);
    assert Ordered(env, e, x, 0) == [];
    assert Ordered(env, e, x, 1) == [0];
    assert Ordered(env, e, x, 2) == [0];
  }

  lemma ContradictionIsDecisive(env: Env, t: Table, x: Input)
    requires |t| == 2 && Eligible(env, t[0], x) && !Eligible(env, t[1], x)
    requires t[0].content == OLD && x.content == NEW
    ensures FirstDecisive(env, t, x) == Found(0, Contradiction, 0.85)
  {
    hide Classify, SharesSubject, Sim, Eligible, Nearest;
    OldAndNewContradict();
    OneEligible(env, t, x);
  }

  lemma ConflictGuards(env: Env, x: Input, conversation: Option<Uuid>)
    requires x.content == NEW && x.source == EXPLICIT && x.confidence == 0.95 && !env.rejects(x)
    requires conversation != x.key.conversation && env.hash(OLD) != env.hash(NEW)
    ensures var t := [ContradictedRow(env, x), BlockingRow(env, x, conversation)];
      !Refused(env, x) && !HasMatch(env, t, x) && Blocked(env, t, x, |t|) && StrongSource(x)
      && Eligible(env, t[0], x) && !Eligible(env, t[1], x)
  {
    hide TrimSpace, Norm, Lower, Contains, Blocked;
    OldTextFacts();
    NewTextFacts();
    var t := [ContradictedRow(env, x), BlockingRow(env, x, conversation)];
    assert !Matches(env, t[0], x) && !Matches(env, t[1], x);
    BlocksBeside(env, t, x, 1);
  }

  lemma BlocksBeside(env: Env, t: Table, x: Input, j: nat)
    requires j < |t| && Indexed(t[j].status) && SameIndexKey(t[j].key, x.key) && t[j].hash == InputHash(env, x)
    ensures Blocked(env, t, x, |t|)
  {
  }

  lemma ConflictMerge(env: Env, x: Input)
    requires x.content == NEW && x.source == EXPLICIT && env.hash(OLD) != env.hash(NEW)
    ensures var row := MergedRow(env, ContradictedRow(env, x), x, 0.0);
      row.content == OLD && row.hash == env.hash(OLD) != InputHash(env, x) && row.confidence == 0.85
  {
    hide TrimSpace, Norm, Stronger;
    OldTextFacts();
    NewTextFacts();
    OldTextIsKept();
  }

  /** A blocked update lifts the old row's confidence, and the same call then stores the conflict. */
  lemma RepeatStoresConflict(env: Env, x: Input, conversation: Option<Uuid>)
    requires x.content == NEW && x.source == EXPLICIT && x.confidence == 0.95 && !env.rejects(x)
    requires conversation != x.key.conversation && env.hash(OLD) != env.hash(NEW)
    ensures var t := [ContradictedRow(env, x), BlockingRow(env, x, conversation)];
      var u := Consolidated(env, t, x, 0).1;
      |u| == 2 && |Consolidated(env, u, x, 0).1| == 3
  {
    hide TrimSpace, Norm, Stronger, Consolidated, FirstDecisive, MergedRow, InputHash, Blocked, Refused, StrongSource, HasMatch, Eligible;
    NewTextFacts();
    var t := [ContradictedRow(env, x), BlockingRow(env, x, conversation)];
    ConflictGuards(env, x, conversation);
    ContradictionIsDecisive(env, t, x);
    ConflictMerge(env, x);
    assert TurnsIntoConflict(env, t, x);
    AddsRowIff(env, t, x, 0);
    AddsRowIff(env, Consolidated(env, t, x, 0).1, x, 0);
    RepeatAddsRowIff(env, t, x, 0, 0);
  }
}
