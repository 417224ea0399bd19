/** What one call and two equal calls of Consolidate do to any memories table. */
module MemoryTheorems {
  import opened Options
  import opened Text
  import opened Similarity
  import opened SimilarityLaws
  import opened Memories
  import opened TrimInvariance

  // ----- one call

  /** The columns of the unique index, with COALESCE for the two that may be missing, and the rows it covers. */
  predicate IndexEqual(k: Key, l: Key) {
    k.org == l.org && k.scope == l.scope
    && (if k.agent.Some? then k.agent.value else 0) == (if l.agent.Some? then l.agent.value else 0)
    && (if k.project.Some? then k.project.value else 0) == (if l.project.Some? then l.project.value else 0)
  }

  predicate Covered(r: Row) { r.status in {Active, Candidate, Validating} }

  /** The unique index holds: no two rows it covers agree in all its columns. */
  ghost predicate IndexHolds(t: Table) {
    forall i, j :: 0 <= i < j < |t| && Covered(t[i]) && Covered(t[j]) && IndexEqual(t[i].key, t[j].key) ==> t[i].hash != t[j].hash
  }

  lemma CollideMeans(r: Row, q: Row)
    ensures Collide(r, q) <==> Covered(r) && Covered(q) && IndexEqual(r.key, q.key) && r.hash == q.hash
  {
  }

  /** The rows from `t` that differ in `u` were living rows of key `k` and still are; so is a row that was added. */
  ghost predicate OnlyTouches(t: Table, u: Table, k: Key) {
    && |t| <= |u| <= |t| + 1
    && (forall i :: 0 <= i < |t| ==>
          u[i] == t[i] || (t[i].key == k && u[i].key == k && t[i].status in {Active, Conflict, Candidate, Validating}))
    && (|u| > |t| ==> u[|t|].key == k)
  }

  lemma MergeTouches(env: Env, t: Table, x: Input, i: nat, classified: real)
    requires i < |t| && t[i].key == x.key && Live(t[i].status)
    ensures OnlyTouches(t, MergeInto(env, t, x, i, classified).1, x.key)
    ensures |MergeInto(env, t, x, i, classified).1| == |t|
  {
    hide Norm, Stronger, ReinforcedConfidence, Violates;
  }

  lemma HandledTouches(env: Env, t: Table, x: Input, d: Decision)
    requires d.Found? ==> d.row < |t| && t[d.row].key == x.key && Live(t[d.row].status)
    ensures OnlyTouches(t, Handled(env, t, x, d).1, x.key)
  {
    hide Norm, Stronger, MergeInto, Violates, InputHash, TrimSpace;
    if d.Found? {
      MergeTouches(env, t, x, d.row, d.confidence);
      MergeTouches(env, t, x, d.row, 0.0);
    }
  }

  /** Whatever path the call takes, rows of other owners and scopes are neither changed nor added. */
  lemma ConsolidateKeepsScopes(env: Env, t: Table, x: Input, pick: nat)
    ensures OnlyTouches(t, Consolidated(env, t, x, pick).1, x.key)
  {
    hide TrimSpace, Norm, Handled, MergeInto, FirstDecisive, Chosen;
    if !Refused(env, x) {
      if HasMatch(env, t, x) {
        MergeTouches(env, t, x, Chosen(env, t, x, pick), 0.0);
      } else {
        HandledTouches(env, t, x, FirstDecisive(env, t, x));
      }
    }
  }

  // ----- what the result says about the table

  /** What a merge makes of a row: the confidence closes half or three tenths of its gap to one, up to 0.99. */
  predicate Strengthened(env: Env, was: Row, now: Row, x: Input, classified: real) {
    var gap := (1.0 - if was.confidence == 0.0 then 0.5 else was.confidence)
               * if x.source in {"EXPLICIT_USER_PREFERENCE", "explicit_user_preference"} then 0.5 else 0.7;
    var lifted := if gap < 0.01 then 0.99 else 1.0 - gap;
    && now == was.(content := now.content, hash := now.hash, importance := now.importance, confidence := now.confidence,
                   version := was.version + 1)
    && now.content in {TrimSpace(was.content), TrimSpace(x.content)} && now.hash == env.hash(Norm(now.content))
    && now.importance in {was.importance, x.importance} && now.importance >= was.importance && now.importance >= x.importance
    && now.confidence in {lifted, classified} && now.confidence >= lifted
    && (classified > 0.0 ==> now.confidence >= classified) && (classified <= 0.0 ==> now.confidence == lifted)
  }

  lemma MergeStrengthens(env: Env, r: Row, x: Input, classified: real)
    ensures Strengthened(env, r, MergedRow(env, r, x, classified), x, classified)
  {
    hide Norm, TrimSpace, Score;
  }

  function HalfIfZero(v: real): real { if v == 0.0 then 0.5 else v }

  /** The row of an update or of a conflict: the input's, with the given text. */
  predicate StoredAs(env: Env, row: Row, x: Input, status: Status) {
    row == Row(x.key, row.content, env.hash(Norm(x.content)), HalfIfZero(x.importance), HalfIfZero(x.confidence), status,
               env.embed(x.content), x.expires, None, 1)
  }

  /** The row of a new memory: at most 5000 characters of the text, and what the source is worth by default. */
  predicate StoredNew(env: Env, row: Row, x: Input) {
    var text := TrimSpace(x.content);
    && row == Row(x.key, row.content, env.hash(Norm(x.content)), row.importance, row.confidence, Active,
                  env.embed(x.content), x.expires, None, 1)
    && row.content <= text && |row.content| == (if |text| < 5000 then |text| else 5000)
    && (if x.confidence != 0.0 then row.confidence == x.confidence
        else row.confidence == match x.source
                               case "EXPLICIT_USER_PREFERENCE" => 0.95
                               case "USER_MESSAGE" => 0.8
                               case _ => 0.5)
    && (if x.importance != 0.0 then row.importance == x.importance
        else row.importance == if x.source == "EXPLICIT_USER_PREFERENCE" then 0.85 else 0.5)
  }

  lemma NewRowIsStored(env: Env, x: Input, status: Status, content: string)
    ensures StoredAs(env, NewRow(env, x, status, content), x, status)
    ensures StoredNew(env, CreatedRow(env, x), x)
  {
    hide Norm, TrimSpace;
  }

  /** A merge of the input into row `i`, or its refusal by the unique index. */
  predicate MergeOutcome(env: Env, t: Table, x: Input, i: nat, classified: real, r: Result, u: Table) {
    if r == MergedInto then i < |t| && |u| == |t| && u == t[i := u[i]] && Strengthened(env, t[i], u[i], x, classified)
    else r == StatementFailed && u == t
  }

  lemma MergeTells(env: Env, t: Table, x: Input, i: nat, classified: real)
    requires i < |t|
    ensures var (r, u) := MergeInto(env, t, x, i, classified); MergeOutcome(env, t, x, i, classified, r, u)
  {
    hide MergedRow, Violates, Strengthened;
    MergeStrengthens(env, t[i], x, classified);
  }

  /** An update's row behind the table, with one of the two texts; the old row only refers to it. */
  predicate UpdateOutcome(env: Env, t: Table, x: Input, i: nat, u: Table) {
    && i < |t| && |u| == |t| + 1 && u[..|t|] == t[i := t[i].(supersededBy := Some(Existing(|t|)))]
    && StoredAs(env, u[|t|], x, Active) && u[|t|].content in {TrimSpace(t[i].content), TrimSpace(x.content)}
  }

  lemma SupersedingTells(env: Env, t: Table, x: Input, i: nat)
    requires i < |t|
    ensures var (r, u) := Superseding(env, t, x, i);
      if r == Updated then UpdateOutcome(env, t, x, i, u) else MergeOutcome(env, t, x, i, 0.0, r, u)
  {
    hide NewRow, Violates, MergeInto, Strengthened, StoredAs, TrimSpace, Score;
    MergeTells(env, t, x, i, 0.0);
    var row := NewRow(env, x, Active, Stronger(t[i].content, x.content));
    NewRowIsStored(env, x, Active, Stronger(t[i].content, x.content));
    NewRowFields(env, x, Active, Stronger(t[i].content, x.content));
    var u := Superseding(env, t, x, i).1;
    if InsertRow(t, row).0 {
      assert u == (t + [row])[i := t[i].(supersededBy := Some(Existing(|t|)))];
      assert u[|t|] == row;
    }
  }

  /** The input comes from a source that overrules a row of less confidence. */
  predicate Overrules(x: Input, was: Row) {
    x.source in {"EXPLICIT_USER_PREFERENCE", "USER_MESSAGE", "user_preference"} && HalfIfZero(x.confidence) >= 0.9
    && was.confidence < 0.8
  }

  predicate ConflictOutcome(env: Env, t: Table, x: Input, i: nat, u: Table) {
    && i < |t| && |u| == |t| + 1 && u[..|t|] == t[i := t[i].(status := Conflict)]
    && StoredAs(env, u[|t|], x, Conflict) && u[|t|].content == x.content
  }

  lemma StrongSourceOverrules(x: Input, was: Row)
    ensures Overrules(x, was) <==> StrongSource(x) && was.confidence < 0.8
  {
  }

  lemma ContradictingTells(env: Env, t: Table, x: Input, i: nat)
    requires i < |t|
    ensures var (r, u) := Contradicting(env, t, x, i);
      if !Overrules(x, t[i]) then r == Conflicting && ConflictOutcome(env, t, x, i, u)
      else if r == Updated then UpdateOutcome(env, t, x, i, u) else MergeOutcome(env, t, x, i, 0.0, r, u)
  {
    hide NewRow, Superseding, UpdateOutcome, MergeOutcome, ConflictOutcome, Overrules, StrongSource;
    StrongSourceOverrules(x, t[i]);
    SupersedingTells(env, t, x, i);
    ConflictIsStored(env, t, x, i);
  }

  lemma ConflictIsStored(env: Env, t: Table, x: Input, i: nat)
    requires i < |t|
    ensures ConflictOutcome(env, t, x, i, t[i := t[i].(status := Conflict)] + [NewRow(env, x, Conflict, x.content)])
  {
    NewRowIsStored(env, x, Conflict, x.content);
    NewRowFields(env, x, Conflict, x.content);
    hide NewRow, StoredAs, InputHash;
    var marked, row := t[i := t[i].(status := Conflict)], NewRow(env, x, Conflict, x.content);
    assert (marked + [row])[..|t|] == marked && (marked + [row])[|t|] == row;
  }

  lemma CreatingTells(env: Env, t: Table, x: Input)
    ensures var (r, u) := CreateNew(env, t, x);
      if r == Created then |u| == |t| + 1 && u[..|t|] == t && StoredNew(env, u[|t|], x) else r == MergedInto && u == t
  {
    hide CreatedRow, Violates, StoredNew;
    NewRowIsStored(env, x, Active, []);
  }

  /**
   * What the result of a call says about the table, on every path: nothing changed, one row strengthened, one row
   * added beside its predecessor or its opponent, or one new row. A conflict is stored exactly for a contradiction
   * that the input's source does not overrule.
   */
  lemma ResultTells(env: Env, t: Table, x: Input, pick: nat) returns (i: nat, classified: real)
    ensures var (r, u) := Consolidated(env, t, x, pick);
      && (r == Rejected <==> TrimSpace(x.content) == [] || Norm(x.content) == [] || env.rejects(x))
      && match r
         case Rejected | StatementFailed => u == t
         case MergedInto => u == t || MergeOutcome(env, t, x, i, classified, r, u)
         case Created => |u| == |t| + 1 && u[..|t|] == t && StoredNew(env, u[|t|], x)
         case Updated =>
           UpdateOutcome(env, t, x, i, u) && Classify(t[i].content, x.content).0 in {Update, Contradiction}
         case Conflicting =>
           ConflictOutcome(env, t, x, i, u) && Classify(t[i].content, x.content).0 == Contradiction && !Overrules(x, t[i])
    ensures classified == 0.0 || (i < |t| && classified == Classify(t[i].content, x.content).1)
  {
    hide TrimSpace, Norm, MergeInto, Superseding, Contradicting, CreateNew, FirstDecisive, Chosen, Strengthened,
         UpdateOutcome, ConflictOutcome, StoredNew, Overrules, Classify, HasMatch;
    i, classified := 0, 0.0;
    if !Refused(env, x) {
      if HasMatch(env, t, x) {
        i := Chosen(env, t, x, pick);
        MergeTells(env, t, x, i, 0.0);
      } else {
        var d := FirstDecisive(env, t, x);
        CreatingTells(env, t, x);
        if d.Found? {
          i := d.row;
          if d.kind in {Duplicate, Reinforce} { classified := d.confidence; }
          MergeTells(env, t, x, i, classified);
          SupersedingTells(env, t, x, i);
          ContradictingTells(env, t, x, i);
        }
      }
    }
  }

  // ----- which row a call concerns

  lemma HandledLeaves(env: Env, t: Table, x: Input, d: Decision, i: nat)
    requires i < |t| && (d.Found? ==> d.row < |t| && d.row != i)
    ensures var u := Handled(env, t, x, d).1; i < |u| && u[i] == t[i]
  {
    hide MergedRow, NewRow, CreatedRow, Violates, StrongSource, Stronger, TrimSpace;
  }

  /** Ten comparable rows are no farther from the input than this one. */
  ghost predicate BehindTen(env: Env, t: Table, x: Input, r: Row) {
    exists s: seq<nat> :: |s| == 10 && InTable(t, s) && (forall j, k :: 0 <= j < k < |s| ==> s[j] != s[k])
      && forall k :: 0 <= k < |s| ==> Comparable(env, t[s[k]], x) && DistanceTo(env, t[s[k]], x) <= DistanceTo(env, r, x)
  }

  /**
   * Without a row of the same hash, the row a call changes is the nearest comparable one that is not passed over; a
   * call that creates a memory has found all comparable rows passed over, but for rows behind ten others.
   */
  lemma NearestDecides(env: Env, t: Table, x: Input, pick: nat, i: nat, j: nat)
    requires !HasMatch(env, t, x) && i < |t| && j < |t| && Comparable(env, t[j], x)
    ensures var (r, u) := Consolidated(env, t, x, pick);
      && i < |u| && (u[i] != t[i] ==>
                       (Comparable(env, t[i], x) && !PassedOver(t[i], x)
                        && (DistanceTo(env, t[j], x) < DistanceTo(env, t[i], x) ==> PassedOver(t[j], x))))
      && (r == Created ==> PassedOver(t[j], x) || BehindTen(env, t, x, t[j]))
  {
    hide FirstDecisive, Handled, PassedOver, Comparable, DistanceTo, Nearest, HasMatch, Norm, TrimSpace;
    var d := FirstDecisive(env, t, x);
    NearerRowsArePassedOver(env, t, x, j);
    NearestAreNearest(env, t, x);
    if d.NoCandidate? || d.row != i { HandledLeaves(env, t, x, d, i); }
    if d.NoCandidate? && !PassedOver(t[j], x) {
      var s := Nearest(env, Eligibility(env, t, x), x);
      assert forall k :: 0 <= k < |s| ==> Comparable(env, t[s[k]], x) && DistanceTo(env, t[s[k]], x) <= DistanceTo(env, t[j], x);
    }
    HandledCreates(env, t, x, d);
    HandledTouches(env, t, x, d);
  }

  lemma HandledCreates(env: Env, t: Table, x: Input, d: Decision)
    requires d.Found? ==> d.row < |t| && d.kind !in {Unrelated, Ambiguous}
    ensures Handled(env, t, x, d).0 == Created ==> d.NoCandidate?
  {
    hide MergedRow, NewRow, CreatedRow, Violates, StrongSource, Stronger;
  }

  /** A living row of the input's key with its hash: the call merges into such a row, or is refused, and adds none. */
  lemma KnownHashOnlyMerges(env: Env, t: Table, x: Input, pick: nat, j: nat)
    requires TrimSpace(x.content) != [] && Norm(x.content) != [] && !env.rejects(x)
    requires j < |t| && t[j].key == x.key && t[j].hash == env.hash(Norm(x.content))
    requires t[j].status in {Active, Conflict, Candidate, Validating}
    ensures var (r, u) := Consolidated(env, t, x, pick);
      && (r == MergedInto || r == StatementFailed) && |u| == |t|
      && forall i :: 0 <= i < |t| && u[i] != t[i] ==>
           t[i].key == x.key && t[i].hash == t[j].hash && t[i].status in {Active, Conflict, Candidate, Validating}
  {
    hide TrimSpace, Norm, MergeInto, Handled, FirstDecisive, Matches, Strengthened, Chosen;
    MatchMeans(env, t[j], x);
    assert HasMatch(env, t, x);
    var i := Chosen(env, t, x, pick);
    MatchMeans(env, t[i], x);
    MergeTells(env, t, x, i, 0.0);
  }

  lemma MatchMeans(env: Env, r: Row, x: Input)
    ensures Matches(env, r, x) <==>
      r.key == x.key && r.hash == env.hash(Norm(x.content)) && r.status in {Active, Conflict, Candidate, Validating}
  {
    hide Norm;
  }

  lemma IndexEqualIsSymmetric(k: Key, l: Key)
    ensures IndexEqual(k, l) == IndexEqual(l, k)
  {
  }

  lemma InsertKeepsIndex(t: Table, row: Row)
    requires IndexHolds(t)
    ensures IndexHolds(InsertRow(t, row).1)
  {
    hide Collide, Covered, IndexEqual;
    forall j | 0 <= j < |t|
      ensures Collide(t[j], row) <==> Covered(t[j]) && Covered(row) && IndexEqual(t[j].key, row.key) && t[j].hash == row.hash
    {
      CollideMeans(t[j], row);
    }
  }

  lemma UpdateKeepsIndex(t: Table, i: nat, row: Row)
    requires IndexHolds(t) && i < |t|
    ensures IndexHolds(UpdateRow(t, i, row).1)
  {
    hide Collide, Covered, IndexEqual;
    forall j | 0 <= j < |t|
      ensures Collide(t[j], row) <==> Covered(t[j]) && Covered(row) && IndexEqual(t[j].key, row.key) && t[j].hash == row.hash
      ensures IndexEqual(t[j].key, row.key) == IndexEqual(row.key, t[j].key)
    {
      CollideMeans(t[j], row);
      IndexEqualIsSymmetric(t[j].key, row.key);
    }
  }

  lemma MergeKeepsIndex(env: Env, t: Table, x: Input, i: nat, classified: real)
    requires IndexHolds(t) && i < |t|
    ensures IndexHolds(MergeInto(env, t, x, i, classified).1)
  {
    hide MergedRow, UpdateRow, IndexHolds;
    UpdateKeepsIndex(t, i, MergedRow(env, t[i], x, classified));
  }

  lemma SupersedingKeepsIndex(env: Env, t: Table, x: Input, i: nat)
    requires IndexHolds(t) && i < |t|
    ensures IndexHolds(Superseding(env, t, x, i).1)
  {
    hide Norm, Stronger, MergeInto, Violates, InputHash;
    var row := NewRow(env, x, Active, Stronger(t[i].content, x.content));
    InsertKeepsIndex(t, row);
    MergeKeepsIndex(env, t, x, i, 0.0);
  }

  lemma ContradictingKeepsIndex(env: Env, t: Table, x: Input, i: nat)
    requires IndexHolds(t) && i < |t|
    ensures IndexHolds(Contradicting(env, t, x, i).1)
  {
    hide Norm, InputHash, Superseding, StrongSource;
    SupersedingKeepsIndex(env, t, x, i);
  }

  /** Every statement respects the unique index, so the table does after every call. */
  lemma ConsolidateKeepsIndex(env: Env, t: Table, x: Input, pick: nat)
    requires IndexHolds(t)
    ensures IndexHolds(Consolidated(env, t, x, pick).1)
  {
    hide TrimSpace, Norm, MergeInto, Superseding, Contradicting, FirstDecisive, Chosen, CreatedRow, InsertRow, IndexHolds;
    if !Refused(env, x) {
      if HasMatch(env, t, x) {
        MergeKeepsIndex(env, t, x, Chosen(env, t, x, pick), 0.0);
      } else {
        var d := FirstDecisive(env, t, x);
        InsertKeepsIndex(t, CreatedRow(env, x));
        if d.Found? {
          MergeKeepsIndex(env, t, x, d.row, d.confidence);
          SupersedingKeepsIndex(env, t, x, d.row);
          ContradictingKeepsIndex(env, t, x, d.row);
        }
      }
    }
  }

  /** Every old row keeps its status or is marked as a conflict. */
  ghost predicate StatusesKept(t: Table, u: Table) {
    |t| <= |u| && forall i :: 0 <= i < |t| ==> u[i].status == t[i].status || u[i].status == Conflict
  }

  lemma MergeKeepsStatuses(env: Env, t: Table, x: Input, i: nat, classified: real)
    requires i < |t|
    ensures StatusesKept(t, MergeInto(env, t, x, i, classified).1)
  {
    hide Norm, Stronger, ReinforcedConfidence, Violates;
  }

  lemma SupersedingKeepsStatuses(env: Env, t: Table, x: Input, i: nat)
    requires i < |t|
    ensures StatusesKept(t, Superseding(env, t, x, i).1)
  {
    hide Norm, Stronger, MergeInto, Violates, InputHash;
    MergeKeepsStatuses(env, t, x, i, 0.0);
  }

  lemma ConsolidateKeepsStatuses(env: Env, t: Table, x: Input, pick: nat)
    ensures StatusesKept(t, Consolidated(env, t, x, pick).1)
  {
    hide TrimSpace, Norm, MergeInto, Superseding, FirstDecisive, Chosen, Violates, CreatedRow, NewRow, StrongSource;
    if !Refused(env, x) {
      if HasMatch(env, t, x) {
        MergeKeepsStatuses(env, t, x, Chosen(env, t, x, pick), 0.0);
      } else {
        var d := FirstDecisive(env, t, x);
        if d.Found? {
          MergeKeepsStatuses(env, t, x, d.row, d.confidence);
          SupersedingKeepsStatuses(env, t, x, d.row);
        }
      }
    }
  }

  /**
   * An update never retires the fact it replaces: the UUID written to superseded_by names no row, the
   * foreign key refuses the statement and its error is ignored. No call makes a live row superseded.
   */
  lemma LiveRowsStayLive(env: Env, t: Table, x: Input, pick: nat)
    ensures var u := Consolidated(env, t, x, pick).1;
      |t| <= |u| && forall i :: 0 <= i < |t| && Live(t[i].status) ==> Live(u[i].status)
  {
    hide Consolidated;
    ConsolidateKeepsStatuses(env, t, x, pick);
  }

  lemma NewRowFields(env: Env, x: Input, status: Status, content: string)
    ensures var row := NewRow(env, x, status, content);
      row.content == content && row.status == status && row.hash == InputHash(env, x) && row.key == x.key
  {
    hide InputHash;
  }

  lemma UpdatedMeansInserted(env: Env, t: Table, x: Input, i: nat)
    requires i < |t| && Superseding(env, t, x, i).0 == Updated
    ensures |Superseding(env, t, x, i).1| == |t| + 1
    ensures Superseding(env, t, x, i).1[|t|] == NewRow(env, x, Active, Stronger(t[i].content, x.content))
  {
    hide NewRow, Stronger, Violates, UpdateRow, MergedRow;
  }

  /**
   * The row an update adds has the hash of the new text. It carries the old text instead of the new one exactly
   * when the two differ and the new one is empty, or scores no higher than a nonempty old one.
   */
  lemma UpdateStoresOldTextIff(env: Env, t: Table, x: Input, i: nat)
    requires i < |t| && Superseding(env, t, x, i).0 == Updated
    ensures |Superseding(env, t, x, i).1| == |t| + 1
    ensures var added, was, now := Superseding(env, t, x, i).1[|t|], TrimSpace(t[i].content), TrimSpace(x.content);
      && added.hash == InputHash(env, x) && Live(added.status) && added.content in {was, now}
      && (added.content != now <==> was != now && (now == [] || (was != [] && Weight(now) <= Weight(was))))
  {
    ScoreWeighs(TrimSpace(x.content), TrimSpace(t[i].content));
    StrongerIsOld(t[i].content, x.content);
    hide Superseding, NewRow, Stronger, Score, Weight, TrimSpace, InputHash;
    UpdatedMeansInserted(env, t, x, i);
    NewRowFields(env, x, Active, Stronger(t[i].content, x.content));
  }

  lemma StrongerIsOld(a: string, b: string)
    ensures Stronger(a, b) != TrimSpace(b) <==>
      TrimSpace(a) != TrimSpace(b) && (TrimSpace(b) == [] || (TrimSpace(a) != [] && Score(TrimSpace(b)) <= Score(TrimSpace(a))))
  {
    hide Score, TrimSpace;
  }

  // ----- when a call adds a row

  /** An indexed row (other than `besides`) already holds the hash a new active row would get. */
  predicate Blocked(env: Env, t: Table, x: Input, besides: nat) {
    exists j :: 0 <= j < |t| && j != besides
      && Covered(t[j]) && IndexEqual(t[j].key, x.key) && t[j].hash == InputHash(env, x)
  }

  /** Whether the handler for decision `d` gets a row in, given the confidence of the row it concerns. */
  predicate Inserting(x: Input, d: Decision, confidence: real, blocked: bool) {
    if d.NoCandidate? then !blocked
    else match d.kind
      case Duplicate | Reinforce => false
      case Update => !blocked
      case Contradiction => !(StrongSource(x) && confidence < 0.8) || !blocked
      case Unrelated | Ambiguous => !blocked
  }

  function ConfidenceAt(t: Table, d: Decision): real
    requires d.Found? ==> d.row < |t|
  {
    if d.Found? then t[d.row].confidence else 0.0
  }

  predicate Inserts(env: Env, t: Table, x: Input) {
    !Refused(env, x) && !HasMatch(env, t, x)
    && var d := FirstDecisive(env, t, x); Inserting(x, d, ConfidenceAt(t, d), Blocked(env, t, x, |t|))
  }

  lemma ActiveInsertBlockedIff(env: Env, t: Table, x: Input, content: string)
    ensures InsertRow(t, NewRow(env, x, Active, content)).0 <==> !Blocked(env, t, x, |t|)
    ensures InsertRow(t, CreatedRow(env, x)).0 <==> !Blocked(env, t, x, |t|)
  {
    hide Norm, InputHash, TrimSpace;
    forall j, r: Row | 0 <= j < |t| && r.status == Active && r.key == x.key && r.hash == InputHash(env, x)
      ensures Collide(t[j], r) <==> Covered(t[j]) && IndexEqual(t[j].key, x.key) && t[j].hash == InputHash(env, x)
    {
    }
  }

  lemma HandledSize(env: Env, t: Table, x: Input, d: Decision)
    requires d.Found? ==> d.row < |t| && t[d.row].key == x.key && Live(t[d.row].status)
    ensures var u := Handled(env, t, x, d).1;
      if Inserting(x, d, ConfidenceAt(t, d), Blocked(env, t, x, |t|)) then
        |u| == |t| + 1 && Matches(env, u[|t|], x)
      else |u| == |t|
  {
    hide Norm, InputHash, TrimSpace, Stronger, MergeInto, Violates, Blocked, StrongSource;
    ActiveInsertBlockedIff(env, t, x, if d.Found? then Stronger(t[d.row].content, x.content) else []);
    if d.Found? {
      MergeTouches(env, t, x, d.row, d.confidence);
      MergeTouches(env, t, x, d.row, 0.0);
    }
  }

  /** One call adds exactly one row, findable by the input's hash, or none. */
  lemma AddsRowIff(env: Env, t: Table, x: Input, pick: nat)
    ensures var u := Consolidated(env, t, x, pick).1;
      if Inserts(env, t, x) then |u| == |t| + 1 && HasMatch(env, u, x) else |u| == |t|
  {
    hide TrimSpace, Norm, Handled, MergeInto, FirstDecisive, Chosen, Inserting, Blocked, Matches, ConfidenceAt;
    if !Refused(env, x) {
      if HasMatch(env, t, x) {
        var i := Chosen(env, t, x, pick);
        assert t[i].key == x.key && Live(t[i].status) by { KeyOfMatch(env, t[i], x); }
        MergeTouches(env, t, x, i, 0.0);
      } else {
        HandledSize(env, t, x, FirstDecisive(env, t, x));
      }
    }
  }

  lemma KeyOfMatch(env: Env, r: Row, x: Input)
    requires Matches(env, r, x)
    ensures r.key == x.key && Live(r.status)
  {
    hide InputHash;
  }

  // ----- the same call again

  /** A merge whose row no longer has the input's hash kept the old text, trimmed. */
  lemma OtherHashKeptText(env: Env, r: Row, x: Input, classified: real)
    requires MergedRow(env, r, x, classified).hash != InputHash(env, x)
    ensures MergedRow(env, r, x, classified).content == TrimSpace(r.content)
  {
    hide TrimSpace, Norm, Score, ReinforcedConfidence;
    NormTrim(x.content);
  }

  /** `q` is `r` with its text at most trimmed; hash, confidence, importance and version may differ. */
  predicate SameForDecision(r: Row, q: Row) {
    q.key == r.key && q.status == r.status && q.embedding == r.embedding && q.expires == r.expires
    && (q.content == r.content || q.content == TrimSpace(r.content))
  }

  lemma SameClassification(r: Row, q: Row, x: Input)
    requires SameForDecision(r, q)
    ensures Classify(q.content, x.content) == Classify(r.content, x.content)
    ensures Kept(q.content, x) == Kept(r.content, x)
  {
    hide TrimSpace, Classify, Sim, SharesSubject, TokenOverlap, Stronger;
    ClassifyTrim(r.content, x.content);
    SimTrim(r.content, x.content);
    SharesSubjectTrim(r.content, x.content);
  }

  lemma {:induction false} SameDecide(t: Table, u: Table, x: Input, s: seq<nat>)
    requires |t| == |u| && InTable(t, s) && InTable(u, s)
    requires forall i :: 0 <= i < |t| ==> SameForDecision(t[i], u[i])
    ensures Decide(u, x, s) == Decide(t, x, s)
    decreases |s|
  {
    hide SameForDecision, Classify, Kept;
    if s != [] {
      SameClassification(t[s[0]], u[s[0]], x);
      SameDecide(t, u, x, s[1..]);
    }
  }

  lemma SameFirstDecisive(env: Env, t: Table, u: Table, x: Input)
    requires |t| == |u| && forall i :: 0 <= i < |t| ==> SameForDecision(t[i], u[i])
    ensures FirstDecisive(env, u, x) == FirstDecisive(env, t, x)
  {
    hide Nearest, Decide, TrimSpace;
    assert Eligibility(env, t, x) == Eligibility(env, u, x);
    SameDecide(t, u, x, Nearest(env, Eligibility(env, t, x), x));
  }

  lemma RehashedRowIsSame(env: Env, r: Row, x: Input, classified: real)
    requires MergedRow(env, r, x, classified).hash != InputHash(env, x)
    ensures SameForDecision(r, MergedRow(env, r, x, classified))
  {
    hide TrimSpace, Norm, Stronger, ReinforcedConfidence, InputHash;
    OtherHashKeptText(env, r, x, classified);
  }

  lemma RehashKeepsDecision(env: Env, t: Table, x: Input, i: nat, classified: real)
    requires i < |t| && MergedRow(env, t[i], x, classified).hash != InputHash(env, x)
    ensures FirstDecisive(env, t[i := MergedRow(env, t[i], x, classified)], x) == FirstDecisive(env, t, x)
  {
    var row := MergedRow(env, t[i], x, classified);
    var u := t[i := row];
    hide MergedRow, FirstDecisive, SameForDecision, InputHash, TrimSpace;
    RehashedRowIsSame(env, t[i], x, classified);
    forall j | 0 <= j < |t| ensures SameForDecision(t[j], u[j]) {
      if j != i { SameRow(t[j]); }
    }
    SameFirstDecisive(env, t, u, x);
  }

  lemma RehashUnblocks(env: Env, t: Table, x: Input, i: nat, row: Row)
    requires i < |t| && row.hash != InputHash(env, x)
    ensures Blocked(env, t[i := row], x, |t|) == Blocked(env, t, x, i)
  {
    hide InputHash;
    var u := t[i := row];
    forall j | 0 <= j < |t| && j != i ensures u[j] == t[j] {}
  }

  lemma RehashUnmatches(env: Env, t: Table, x: Input, i: nat, row: Row)
    requires i < |t| && row.hash != InputHash(env, x)
    requires forall j :: 0 <= j < |t| && j != i ==> !Matches(env, t[j], x)
    ensures !HasMatch(env, t[i := row], x)
  {
    hide InputHash;
  }

  lemma SameRow(r: Row)
    ensures SameForDecision(r, r)
  {
    hide TrimSpace;
  }

  /**
   * First way a repeated call can add a row: the first call found its only match by hash, kept that row's
   * own (different) text and rewrote its hash, so the second call no longer finds it and inserts.
   */
  predicate LosesItsMatch(env: Env, t: Table, x: Input, pick: nat) {
    HasMatch(env, t, x)
    && var i := Chosen(env, t, x, pick); var row := MergedRow(env, t[i], x, 0.0); var d := FirstDecisive(env, t, x);
      && (forall j :: 0 <= j < |t| && j != i ==> !Matches(env, t[j], x))
      && row.hash != InputHash(env, x) && !Violates(t, i, row)
      && Inserting(x, d, if d.Found? && d.row == i then row.confidence else ConfidenceAt(t, d), Blocked(env, t, x, i))
  }

  /**
   * Second way: a strong contradiction could not insert because a row of another conversation or task holds
   * the hash; the merge it fell back to kept the old text but lifted its confidence to 0.8, so the second
   * call keeps both facts.
   */
  predicate TurnsIntoConflict(env: Env, t: Table, x: Input) {
    !HasMatch(env, t, x)
    && var d := FirstDecisive(env, t, x);
      && d.Found? && d.kind == Contradiction && StrongSource(x) && t[d.row].confidence < 0.8
      && Blocked(env, t, x, |t|)
      && var row := MergedRow(env, t[d.row], x, 0.0);
        row.hash != InputHash(env, x) && !Violates(t, d.row, row) && row.confidence >= 0.8
  }

  lemma RepeatAfterMatch(env: Env, t: Table, x: Input, pick: nat, again: nat)
    requires !Refused(env, x) && HasMatch(env, t, x)
    ensures var u := Consolidated(env, t, x, pick).1;
      Inserts(env, u, x) <==> LosesItsMatch(env, t, x, pick)
  {
    hide TrimSpace, Norm, FirstDecisive, Blocked, Inserting, MergedRow, Matches, Refused, InputHash, Chosen, Violates;
    var i := Chosen(env, t, x, pick);
    var row := MergedRow(env, t[i], x, 0.0);
    var u := Consolidated(env, t, x, pick).1;
    KeyOfMatch(env, t[i], x);
    if Violates(t, i, row) {
      assert u == t;
    } else {
      assert u == t[i := row];
      if j :| 0 <= j < |t| && j != i && Matches(env, t[j], x) {
        assert Matches(env, u[j], x);
      } else if row.hash == InputHash(env, x) {
        MergedStillMatches(env, t[i], x, 0.0);
        assert Matches(env, u[i], x);
      } else {
        RehashKeepsDecision(env, t, x, i, 0.0);
        RehashUnblocks(env, t, x, i, row);
        RehashUnmatches(env, t, x, i, row);
        assert u[i] == row && forall j :: 0 <= j < |t| && j != i ==> u[j] == t[j];
      }
    }
  }

  lemma MergedStillMatches(env: Env, r: Row, x: Input, classified: real)
    requires r.key == x.key && Live(r.status) && MergedRow(env, r, x, classified).hash == InputHash(env, x)
    ensures Matches(env, MergedRow(env, r, x, classified), x)
  {
    hide TrimSpace, Norm, Stronger, ReinforcedConfidence, InputHash;
  }

  lemma RepeatAfterBlockedUpdate(env: Env, t: Table, x: Input, d: Decision)
    requires !Refused(env, x) && !HasMatch(env, t, x) && d == FirstDecisive(env, t, x) && d.Found?
    requires Blocked(env, t, x, |t|)
    requires d.kind == Update || (d.kind == Contradiction && StrongSource(x) && t[d.row].confidence < 0.8)
    ensures Inserts(env, MergeInto(env, t, x, d.row, 0.0).1, x) <==> TurnsIntoConflict(env, t, x)
  {
    hide TrimSpace, Norm, FirstDecisive, MergedRow, Matches, Refused, InputHash, Violates, Blocked, StrongSource;
    var row := MergedRow(env, t[d.row], x, 0.0);
    var u := MergeInto(env, t, x, d.row, 0.0).1;
    EligibleIsLive(env, t[d.row], x);
    if Violates(t, d.row, row) {
      assert u == t;
    } else if row.hash == InputHash(env, x) {
      MergedStillMatches(env, t[d.row], x, 0.0);
      assert Matches(env, u[d.row], x);
    } else {
      RehashKeepsDecision(env, t, x, d.row, 0.0);
      RehashUnblocks(env, t, x, d.row, row);
      RehashUnmatches(env, t, x, d.row, row);
      UnmatchedDoesNotBlock(env, t, x, d.row);
      assert u == t[d.row := row];
    }
  }

  lemma EligibleIsLive(env: Env, r: Row, x: Input)
    requires Eligible(env, r, x)
    ensures r.key == x.key && Live(r.status)
  {
  }

  /** A live row of the input's own key that does not match has another hash, so it is not what blocks. */
  lemma UnmatchedDoesNotBlock(env: Env, t: Table, x: Input, i: nat)
    requires i < |t| && t[i].key == x.key && Live(t[i].status) && !HasMatch(env, t, x)
    ensures Blocked(env, t, x, i) == Blocked(env, t, x, |t|)
  {
    hide InputHash;
    assert !Matches(env, t[i], x);
  }

  /** A semantic merge that did not end in a match is made again. */
  lemma RepeatAfterSemanticMerge(env: Env, t: Table, x: Input, d: Decision)
    requires !Refused(env, x) && !HasMatch(env, t, x) && d == FirstDecisive(env, t, x) && d.Found?
    requires d.kind == Duplicate || d.kind == Reinforce
    ensures !Inserts(env, MergeInto(env, t, x, d.row, d.confidence).1, x)
  {
    hide TrimSpace, Norm, FirstDecisive, MergedRow, Matches, Refused, InputHash, Violates, Blocked, StrongSource;
    var row := MergedRow(env, t[d.row], x, d.confidence);
    var u := MergeInto(env, t, x, d.row, d.confidence).1;
    EligibleIsLive(env, t[d.row], x);
    if Violates(t, d.row, row) {
      assert u == t;
    } else if row.hash == InputHash(env, x) {
      MergedStillMatches(env, t[d.row], x, d.confidence);
      assert Matches(env, u[d.row], x);
    } else {
      RehashKeepsDecision(env, t, x, d.row, d.confidence);
      assert u == t[d.row := row];
    }
  }

  lemma RepeatWithoutMatch(env: Env, t: Table, x: Input, pick: nat)
    requires !Refused(env, x) && !HasMatch(env, t, x) && !Inserts(env, t, x)
    ensures Inserts(env, Consolidated(env, t, x, pick).1, x) <==> TurnsIntoConflict(env, t, x)
  {
    hide TrimSpace, Norm, FirstDecisive, MergedRow, Matches, Refused, InputHash, Violates, Blocked, StrongSource, MergeInto, NewRow, CreatedRow, InsertRow, Stronger;
    var d := FirstDecisive(env, t, x);
    ActiveInsertBlockedIff(env, t, x, if d.Found? then Stronger(t[d.row].content, x.content) else []);
    if d.NoCandidate? {
      RefusedInsertChangesNothing(t, CreatedRow(env, x));
    } else {
      match d.kind {
        case Duplicate | Reinforce => RepeatAfterSemanticMerge(env, t, x, d);
        case Update | Contradiction => RepeatAfterBlockedUpdate(env, t, x, d);
        case Unrelated | Ambiguous =>
      }
      RefusedInsertChangesNothing(t, NewRow(env, x, Active, Stronger(t[d.row].content, x.content)));
    }
  }

  lemma RefusedInsertChangesNothing(t: Table, row: Row)
    ensures !InsertRow(t, row).0 ==> InsertRow(t, row).1 == t
  {
  }

  /**
   * The same call again, whatever the table: it adds a row exactly in the two situations above. In
   * particular it never does after a call that added one.
   */
  lemma RepeatAddsRowIff(env: Env, t: Table, x: Input, pick: nat, again: nat)
    ensures var u := Consolidated(env, t, x, pick).1;
      |Consolidated(env, u, x, again).1| > |u| <==>
        !Refused(env, x) && (LosesItsMatch(env, t, x, pick) || TurnsIntoConflict(env, t, x))
  {
    hide Consolidated, LosesItsMatch, TurnsIntoConflict, HasMatch, FirstDecisive, Inserting, Blocked, Refused;
    var u := Consolidated(env, t, x, pick).1;
    AddsRowIff(env, t, x, pick);
    AddsRowIff(env, u, x, again);
    WaysAreApart(env, t, x, pick);
    if !Refused(env, x) {
      if HasMatch(env, t, x) {
        RepeatAfterMatch(env, t, x, pick, again);
      } else if !Inserts(env, t, x) {
        RepeatWithoutMatch(env, t, x, pick);
      }
    }
  }

  lemma WaysAreApart(env: Env, t: Table, x: Input, pick: nat)
    ensures LosesItsMatch(env, t, x, pick) ==> HasMatch(env, t, x)
    ensures TurnsIntoConflict(env, t, x) ==> !HasMatch(env, t, x) && !Inserts(env, t, x)
  {
    hide MergedRow, FirstDecisive, Matches, Refused, InputHash, Violates, Blocked, StrongSource, Chosen;
  }

  /** Every live row of the input's key that carries its hash also carries a text with that hash. */
  predicate MatchesAreFaithful(env: Env, t: Table, x: Input) {
    forall i :: 0 <= i < |t| && Matches(env, t[i], x) ==> env.hash(Norm(t[i].content)) == t[i].hash
  }

  lemma FaithfulMatchIsKept(env: Env, r: Row, x: Input)
    requires Matches(env, r, x) && env.hash(Norm(r.content)) == r.hash
    ensures MergedRow(env, r, x, 0.0).hash == InputHash(env, x)
  {
    hide TrimSpace, Norm, Score, ReinforcedConfidence;
    NormTrim(r.content);
    NormTrim(x.content);
  }

  /** So a repeated call adds nothing when stored hashes are those of their texts and no other row blocks the insert. */
  lemma RepeatIsStable(env: Env, t: Table, x: Input, pick: nat, again: nat)
    requires MatchesAreFaithful(env, t, x) && (HasMatch(env, t, x) || !Blocked(env, t, x, |t|))
    ensures var u := Consolidated(env, t, x, pick).1;
      |Consolidated(env, u, x, again).1| == |u|
  {
    hide Consolidated, FirstDecisive, Inserting, Blocked, Refused, MergedRow, Matches, InputHash, Chosen, Violates, StrongSource;
    RepeatAddsRowIff(env, t, x, pick, again);
    AddsRowIff(env, Consolidated(env, t, x, pick).1, x, again);
    if HasMatch(env, t, x) { FaithfulMatchIsKept(env, t[Chosen(env, t, x, pick)], x); }
  }
}
