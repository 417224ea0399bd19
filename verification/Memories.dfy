/** The memories table and Consolidate, with the table constraints that make its statements fail. */
module Memories {
  import opened Options
  import opened Text
  import opened Similarity

  type Uuid = nat       // 0 is the nil UUID
  type Embedding = int

  /** The six columns every lookup of the consolidation compares. */
  datatype Key = Key(org: Uuid, scope: string, agent: Option<Uuid>, project: Option<Uuid>,
                     conversation: Option<Uuid>, task: Option<Uuid>)

  datatype Status = Candidate | Validating | Active | Conflict | Merged | Superseded | Stale | Archived

  /** superseded_by: a row of the table, or a UUID that names no row. */
  datatype Reference = Existing(row: nat) | Dangling(id: Uuid)

  datatype Row = Row(key: Key, content: string, hash: string, importance: real, confidence: real, status: Status,
                     embedding: Embedding, expires: Option<int>, supersededBy: Option<Reference>, version: nat)

  type Table = seq<Row>

  datatype Input = Input(key: Key, source: string, content: string, importance: real, confidence: real,
                         expires: Option<int>)

  /** What the call reads from outside: the hash, the embedder, the clock and the low-value and secret filters. */
  datatype Env = Env(hash: string -> string, embed: string -> Embedding, distance: (Embedding, Embedding) -> real,
                     now: int, rejects: Input -> bool)

  datatype Result = Created | MergedInto | Updated | Conflicting | Rejected | StatementFailed

  const MAX_CANDIDATES: nat := 10
  const MAX_CONTENT: nat := 5000

  predicate Live(s: Status) { s.Active? || s.Candidate? || s.Validating? || s.Conflict? }

  // ----- table constraints

  /** The rows covered by the unique index idx_memories_idempotency. */
  predicate Indexed(s: Status) { s.Active? || s.Candidate? || s.Validating? }

  function Coalesce(o: Option<Uuid>): Uuid { if o.Some? then o.value else 0 }

  /** Equal in every column of the unique index; conversation and task are not among them. */
  predicate SameIndexKey(k: Key, l: Key) {
    k.org == l.org && k.scope == l.scope && Coalesce(k.agent) == Coalesce(l.agent)
    && Coalesce(k.project) == Coalesce(l.project)
  }

  predicate Collide(r: Row, q: Row) {
    Indexed(r.status) && Indexed(q.status) && SameIndexKey(r.key, q.key) && r.hash == q.hash
  }

  /** Writing `row` at position `i` (or behind the last row) breaks the unique index. */
  predicate Violates(t: Table, i: nat, row: Row) {
    exists j :: 0 <= j < |t| && j != i && Collide(t[j], row)
  }

  function InsertRow(t: Table, row: Row): (bool, Table) {
    if Violates(t, |t|, row) then (false, t) else (true, t + [row])
  }

  function UpdateRow(t: Table, i: nat, row: Row): (bool, Table)
    requires i < |t|
  {
    if Violates(t, i, row) then (false, t) else (true, t[i := row])
  }

  /** UPDATE ... SET status='superseded', superseded_by=ref: the reference must name a row. */
  function MarkSuperseded(t: Table, i: nat, ref: Reference): Table
    requires i < |t|
  {
    if ref.Existing? && ref.row < |t| then t[i := t[i].(status := Superseded, supersededBy := Some(ref))] else t
  }

  // ----- lookups

  predicate Matches(env: Env, r: Row, x: Input) {
    r.key == x.key && r.hash == InputHash(env, x) && Live(r.status)
  }

  function InputHash(env: Env, x: Input): string { env.hash(Norm(x.content)) }

  predicate HasMatch(env: Env, t: Table, x: Input) {
    exists i :: 0 <= i < |t| && Matches(env, t[i], x)
  }

  function FirstTrue(hits: seq<bool>): (r: nat)
    requires true in hits
    ensures r < |hits| && hits[r]
  {
    if hits[0] then 0 else 1 + FirstTrue(hits[1..])
  }

  function Hits(env: Env, t: Table, x: Input): (hits: seq<bool>)
    ensures |hits| == |t| && forall i :: 0 <= i < |t| ==> hits[i] == Matches(env, t[i], x)
    ensures HasMatch(env, t, x) ==> true in hits
  {
    hide Matches;
    seq(|t|, i requires 0 <= i < |t| => Matches(env, t[i], x))
  }

  /** LIMIT 1 without ORDER BY: `pick` stands for the database's choice among the matching rows. */
  function Chosen(env: Env, t: Table, x: Input, pick: nat): (r: nat)
    requires HasMatch(env, t, x)
    ensures r < |t| && Matches(env, t[r], x)
  {
    hide Matches;
    if pick < |t| && Matches(env, t[pick], x) then pick
    else
      FirstTrue(Hits(env, t, x))
  }

  predicate Eligible(env: Env, r: Row, x: Input) {
    r.key == x.key && Live(r.status) && (r.expires.None? || r.expires.value > env.now)
  }

  /** For every row its embedding if the candidate query may return it. */
  function Eligibility(env: Env, t: Table, x: Input): (e: seq<Option<Embedding>>)
    ensures |e| == |t|
    ensures forall i :: 0 <= i < |t| ==> (e[i].Some? <==> Eligible(env, t[i], x))
  {
    seq(|t|, i requires 0 <= i < |t| => if Eligible(env, t[i], x) then Some(t[i].embedding) else None)
  }

  function Distance(env: Env, e: seq<Option<Embedding>>, x: Input, i: nat): real
    requires i < |e| && e[i].Some?
  {
    env.distance(e[i].value, env.embed(x.content))
  }

  predicate Selects(e: seq<Option<Embedding>>, s: seq<nat>) {
    forall k :: 0 <= k < |s| ==> s[k] < |e| && e[s[k]].Some?
  }

  function InsertByDistance(env: Env, e: seq<Option<Embedding>>, x: Input, s: seq<nat>, i: nat): (r: seq<nat>)
    requires Selects(e, s) && i < |e| && e[i].Some?
    ensures Selects(e, r)
  {
    if s == [] || Distance(env, e, x, i) < Distance(env, e, x, s[0]) then [i] + s
    else [s[0]] + InsertByDistance(env, e, x, s[1..], i)
  }

  /** The first `n` rows' eligible positions, nearest first; ties in table order. */
  function Ordered(env: Env, e: seq<Option<Embedding>>, x: Input, n: nat): (r: seq<nat>)
    requires n <= |e|
    ensures Selects(e, r)
  {
    if n == 0 then []
    else if e[n - 1].None? then Ordered(env, e, x, n - 1)
    else InsertByDistance(env, e, x, Ordered(env, e, x, n - 1), n - 1)
  }

  /** ORDER BY embedding <=> ... LIMIT 10. */
  function Nearest(env: Env, e: seq<Option<Embedding>>, x: Input): (r: seq<nat>)
    ensures Selects(e, r) && |r| <= MAX_CANDIDATES
  {
    var all := Ordered(env, e, x, |e|);
    if |all| <= MAX_CANDIDATES then all else all[..MAX_CANDIDATES]
  }

  /** Distinct positions of eligible rows, none farther than the next one. */
  predicate Rising(env: Env, e: seq<Option<Embedding>>, x: Input, s: seq<nat>)
    requires Selects(e, s)
  {
    forall j, k :: 0 <= j < k < |s| ==> s[j] != s[k] && Distance(env, e, x, s[j]) <= Distance(env, e, x, s[k])
  }

  lemma {:induction false} InsertKeepsRising(env: Env, e: seq<Option<Embedding>>, x: Input, s: seq<nat>, i: nat)
    requires Selects(e, s) && i < |e| && e[i].Some? && i !in s && Rising(env, e, x, s)
    ensures var r := InsertByDistance(env, e, x, s, i);
      Rising(env, e, x, r) && forall j: nat :: j in r <==> j == i || j in s
    decreases |s|
  {
    hide Distance;
    if s != [] {
      var rest := InsertByDistance(env, e, x, s[1..], i);
      InsertKeepsRising(env, e, x, s[1..], i);
      forall k | 0 <= k < |rest| ensures s[0] != rest[k] && (rest[k] != i ==> Distance(env, e, x, s[0]) <= Distance(env, e, x, rest[k])) {
        assert rest[k] in rest;
      }
    }
  }

  lemma {:induction false} OrderedRises(env: Env, e: seq<Option<Embedding>>, x: Input, n: nat)
    requires n <= |e|
    ensures var s := Ordered(env, e, x, n);
      Rising(env, e, x, s) && forall i: nat :: i in s <==> i < n && e[i].Some?
  {
    if n > 0 {
      OrderedRises(env, e, x, n - 1);
      if e[n - 1].Some? { InsertKeepsRising(env, e, x, Ordered(env, e, x, n - 1), n - 1); }
    }
  }

  function DistanceTo(env: Env, r: Row, x: Input): real { env.distance(r.embedding, env.embed(x.content)) }

  /** A row the candidate query may return: the input's own key, a living status, not expired. */
  predicate Comparable(env: Env, r: Row, x: Input) {
    r.key == x.key && r.status in {Active, Conflict, Candidate, Validating} && (r.expires.Some? ==> env.now < r.expires.value)
  }

  lemma EligibleMeans(env: Env, t: Table, x: Input, i: nat)
    requires i < |t|
    ensures var e := Eligibility(env, t, x);
      (Comparable(env, t[i], x) <==> e[i].Some?) && (e[i].Some? ==> Distance(env, e, x, i) == DistanceTo(env, t[i], x))
  {
  }

  /**
   * The query returns distinct comparable rows in the order of their distance: ten, or all there are. No row that is
   * left out is nearer than one that is returned.
   */
  lemma NearestAreNearest(env: Env, t: Table, x: Input)
    ensures var s := Nearest(env, Eligibility(env, t, x), x);
      && InTable(t, s) && |s| <= 10
      && (forall k :: 0 <= k < |s| ==> Comparable(env, t[s[k]], x))
      && (forall j, k :: 0 <= j < k < |s| ==> s[j] != s[k] && DistanceTo(env, t[s[j]], x) <= DistanceTo(env, t[s[k]], x))
      && (forall i :: 0 <= i < |t| && Comparable(env, t[i], x) && i !in s ==>
            |s| == 10 && forall k :: 0 <= k < |s| ==> DistanceTo(env, t[s[k]], x) <= DistanceTo(env, t[i], x))
  {
    var e := Eligibility(env, t, x);
    var s := Nearest(env, e, x);
    FirstTen(env, e, x);
    hide Comparable, Eligible, Eligibility, Distance, DistanceTo, Nearest;
    forall i: nat | i < |t| ensures Comparable(env, t[i], x) <==> e[i].Some? { EligibleMeans(env, t, x, i); }
    forall i: nat | i < |t| && e[i].Some? ensures Distance(env, e, x, i) == DistanceTo(env, t[i], x) { EligibleMeans(env, t, x, i); }
    forall i: nat | i < |t| && Comparable(env, t[i], x) && i !in s
      ensures |s| == 10 && forall k :: 0 <= k < |s| ==> DistanceTo(env, t[s[k]], x) <= DistanceTo(env, t[i], x)
    {
      assert Left(env, e, x, s, i);
    }
  }

  /** Row `i` is left out because ten rows are returned that are no farther. */
  predicate Left(env: Env, e: seq<Option<Embedding>>, x: Input, s: seq<nat>, i: nat)
    requires Selects(e, s) && i < |e| && e[i].Some?
  {
    |s| == 10 && forall k :: 0 <= k < |s| ==> Distance(env, e, x, s[k]) <= Distance(env, e, x, i)
  }

  lemma FirstTen(env: Env, e: seq<Option<Embedding>>, x: Input)
    ensures var s := Nearest(env, e, x);
      && Selects(e, s) && Rising(env, e, x, s) && |s| <= 10
      && forall i: nat :: i < |e| && e[i].Some? && i !in s ==> Left(env, e, x, s, i)
  {
    OrderedRises(env, e, x, |e|);
    hide Ordered, Distance;
    var all, s := Ordered(env, e, x, |e|), Nearest(env, e, x);
    forall i: nat | i < |e| && e[i].Some? && i !in s ensures Left(env, e, x, s, i) {
      var k :| 0 <= k < |all| && all[k] == i;
    }
  }

  /** The textual filter behind the query. */
  predicate Kept(content: string, x: Input) { Sim(content, x.content) >= 0.25 || SharesSubject(content, x.content) }

  datatype Decision = NoCandidate | Found(row: nat, kind: Label, confidence: real)

  predicate InTable(t: Table, s: seq<nat>) { forall k :: 0 <= k < |s| ==> s[k] < |t| }

  /** The classification loop: the first candidate that is neither filtered out nor kept apart. */
  function Decide(t: Table, x: Input, s: seq<nat>): (d: Decision)
    requires InTable(t, s)
    ensures d.Found? ==> d.row < |t| && (exists k :: 0 <= k < |s| && s[k] == d.row) && d.kind !in {Unrelated, Ambiguous}
                         && Classify(t[d.row].content, x.content) == (d.kind, d.confidence)
  {
    hide Classify, Kept;
    if s == [] then NoCandidate
    else if !Kept(t[s[0]].content, x) then Decide(t, x, s[1..])
    else
      var c := Classify(t[s[0]].content, x.content);
      if c.0 in {Unrelated, Ambiguous} then Decide(t, x, s[1..]) else Found(s[0], c.0, c.1)
  }

  /** A candidate that decides nothing: filtered out by its text, or kept apart by the classification. */
  predicate PassedOver(r: Row, x: Input) {
    || (Sim(r.content, x.content) < 0.25 && !SharesSubject(r.content, x.content))
    || Classify(r.content, x.content).0 in {Unrelated, Ambiguous}
  }

  lemma {:induction false} DecideIsFirst(t: Table, x: Input, s: seq<nat>) returns (k: nat)
    requires InTable(t, s)
    ensures k <= |s| && forall j :: 0 <= j < k ==> PassedOver(t[s[j]], x)
    ensures if k == |s| then Decide(t, x, s).NoCandidate?
            else Decide(t, x, s).Found? && Decide(t, x, s).row == s[k] && !PassedOver(t[s[k]], x)
    decreases |s|
  {
    hide Classify, Sim, SharesSubject;
    if s == [] || !PassedOver(t[s[0]], x) {
      k := 0;
    } else {
      k := DecideIsFirst(t, x, s[1..]);
      k := k + 1;
    }
  }

  /** The candidates that pass the textual filter, in order. */
  function KeptOf(t: Table, x: Input, s: seq<nat>): (r: seq<nat>)
    requires InTable(t, s)
    ensures InTable(t, r)
  {
    hide Kept;
    if s == [] then [] else (if Kept(t[s[0]].content, x) then [s[0]] else []) + KeptOf(t, x, s[1..])
  }

  predicate RisingRows(env: Env, t: Table, x: Input, s: seq<nat>)
    requires InTable(t, s)
  {
    forall j, k :: 0 <= j < k < |s| ==> s[j] != s[k] && DistanceTo(env, t[s[j]], x) <= DistanceTo(env, t[s[k]], x)
  }

  /** The filter changes no decision. */
  lemma {:induction false} FilterDecidesAlike(t: Table, x: Input, s: seq<nat>)
    requires InTable(t, s)
    ensures Decide(t, x, KeptOf(t, x, s)) == Decide(t, x, s)
    decreases |s|
  {
    hide Classify, Kept;
    if s != [] {
      FilterDecidesAlike(t, x, s[1..]);
      var rest := KeptOf(t, x, s[1..]);
      if Kept(t[s[0]].content, x) { assert ([s[0]] + rest)[1..] == rest; } else { assert [] + rest == rest; }
    }
  }

  /** It drops exactly what has too little in common. */
  lemma {:induction false} FilterKeeps(t: Table, x: Input, s: seq<nat>)
    requires InTable(t, s)
    ensures forall i: nat :: i in KeptOf(t, x, s) <==> i in s && Kept(t[i].content, x)
    decreases |s|
  {
    hide Kept;
    if s != [] {
      FilterKeeps(t, x, s[1..]);
      assert s == [s[0]] + s[1..];
    }
  }

  /** It keeps the order. */
  lemma {:induction false} FilterKeepsRising(env: Env, t: Table, x: Input, s: seq<nat>)
    requires InTable(t, s) && RisingRows(env, t, x, s)
    ensures RisingRows(env, t, x, KeptOf(t, x, s))
    decreases |s|
  {
    hide Kept, DistanceTo;
    if s != [] {
      FilterKeepsRising(env, t, x, s[1..]);
      FilterKeeps(t, x, s[1..]);
      forall i: nat | i in KeptOf(t, x, s[1..]) ensures s[0] != i && DistanceTo(env, t[s[0]], x) <= DistanceTo(env, t[i], x) {
        var k :| 0 <= k < |s[1..]| && s[1..][k] == i;
        assert s[k + 1] == i;
      }
    }
  }

  lemma KeptMeans(x: Input)
    ensures forall c :: Kept(c, x) <==> Sim(c, x.content) >= 0.25 || SharesSubject(c, x.content)
  {
    hide Sim, SharesSubject;
  }

  /** The rows the classification loop gets to see, in order. */
  function Candidates(env: Env, t: Table, x: Input): (r: seq<nat>)
    ensures InTable(t, r)
  {
    KeptOf(t, x, Nearest(env, Eligibility(env, t, x), x))
  }

  /** They are those of the nearest rows that have enough in common with the input, nearest first. */
  lemma CandidatesAreNearest(env: Env, t: Table, x: Input)
    ensures var s, r := Nearest(env, Eligibility(env, t, x), x), Candidates(env, t, x);
      && InTable(t, s) && RisingRows(env, t, x, r) && Decide(t, x, r) == FirstDecisive(env, t, x)
      && forall i: nat :: i in r <==>
           (i in s && (Sim(t[i].content, x.content) >= 0.25 || SharesSubject(t[i].content, x.content)))
  {
    hide Nearest, Decide, Kept, Sim, SharesSubject, DistanceTo, Comparable, KeptOf, Eligibility;
    NearestAreNearest(env, t, x);
    var s := Nearest(env, Eligibility(env, t, x), x);
    KeptMeans(x);
    FilterDecidesAlike(t, x, s);
    FilterKeeps(t, x, s);
    FilterKeepsRising(env, t, x, s);
  }

  lemma CandidatesDecide(env: Env, t: Table, x: Input)
    ensures Decide(t, x, Candidates(env, t, x)) == FirstDecisive(env, t, x)
    ensures forall i: nat :: i in Candidates(env, t, x) ==> Kept(t[i].content, x)
  {
    hide Nearest, Decide, Kept, KeptOf;
    FilterDecidesAlike(t, x, Nearest(env, Eligibility(env, t, x), x));
    FilterKeeps(t, x, Nearest(env, Eligibility(env, t, x), x));
  }

  lemma NothingKept(t: Table, x: Input, s: seq<nat>)
    requires s == []
    ensures KeptOf(t, x, s) == []
  {
  }

  lemma KeptOfSteps(t: Table, x: Input, s: seq<nat>, i: nat)
    requires InTable(t, s) && i < |s|
    ensures InTable(t, s[i..]) && InTable(t, s[i + 1..])
    ensures KeptOf(t, x, s[i..]) == (if Kept(t[s[i]].content, x) then [s[i]] else []) + KeptOf(t, x, s[i + 1..])
  {
    hide Kept;
    assert s[i..][1..] == s[i + 1..];
  }

  function FirstDecisive(env: Env, t: Table, x: Input): (d: Decision)
    ensures d.Found? ==> d.row < |t| && Eligible(env, t[d.row], x) && d.kind !in {Unrelated, Ambiguous}
                         && Classify(t[d.row].content, x.content) == (d.kind, d.confidence)
  {
    Decide(t, x, Nearest(env, Eligibility(env, t, x), x))
  }

  /**
   * The decisive row is the nearest one that is not passed over: every comparable row that is strictly nearer is
   * filtered out or kept apart. If there is none, each comparable row is passed over or farther than ten others.
   */
  lemma NearerRowsArePassedOver(env: Env, t: Table, x: Input, i: nat)
    requires i < |t| && Comparable(env, t[i], x)
    ensures var d, s := FirstDecisive(env, t, x), Nearest(env, Eligibility(env, t, x), x);
      && (d.Found? ==> Comparable(env, t[d.row], x) && !PassedOver(t[d.row], x)
                       && (DistanceTo(env, t[i], x) < DistanceTo(env, t[d.row], x) ==> PassedOver(t[i], x)))
      && (d.NoCandidate? ==> PassedOver(t[i], x) || (i !in s && |s| == 10))
  {
    hide Nearest, Decide, Comparable, DistanceTo, PassedOver, Eligible, Eligibility, Classify;
    NearestAreNearest(env, t, x);
    var k := DecideIsFirst(t, x, Nearest(env, Eligibility(env, t, x), x));
  }

  // ----- the handlers

  const EXPLICIT := "EXPLICIT_USER_PREFERENCE"

  function ReinforcedConfidence(oldConf: real, source: string): real {
    var base := if oldConf == 0.0 then 0.5 else oldConf;
    var boosted := if source == EXPLICIT || source == "explicit_user_preference" then base + (1.0 - base) * 0.5
                   else base + (1.0 - base) * 0.3;
    if 0.99 < boosted then 0.99 else boosted
  }

  function MaxReal(a: real, b: real): real { if b > a then b else a }

  /** The row a merge writes: the stronger text with its own hash. */
  function MergedRow(env: Env, r: Row, x: Input, classified: real): Row {
    var text := Stronger(r.content, x.content);
    var conf := ReinforcedConfidence(r.confidence, x.source);
    r.(content := text, hash := env.hash(Norm(text)), importance := MaxReal(r.importance, x.importance),
       confidence := if classified > 0.0 && classified > conf then classified else conf, version := r.version + 1)
  }

  function MergeInto(env: Env, t: Table, x: Input, i: nat, classified: real): (Result, Table)
    requires i < |t|
  {
    var u := UpdateRow(t, i, MergedRow(env, t[i], x, classified));
    (if u.0 then MergedInto else StatementFailed, u.1)
  }

  function OrHalf(v: real): real { if v == 0.0 then 0.5 else v }

  function NewRow(env: Env, x: Input, status: Status, content: string): Row {
    Row(x.key, content, InputHash(env, x), OrHalf(x.importance), OrHalf(x.confidence), status,
        env.embed(x.content), x.expires, None, 1)
  }

  function CreatedRow(env: Env, x: Input): Row {
    var text := TrimSpace(x.content);
    var conf := if x.confidence != 0.0 then x.confidence else if x.source == EXPLICIT then 0.95
                else if x.source == "USER_MESSAGE" then 0.8 else 0.5;
    var imp := if x.importance != 0.0 then x.importance else if x.source == EXPLICIT then 0.85 else 0.5;
    NewRow(env, x, Active, if |text| > MAX_CONTENT then text[..MAX_CONTENT] else text)
      .(confidence := conf, importance := imp)
  }

  /** A row in the way of the insert is reported as a merge and nothing is written. */
  function CreateNew(env: Env, t: Table, x: Input): (Result, Table) {
    var n := InsertRow(t, CreatedRow(env, x));
    (if n.0 then Created else MergedInto, n.1)
  }

  function Superseding(env: Env, t: Table, x: Input, i: nat): (Result, Table)
    requires i < |t|
  {
    var freshId := Dangling(0);
    var marked := MarkSuperseded(t, i, freshId);
    var n := InsertRow(marked, NewRow(env, x, Active, Stronger(t[i].content, x.content)));
    if !n.0 then MergeInto(env, marked, x, i, 0.0)
    else (Updated, n.1[i := n.1[i].(supersededBy := Some(Existing(|t|)))])
  }

  predicate StrongSource(x: Input) {
    (x.source == EXPLICIT || x.source == "USER_MESSAGE" || x.source == "user_preference") && OrHalf(x.confidence) >= 0.9
  }

  function Contradicting(env: Env, t: Table, x: Input, i: nat): (Result, Table)
    requires i < |t|
  {
    if StrongSource(x) && t[i].confidence < 0.8 then Superseding(env, t, x, i)
    else
      var marked := t[i := t[i].(status := Conflict)];
      (Conflicting, marked + [NewRow(env, x, Conflict, x.content)])
  }

  function Handled(env: Env, t: Table, x: Input, d: Decision): (Result, Table)
    requires d.Found? ==> d.row < |t|
  {
    if d.NoCandidate? then CreateNew(env, t, x)
    else match d.kind
      case Duplicate | Reinforce => MergeInto(env, t, x, d.row, d.confidence)
      case Contradiction => Contradicting(env, t, x, d.row)
      case Update => Superseding(env, t, x, d.row)
      case Unrelated | Ambiguous => CreateNew(env, t, x)
  }

  predicate Refused(env: Env, x: Input) { TrimSpace(x.content) == [] || Norm(x.content) == [] || env.rejects(x) }

  function Consolidated(env: Env, t: Table, x: Input, pick: nat): (Result, Table) {
    if Refused(env, x) then (Rejected, t)
    else if HasMatch(env, t, x) then MergeInto(env, t, x, Chosen(env, t, x, pick), 0.0)
    else Handled(env, t, x, FirstDecisive(env, t, x))
  }

  // ----- the service, changing the table in place

  class Service {
    var memories: Table

    constructor ()
      ensures memories == []
    {
      memories := [];
    }

    method Insert(row: Row) returns (ok: bool)
      modifies this
      ensures (ok, memories) == InsertRow(old(memories), row)
    {
      if Violates(memories, |memories|, row) { return false; }
      memories := memories + [row];
      ok := true;
    }

    method HandleMerge(env: Env, x: Input, i: nat, classified: real) returns (r: Result)
      requires i < |memories|
      modifies this
      ensures (r, memories) == MergeInto(env, old(memories), x, i, classified)
    {
      hide Stronger, Norm, ReinforcedConfidence, Violates;
      var newConf := ReinforcedConfidence(memories[i].confidence, x.source);
      if classified > 0.0 && classified > newConf { newConf := classified; }
      var newImp := memories[i].importance;
      if x.importance > newImp { newImp := x.importance; }
      var text := Stronger(memories[i].content, x.content);
      var row := memories[i].(content := text, hash := env.hash(Norm(text)), importance := newImp,
                              confidence := newConf, version := memories[i].version + 1);
      if Violates(memories, i, row) { return StatementFailed; }
      memories := memories[i := row];
      r := MergedInto;
    }

    method HandleUpdate(env: Env, x: Input, i: nat) returns (r: Result)
      requires i < |memories|
      modifies this
      ensures (r, memories) == Superseding(env, old(memories), x, i)
    {
      hide Stronger, Norm, MergeInto, Violates;
      memories := MarkSuperseded(memories, i, Dangling(0));
      var n := |memories|;
      var ok := Insert(NewRow(env, x, Active, Stronger(memories[i].content, x.content)));
      if !ok {
        r := HandleMerge(env, x, i, 0.0);
        return;
      }
      memories := memories[i := memories[i].(supersededBy := Some(Existing(n)))];
      r := Updated;
    }

    method HandleContradiction(env: Env, x: Input, i: nat) returns (r: Result)
      requires i < |memories|
      modifies this
      ensures (r, memories) == Contradicting(env, old(memories), x, i)
    {
      if StrongSource(x) && memories[i].confidence < 0.8 {
        r := HandleUpdate(env, x, i);
        return;
      }
      memories := memories[i := memories[i].(status := Conflict)];
      var ok := Insert(NewRow(env, x, Conflict, x.content));
      assert ok;
      r := Conflicting;
    }

    method CreateNewMemory(env: Env, x: Input) returns (r: Result)
      modifies this
      ensures (r, memories) == CreateNew(env, old(memories), x)
    {
      var ok := Insert(CreatedRow(env, x));
      r := if ok then Created else MergedInto;
    }

    method FindCandidates(env: Env, x: Input) returns (out: seq<nat>)
      ensures out == Candidates(env, memories, x)
    {
      hide Kept, Nearest, KeptOf;
      var rows := Nearest(env, Eligibility(env, memories, x), x);
      out := [];
      assert rows[0..] == rows;
      for i := 0 to |rows|
        invariant out + KeptOf(memories, x, rows[i..]) == Candidates(env, memories, x)
      {
        KeptOfSteps(memories, x, rows, i);
        if Kept(memories[rows[i]].content, x) { out := out + [rows[i]]; }
      }
      NothingKept(memories, x, rows[|rows|..]);
    }

    method Consolidate(env: Env, x: Input, pick: nat) returns (r: Result)
      modifies this
      ensures (r, memories) == Consolidated(env, old(memories), x, pick)
    {
      hide TrimSpace, Norm, Classify, MergeInto, Superseding, Contradicting, CreateNew, Chosen, FirstDecisive, Candidates, Kept,
        HasMatch, Sim;
      if TrimSpace(x.content) == [] || Norm(x.content) == [] || env.rejects(x) { return Rejected; }
      if HasMatch(env, memories, x) {
        r := HandleMerge(env, x, Chosen(env, memories, x, pick), 0.0);
        return;
      }
      var candidates := FindCandidates(env, x);
      CandidatesDecide(env, memories, x);
      for k := 0 to |candidates|
        invariant unchanged(this)
        invariant Decide(memories, x, candidates[k..]) == FirstDecisive(env, memories, x)
      {
        var c := Classify(memories[candidates[k]].content, x.content);
        assert candidates[k..][1..] == candidates[k + 1..];
        match c.0 {
          case Duplicate | Reinforce => r := HandleMerge(env, x, candidates[k], c.1); return;
          case Contradiction => r := HandleContradiction(env, x, candidates[k]); return;
          case Update => r := HandleUpdate(env, x, candidates[k]); return;
          case Unrelated | Ambiguous =>
        }
      }
      r := CreateNewMemory(env, x);
    }
  }
}
