/** The WebSocket hub with duplicate suppression, and several hubs connected through Redis. */
module FanOut {

  type EventId = nat    // 0 is the empty ID
  type Room = nat       // 0 is the empty room
  type ClientId = nat
  type HubId = nat

  datatype Event = Event(id: EventId, room: Room)

  const WINDOW: int := 300_000_000_000   // five minutes
  const EVICT_ABOVE: nat := 1000

  function Evicted(seen: map<EventId, int>, now: int): map<EventId, int> {
    if |seen| > EVICT_ABOVE then map k | k in seen && now - seen[k] <= WINDOW :: seen[k] else seen
  }

  predicate Duplicate(seen: map<EventId, int>, id: EventId) { id != 0 && id in seen }

  /** The `seen` map after asking about `id`. */
  function Marked(seen: map<EventId, int>, id: EventId, now: int): map<EventId, int> {
    if id == 0 || id in seen then seen else Evicted(seen[id := now], now)
  }

  /** Noting `id` makes the map so large that old entries are deleted. */
  predicate Sweeps(seen: map<EventId, int>, id: EventId, now: int) {
    id != 0 && id !in seen && |seen[id := now]| > EVICT_ABOVE
  }

  // ----- one hub

  /** One fan-out: the event and the clients it was offered to. */
  datatype Delivery = Delivery(event: Event, to: set<ClientId>)

  datatype Publication = Nothing | Publish(channel: Room, id: EventId)

  class Hub {
    var clients: set<ClientId>
    var rooms: map<Room, set<ClientId>>
    var seen: map<EventId, int>
    var deliveries: seq<Delivery>
    const redis: bool

    /** Every member of a room is a registered client, and no room is empty. */
    ghost predicate Valid()
      reads this
    {
      forall r :: r in rooms ==> rooms[r] != {} && rooms[r] <= clients
    }

    constructor (redis: bool)
      ensures Valid() && clients == {} && rooms == map[] && seen == map[] && deliveries == [] && this.redis == redis
    {
      clients, rooms, seen, deliveries := {}, map[], map[], [];
      this.redis := redis;
    }

    function Members(room: Room): set<ClientId>
      reads this
    {
      if room in rooms then rooms[room] else {}
    }

    method IsDuplicate(id: EventId, now: int) returns (dup: bool)
      modifies this`seen
      ensures dup <==> Duplicate(old(seen), id)
      ensures seen == Marked(old(seen), id, now)
      ensures dup <==> id != 0 && id in old(seen)
      ensures dup || id == 0 ==> seen == old(seen)
      ensures !dup && id != 0 ==>
        var noted := old(seen)[id := now];
        seen == if |noted| <= 1000 then noted else map k | k in noted && now - noted[k] <= 300_000_000_000 :: noted[k]
    {
      if id == 0 { return false; }
      if id in seen { return true; }
      seen := seen[id := now];
      if |seen| > EVICT_ABOVE {
        ghost var full := seen;
        var rest := seen.Keys;
        while rest != {}
          invariant rest <= full.Keys
          invariant seen == map k | k in full && (k in rest || now - full[k] <= WINDOW) :: full[k]
          decreases |rest|
        {
          var k :| k in rest;
          rest := rest - {k};
          if now - seen[k] > WINDOW { seen := seen - {k}; }
        }
      }
      dup := false;
    }

    method Register(c: ClientId, orgRoom: Room)
      requires Valid()
      modifies this
      ensures Valid() && seen == old(seen) && deliveries == old(deliveries)
      ensures clients == old(clients) + {c} && Members(orgRoom) == old(Members(orgRoom)) + {c}
      ensures forall r :: r != orgRoom ==> Members(r) == old(Members(r))
    {
      clients := clients + {c};
      JoinChannel(c, orgRoom);
    }

    method Unregister(c: ClientId)
      requires Valid()
      modifies this
      ensures Valid() && seen == old(seen) && deliveries == old(deliveries)
      ensures clients == old(clients) - {c} && forall r :: Members(r) == old(Members(r)) - {c}
    {
      clients := clients - {c};
      var was := rooms;
      rooms := map r | r in was && was[r] - {c} != {} :: was[r] - {c};
    }

    method JoinChannel(c: ClientId, room: Room)
      requires Valid() && c in clients
      modifies this`rooms
      ensures Valid() && Members(room) == old(Members(room)) + {c}
      ensures forall r :: r != room ==> Members(r) == old(Members(r))
    {
      if room !in rooms { rooms := rooms[room := {c}]; } else { rooms := rooms[room := rooms[room] + {c}]; }
    }

    method LeaveChannel(c: ClientId, room: Room)
      requires Valid()
      modifies this`rooms
      ensures Valid() && Members(room) == old(Members(room)) - {c}
      ensures forall r :: r != room ==> Members(r) == old(Members(r))
    {
      if room in rooms {
        var left := rooms[room] - {c};
        rooms := if left == {} then rooms - {room} else rooms[room := left];
      }
    }

    /** The broadcast case of Run: `newId` is what the UUID generator would return. */
    method HandleBroadcast(ev: Event, now: int, newId: EventId) returns (p: Publication)
      modifies this`seen, this`deliveries
      ensures seen == Marked(old(seen), ev.id, now)
      ensures var id := if ev.id == 0 then newId else ev.id;
        if Duplicate(old(seen), ev.id) then p == Nothing && deliveries == old(deliveries)
        else
          && p == (if redis && ev.room != 0 then Publish(ev.room, id) else Nothing)
          && deliveries == old(deliveries) + [Delivery(Event(id, ev.room), Members(ev.room))]
    {
      p := Nothing;
      var dup := IsDuplicate(ev.id, now);
      if dup { return; }
      var stamped := ev;
      if stamped.id == 0 { stamped := stamped.(id := newId); }
      if redis && stamped.room != 0 { p := Publish(stamped.room, stamped.id); }
      deliveries := deliveries + [Delivery(stamped, Members(stamped.room))];
    }

    /** What the Redis subscriber calls: the same, but nothing is ever published. */
    method BroadcastLocal(ev: Event, now: int, newId: EventId)
      modifies this`seen, this`deliveries
      ensures var id := if ev.id == 0 then newId else ev.id;
        && seen == Marked(old(seen), id, now)
        && deliveries == (if Duplicate(old(seen), id) then old(deliveries)
                          else old(deliveries) + [Delivery(Event(id, ev.room), Members(ev.room))])
    {
      var stamped := ev;
      if stamped.id == 0 { stamped := stamped.(id := newId); }
      var dup := IsDuplicate(stamped.id, now);
      if dup { return; }
      deliveries := deliveries + [Delivery(stamped, Members(stamped.room))];
    }
  }

  // ----- many hubs

  /**
   * A fan-out in the history of the whole system; `marked` if the ID was checked and noted in `seen`, `swept` if
   * that made the map so large that its old entries were deleted.
   */
  datatype Fan = Fan(hub: HubId, id: EventId, room: Room, at: int, marked: bool, fromQueue: bool, swept: bool)

  /** A message on its way: what is on the wire, with the fan-out that caused it. */
  datatype Message = Message(channel: Room, id: EventId, cause: Fan)

  datatype State = State(seen: map<HubId, map<EventId, int>>, queues: map<HubId, seq<Event>>, sending: seq<Message>,
                         published: seq<Message>, inboxes: map<HubId, seq<Message>>, log: seq<Fan>,
                         sent: set<Event>, clock: int)

  function Empty(hubs: set<HubId>): State {
    State(map h | h in hubs :: map[], map h | h in hubs :: [], [], [], map h | h in hubs :: [], [], {}, 0)
  }

  datatype Step =
    | Send(hub: HubId, ev: Event)                         // Broadcast: into the hub's channel
    | Loop(hub: HubId, now: int, newId: EventId)          // Run takes the next event from the channel
    | Transmit(k: nat, arrives: bool)                     // some publishing goroutine gets its turn
    | Receive(hub: HubId, now: int)                       // subscribe takes the next message

  predicate Enabled(s: State, step: Step) {
    match step
    case Send(h, _) => h in s.queues
    case Loop(h, now, newId) =>
      h in s.queues && s.queues[h] != [] && h in s.seen && now >= s.clock
      && newId != 0 && forall e :: e in s.sent ==> e.id != newId
    case Transmit(k, _) => k < |s.sending|
    case Receive(h, now) => h in s.inboxes && s.inboxes[h] != [] && h in s.seen && now >= s.clock
  }

  function Apply(s: State, step: Step): State
    requires Enabled(s, step)
  {
    match step
    case Send(h, ev) =>
      s.(queues := s.queues[h := s.queues[h] + [ev]], sent := if ev.id == 0 then s.sent else s.sent + {ev})
    case Loop(h, now, newId) =>
      var ev := s.queues[h][0];
      var popped := s.(queues := s.queues[h := s.queues[h][1..]], clock := now);
      if Duplicate(s.seen[h], ev.id) then popped
      else
        var id := if ev.id == 0 then newId else ev.id;
        var fan := Fan(h, id, ev.room, now, ev.id != 0, true, Sweeps(s.seen[h], ev.id, now));
        popped.(seen := s.seen[h := Marked(s.seen[h], ev.id, now)], log := s.log + [fan],
                sent := s.sent + {Event(id, ev.room)},
                sending := if ev.room != 0 then s.sending + [Message(ev.room, id, fan)] else s.sending)
    case Transmit(k, arrives) =>
      var m := s.sending[k];
      var taken := s.(sending := s.sending[..k] + s.sending[k + 1..], published := s.published + [m]);
      if arrives then taken.(inboxes := map h | h in s.inboxes :: s.inboxes[h] + [m]) else taken
    case Receive(h, now) =>
      var m := s.inboxes[h][0];
      var popped := s.(inboxes := s.inboxes[h := s.inboxes[h][1..]], clock := now);
      if Duplicate(s.seen[h], m.id) then popped
      else popped.(seen := s.seen[h := Marked(s.seen[h], m.id, now)],
                   log := s.log + [Fan(h, m.id, m.channel, now, true, false, Sweeps(s.seen[h], m.id, now))])
  }

  ghost predicate Runs(start: State, steps: seq<Step>, end: State)
    decreases |steps|
  {
    if steps == [] then start == end
    else Enabled(start, steps[0]) && Runs(Apply(start, steps[0]), steps[1..], end)
  }

  // ----- duplicates

  /** A noted fan-out is remembered for five minutes. */
  predicate Remembered(s: State, f: Fan) {
    f.hub in s.seen && f.at <= s.clock
    && (f.marked ==> (f.id in s.seen[f.hub] && f.at <= s.seen[f.hub][f.id]) || s.clock - f.at > WINDOW)
  }

  ghost predicate Suppressing(s: State) {
    && (forall i :: 0 <= i < |s.log| ==> s.log[i].id != 0 && Remembered(s, s.log[i]))
    && (forall i, j :: 0 <= i < j < |s.log| ==> FarApart(s.log[i], s.log[j]))
  }

  predicate FarApart(f: Fan, g: Fan) {
    f.hub == g.hub && f.id == g.id && f.marked && g.marked ==> g.at - f.at > WINDOW
  }

  /** Messages name the fan-out of their origin, and carry its ID and room. */
  predicate Caused(s: State, m: Message) {
    m.id != 0 && m.cause in s.log && m.cause.fromQueue && m.cause.id == m.id && m.cause.room == m.channel
  }

  ghost predicate AllCaused(s: State) {
    && (forall k :: 0 <= k < |s.sending| ==> Caused(s, s.sending[k]))
    && (forall h, k :: h in s.inboxes && 0 <= k < |s.inboxes[h]| ==> Caused(s, s.inboxes[h][k]))
  }

  lemma MarkedRemembers(seen: map<EventId, int>, id: EventId, now: int, k: EventId)
    requires !Duplicate(seen, id)
    ensures id != 0 ==> id in Marked(seen, id, now) && Marked(seen, id, now)[id] == now
    ensures k in seen && k !in Marked(seen, id, now) ==> now - seen[k] > WINDOW
    ensures k in seen && k in Marked(seen, id, now) ==> Marked(seen, id, now)[k] == seen[k]
  {
  }

  lemma FanOutKeepsSuppressing(s: State, u: State, fan: Fan)
    requires Suppressing(s) && fan.hub in s.seen && fan.at == u.clock >= s.clock && fan.id != 0
    requires u.log == s.log + [fan]
    requires fan.marked ==> !Duplicate(s.seen[fan.hub], fan.id)
    requires u.seen == s.seen[fan.hub := Marked(s.seen[fan.hub], if fan.marked then fan.id else 0, fan.at)]
    ensures Suppressing(u)
  {
    hide Marked;
    var id := if fan.marked then fan.id else 0;
    forall i | 0 <= i < |u.log| ensures u.log[i].id != 0 && Remembered(u, u.log[i]) {
      if i < |s.log| && s.log[i].hub == fan.hub { MarkedRemembers(s.seen[fan.hub], id, fan.at, s.log[i].id); }
      if i == |s.log| { MarkedRemembers(s.seen[fan.hub], id, fan.at, fan.id); }
    }
    forall i, j | 0 <= i < j < |u.log| ensures FarApart(u.log[i], u.log[j]) {
      if j == |s.log| { assert Remembered(s, s.log[i]); }
    }
  }

  lemma StepKeepsSuppressing(s: State, step: Step)
    requires Suppressing(s) && AllCaused(s) && Enabled(s, step)
    ensures Suppressing(Apply(s, step))
  {
    hide Marked;
    var u := Apply(s, step);
    match step {
      case Loop(h, now, newId) =>
        if |u.log| > |s.log| {
          FanOutKeepsSuppressing(s, u, u.log[|s.log|]);
        } else {
          LaterStillSuppressing(s, u);
        }
      case Receive(h, now) =>
        if |u.log| > |s.log| {
          FanOutKeepsSuppressing(s, u, u.log[|s.log|]);
        } else {
          LaterStillSuppressing(s, u);
        }
      case _ => LaterStillSuppressing(s, u);
    }
  }

  lemma LaterStillSuppressing(s: State, u: State)
    requires Suppressing(s) && u.log == s.log && u.seen == s.seen && u.clock >= s.clock
    ensures Suppressing(u)
  {
    forall i | 0 <= i < |u.log| ensures u.log[i].id != 0 && Remembered(u, u.log[i]) {
      assert Remembered(s, s.log[i]);
    }
  }

  lemma StepKeepsCauses(s: State, step: Step)
    requires AllCaused(s) && Suppressing(s) && Enabled(s, step)
    ensures AllCaused(Apply(s, step))
  {
    hide Marked, Suppressing;
    var u := Apply(s, step);
    assert forall m :: Caused(s, m) ==> Caused(u, m);
    forall h, k | h in u.inboxes && 0 <= k < |u.inboxes[h]| ensures Caused(u, u.inboxes[h][k]) {
      match step {
        case Receive(g, _) => if h == g { assert u.inboxes[h][k] == s.inboxes[h][k + 1]; }
        case Transmit(i, _) => if k == |s.inboxes[h]| { assert u.inboxes[h][k] == s.sending[i]; }
        case _ =>
      }
    }
  }

  lemma {:induction false} RunsKeepInvariant(start: State, steps: seq<Step>, end: State)
    requires Suppressing(start) && AllCaused(start) && Runs(start, steps, end)
    ensures Suppressing(end) && AllCaused(end)
    decreases |steps|
  {
    if steps != [] {
      hide Suppressing, AllCaused, Apply;
      StepKeepsSuppressing(start, steps[0]);
      StepKeepsCauses(start, steps[0]);
      RunsKeepInvariant(Apply(start, steps[0]), steps[1..], end);
    }
  }

  /**
   * Across all hubs and interleavings, two fan-outs of one event at one hub are more than five minutes
   * apart: within the window in which `seen` entries live, each hub fans an event out at most once.
   */
  lemma AtMostOncePerWindow(hubs: set<HubId>, steps: seq<Step>, s: State, i: nat, j: nat)
    requires Runs(Empty(hubs), steps, s) && i < j < |s.log|
    requires s.log[i].hub == s.log[j].hub && s.log[i].id == s.log[j].id && s.log[i].marked && s.log[j].marked
    ensures s.log[j].at - s.log[i].at > WINDOW
  {
    RunsKeepInvariant(Empty(hubs), steps, s);
    assert FarApart(s.log[i], s.log[j]);
  }

  /** A hub drops the echo of what it broadcast itself with an ID, if it arrives within five minutes. */
  lemma OwnEchoIsDropped(hubs: set<HubId>, steps: seq<Step>, s: State, h: HubId, now: int)
    requires Runs(Empty(hubs), steps, s) && Enabled(s, Receive(h, now))
    requires var m := s.inboxes[h][0]; m.cause.hub == h && m.cause.marked && now - m.cause.at <= WINDOW
    ensures Apply(s, Receive(h, now)).log == s.log
  {
    hide Runs;
    RunsKeepInvariant(Empty(hubs), steps, s);
    var m := s.inboxes[h][0];
    assert Caused(s, m);
    var i :| 0 <= i < |s.log| && s.log[i] == m.cause;
    assert Remembered(s, s.log[i]);
  }

  // ----- no loops through Redis

  function QueueFans(log: seq<Fan>): multiset<EventId> {
    if log == [] then multiset{}
    else QueueFans(log[..|log| - 1]) +
         (if log[|log| - 1].fromQueue && log[|log| - 1].room != 0 then multiset{log[|log| - 1].id} else multiset{})
  }

  function Ids(ms: seq<Message>): multiset<EventId> {
    if ms == [] then multiset{} else Ids(ms[..|ms| - 1]) + multiset{ms[|ms| - 1].id}
  }

  lemma {:induction false} IdsConcat(a: seq<Message>, b: seq<Message>)
    ensures Ids(a + b) == Ids(a) + Ids(b)
    decreases |b|
  {
    if b == [] {
      assert a + b == a;
    } else {
      assert (a + b)[..|a + b| - 1] == a + b[..|b| - 1];
      IdsConcat(a, b[..|b| - 1]);
    }
  }

  lemma IdsSingle(m: Message)
    ensures Ids([m]) == multiset{m.id}
  {
    assert [m][..0] == [];
  }

  /** Every publication belongs to one fan-out of an event a hub was given directly. */
  predicate PublishedOnce(s: State) { QueueFans(s.log) == Ids(s.sending) + Ids(s.published) }

  lemma QueueFansSnoc(log: seq<Fan>, f: Fan)
    ensures QueueFans(log + [f]) == QueueFans(log) + (if f.fromQueue && f.room != 0 then multiset{f.id} else multiset{})
  {
    assert (log + [f])[..|log|] == log;
  }

  lemma TransmitKeepsIds(sending: seq<Message>, published: seq<Message>, k: nat)
    requires k < |sending|
    ensures Ids(sending[..k] + sending[k + 1..]) + Ids(published + [sending[k]]) == Ids(sending) + Ids(published)
  {
    hide Ids;
    var m := sending[k];
    assert sending == sending[..k] + ([m] + sending[k + 1..]);
    IdsConcat(sending[..k], [m] + sending[k + 1..]);
    IdsConcat([m], sending[k + 1..]);
    IdsConcat(sending[..k], sending[k + 1..]);
    IdsConcat(published, [m]);
    IdsSingle(m);
  }

  lemma StepKeepsPublishedOnce(s: State, step: Step)
    requires PublishedOnce(s) && Enabled(s, step)
    ensures PublishedOnce(Apply(s, step))
  {
    hide Marked, QueueFans, Ids;
    var u := Apply(s, step);
    if |u.log| > |s.log| {
      QueueFansSnoc(s.log, u.log[|s.log|]);
    }
    match step {
      case Loop(h, now, newId) =>
        if |u.sending| > |s.sending| {
          IdsConcat(s.sending, [u.sending[|s.sending|]]);
          IdsSingle(u.sending[|s.sending|]);
        }
      case Transmit(k, arrives) => TransmitKeepsIds(s.sending, s.published, k);
      case _ =>
    }
  }

  /** Conservation: publications and fan-outs of locally broadcast events match one for one; receiving publishes nothing. */
  lemma {:induction false} PublishedExactlyOnce(start: State, steps: seq<Step>, s: State)
    requires PublishedOnce(start) && Runs(start, steps, s)
    ensures PublishedOnce(s)
    decreases |steps|
  {
    if steps != [] {
      StepKeepsPublishedOnce(start, steps[0]);
      PublishedExactlyOnce(Apply(start, steps[0]), steps[1..], s);
    }
  }

  // ----- rooms

  ghost predicate RoomsKept(s: State) {
    && (forall i :: 0 <= i < |s.log| ==> Event(s.log[i].id, s.log[i].room) in s.sent)
    && (forall k :: 0 <= k < |s.sending| ==> Event(s.sending[k].id, s.sending[k].channel) in s.sent)
    && (forall h, k :: h in s.inboxes && 0 <= k < |s.inboxes[h]| ==>
          Event(s.inboxes[h][k].id, s.inboxes[h][k].channel) in s.sent)
  }

  lemma StepKeepsRooms(s: State, step: Step)
    requires RoomsKept(s) && Enabled(s, step)
    ensures RoomsKept(Apply(s, step))
  {
    hide Marked;
    var u := Apply(s, step);
    forall h, k | h in u.inboxes && 0 <= k < |u.inboxes[h]|
      ensures Event(u.inboxes[h][k].id, u.inboxes[h][k].channel) in u.sent
    {
      match step {
        case Receive(g, _) => if h == g { assert u.inboxes[h][k] == s.inboxes[h][k + 1]; }
        case Transmit(i, _) => if k == |s.inboxes[h]| { assert u.inboxes[h][k] == s.sending[i]; }
        case _ =>
      }
    }
  }

  /** An event is only ever fanned out, at any hub, to a room it was broadcast to. */
  lemma {:induction false} RoomsAreKept(start: State, steps: seq<Step>, s: State)
    requires RoomsKept(start) && Runs(start, steps, s)
    ensures RoomsKept(s)
    decreases |steps|
  {
    if steps != [] {
      StepKeepsRooms(start, steps[0]);
      RoomsAreKept(Apply(start, steps[0]), steps[1..], s);
    }
  }

  // ----- what a hub knows

  /** At fan-out `g` its hub deleted what `f` had noted: the map was full and the entry older than five minutes. */
  predicate SweepsAway(f: Fan, g: Fan) { g.hub == f.hub && g.marked && g.swept && g.at - f.at > WINDOW }

  /** What fan-out `i` noted is still there. */
  ghost predicate Live(log: seq<Fan>, i: nat)
    requires i < |log|
  {
    log[i].marked && forall j :: i < j < |log| ==> !SweepsAway(log[i], log[j])
  }

  /** Some marked fan-out of the ID at the hub has not been swept away. */
  ghost predicate Known(log: seq<Fan>, h: HubId, id: EventId) {
    exists i :: 0 <= i < |log| && log[i].hub == h && log[i].id == id && Live(log, i)
  }

  /** The `seen` maps hold exactly what the history says. */
  ghost predicate SeenIsHistory(s: State) {
    && (forall i :: 0 <= i < |s.log| && Live(s.log, i) ==> Noted(s, s.log[i]))
    && (forall h, k :: h in s.seen && k in s.seen[h] ==> exists i :: StemsFrom(s, h, k, i))
  }

  predicate Noted(s: State, f: Fan) { f.hub in s.seen && f.id in s.seen[f.hub] && s.seen[f.hub][f.id] == f.at }

  lemma LiveAfter(log: seq<Fan>, fan: Fan, i: nat)
    requires i < |log|
    ensures Live(log + [fan], i) <==> Live(log, i) && !SweepsAway(log[i], fan)
  {
    var more := log + [fan];
    assert more[i] == log[i] && more[|log|] == fan;
    assert forall j :: i < j < |log| ==> more[j] == log[j];
  }

  /** `u` is `s` with one more fan-out, which noted its ID if it is marked. */
  predicate OneMore(s: State, u: State, fan: Fan) {
    && fan.hub in s.seen && u.log == s.log + [fan]
    && (fan.marked ==> fan.id != 0 && fan.id !in s.seen[fan.hub] && fan.swept == Sweeps(s.seen[fan.hub], fan.id, fan.at))
    && u.seen == s.seen[fan.hub := Marked(s.seen[fan.hub], if fan.marked then fan.id else 0, fan.at)]
  }

  /** What the new fan-out does to an entry of its hub's map. */
  lemma EntryAfter(s: State, u: State, fan: Fan, k: EventId)
    requires OneMore(s, u, fan) && !(fan.marked && k == fan.id)
    ensures var was, now := s.seen[fan.hub], u.seen[fan.hub];
      && (k in now <==> k in was && !(fan.marked && fan.swept && fan.at - was[k] > WINDOW))
      && (k in now ==> now[k] == was[k])
  {
  }

  lemma NewEntry(s: State, u: State, fan: Fan)
    requires OneMore(s, u, fan) && fan.marked
    ensures fan.id in u.seen[fan.hub] && u.seen[fan.hub][fan.id] == fan.at
  {
  }

  lemma LiveStaysNoted(s: State, u: State, fan: Fan, i: nat)
    requires SeenIsHistory(s) && OneMore(s, u, fan) && i < |u.log| && Live(u.log, i)
    ensures Noted(u, u.log[i])
  {
    hide OneMore, SeenIsHistory;
    OneMoreKnown(s, u, fan);
    if i == |s.log| {
      NewEntry(s, u, fan);
    } else {
      LiveAfter(s.log, fan, i);
      LiveIsNoted(s, i);
      if s.log[i].hub == fan.hub { EntryAfter(s, u, fan, s.log[i].id); }
    }
  }

  lemma LiveIsNoted(s: State, i: nat)
    requires SeenIsHistory(s) && i < |s.log| && Live(s.log, i)
    ensures Noted(s, s.log[i])
  {
  }

  lemma OneMoreKnown(s: State, u: State, fan: Fan)
    requires OneMore(s, u, fan)
    ensures fan.hub in s.seen && u.log == s.log + [fan] && fan.hub in u.seen
    ensures fan.marked ==> fan.id !in s.seen[fan.hub]
    ensures forall h :: h in u.seen && h != fan.hub ==> h in s.seen && u.seen[h] == s.seen[h]
    ensures forall h :: h in s.seen ==> h in u.seen && (h != fan.hub ==> u.seen[h] == s.seen[h])
  {
  }

  /** The entry `k` of hub `h` stems from live fan-out `i`. */
  ghost predicate StemsFrom(s: State, h: HubId, k: EventId, i: nat)
    requires h in s.seen && k in s.seen[h]
  {
    i < |s.log| && Live(s.log, i) && s.log[i].hub == h && s.log[i].id == k && s.log[i].at == s.seen[h][k]
  }

  lemma EntryStems(s: State, u: State, fan: Fan, h: HubId, k: EventId) returns (i: nat)
    requires SeenIsHistory(s) && OneMore(s, u, fan) && h in u.seen && k in u.seen[h]
    ensures StemsFrom(u, h, k, i)
  {
    hide OneMore;
    OneMoreKnown(s, u, fan);
    if h == fan.hub && fan.marked && k == fan.id {
      NewEntry(s, u, fan);
      i := |s.log|;
    } else {
      if h == fan.hub { EntryAfter(s, u, fan, k); }
      i :| StemsFrom(s, h, k, i);
      hide SeenIsHistory;
      LiveAfter(s.log, fan, i);
    }
  }

  lemma FanOutKeepsHistory(s: State, u: State, fan: Fan)
    requires SeenIsHistory(s) && OneMore(s, u, fan)
    ensures SeenIsHistory(u)
  {
    hide OneMore, Live, StemsFrom, Noted;
    forall i | 0 <= i < |u.log| && Live(u.log, i) ensures Noted(u, u.log[i]) { LiveStaysNoted(s, u, fan, i); }
    forall h, k | h in u.seen && k in u.seen[h] ensures exists i :: StemsFrom(u, h, k, i) {
      var i := EntryStems(s, u, fan, h, k);
    }
  }

  lemma StepKeepsHistory(s: State, step: Step)
    requires SeenIsHistory(s) && AllCaused(s) && Enabled(s, step)
    ensures SeenIsHistory(Apply(s, step))
  {
    hide Marked, Sweeps, Live;
    var u := Apply(s, step);
    if |u.log| > |s.log| { FanOutKeepsHistory(s, u, u.log[|s.log|]); } else { UnchangedHistory(s, u); }
  }

  lemma UnchangedHistory(s: State, u: State)
    requires SeenIsHistory(s) && u.log == s.log && u.seen == s.seen
    ensures SeenIsHistory(u)
  {
    hide Live;
    forall i | 0 <= i < |u.log| && Live(u.log, i) ensures Noted(u, u.log[i]) { assert Noted(s, s.log[i]); }
    forall h, k | h in u.seen && k in u.seen[h] ensures exists i :: StemsFrom(u, h, k, i) {
      var i :| StemsFrom(s, h, k, i);
      assert StemsFrom(u, h, k, i);
    }
  }

  lemma {:induction false} RunsKeepHistory(start: State, steps: seq<Step>, end: State)
    requires Suppressing(start) && AllCaused(start) && SeenIsHistory(start) && Runs(start, steps, end)
    ensures SeenIsHistory(end)
    decreases |steps|
  {
    if steps != [] {
      hide Suppressing, AllCaused, SeenIsHistory, Apply;
      StepKeepsSuppressing(start, steps[0]);
      StepKeepsCauses(start, steps[0]);
      StepKeepsHistory(start, steps[0]);
      RunsKeepHistory(Apply(start, steps[0]), steps[1..], end);
    }
  }

  /**
   * Over every run: a hub fans out the event it takes from its channel or from Redis exactly when it does not know
   * the ID, that is, when every marked fan-out of it there so far has been swept away by a later one, more than five
   * minutes younger. The empty ID is never known.
   */
  lemma FannedOutIff(hubs: set<HubId>, steps: seq<Step>, s: State, step: Step)
    requires Runs(Empty(hubs), steps, s) && Enabled(s, step) && (step.Loop? || step.Receive?)
    ensures var id := if step.Loop? then s.queues[step.hub][0].id else s.inboxes[step.hub][0].id;
      |Apply(s, step).log| > |s.log| <==> !Known(s.log, step.hub, id)
  {
    hide Runs, Known, Marked, Sweeps;
    RunsKeepInvariant(Empty(hubs), steps, s);
    RunsKeepHistory(Empty(hubs), steps, s);
    SeenIsKnown(s, step.hub, if step.Loop? then s.queues[step.hub][0].id else s.inboxes[step.hub][0].id);
  }

  lemma SeenIsKnown(s: State, h: HubId, id: EventId)
    requires SeenIsHistory(s) && Suppressing(s) && h in s.seen
    ensures Known(s.log, h, id) <==> id != 0 && id in s.seen[h]
  {
    hide Live;
    if Known(s.log, h, id) {
      var i :| 0 <= i < |s.log| && s.log[i].hub == h && s.log[i].id == id && Live(s.log, i);
      assert Noted(s, s.log[i]);
    }
    if id in s.seen[h] {
      var i :| StemsFrom(s, h, id, i);
    }
  }

  /**
   * When a hub's own message comes back: the echo of an event without an ID is fanned out unless the ID it was given
   * has been fanned out there marked in the meantime, as by an earlier echo; the echo of an event with an ID only
   * after the entry was swept away.
   */
  lemma EchoIsFannedOutIff(hubs: set<HubId>, steps: seq<Step>, s: State, h: HubId, now: int)
    requires Runs(Empty(hubs), steps, s) && Enabled(s, Receive(h, now)) && s.inboxes[h][0].cause.hub == h
    ensures var m, fanned := s.inboxes[h][0], |Apply(s, Receive(h, now)).log| > |s.log|;
      && (fanned <==> !Known(s.log, h, m.id))
      && (!m.cause.marked && (forall f :: f in s.log && f.hub == h && f.id == m.id ==> !f.marked) ==> fanned)
      && (fanned && m.cause.marked ==> exists g :: g in s.log && SweepsAway(m.cause, g))
  {
    hide Runs;
    FannedOutIff(hubs, steps, s, Receive(h, now));
    RunsKeepInvariant(Empty(hubs), steps, s);
    var m := s.inboxes[h][0];
    assert Caused(s, m);
    if !Known(s.log, h, m.id) && m.cause.marked {
      var i :| 0 <= i < |s.log| && s.log[i] == m.cause;
      assert !Live(s.log, i);
      var j :| i < j < |s.log| && SweepsAway(s.log[i], s.log[j]);
      assert s.log[j] in s.log;
    }
  }

  // ----- order

  /** Redis loses nothing: whatever is published arrives. */
  predicate AllArrive(steps: seq<Step>) { forall k :: 0 <= k < |steps| && steps[k].Transmit? ==> steps[k].arrives }

  /** What hub `h` was given, in order, and how often it took an event from its channel or a message from Redis. */
  function SentTo(steps: seq<Step>, h: HubId): seq<Event> {
    if steps == [] then []
    else (if steps[0].Send? && steps[0].hub == h then [steps[0].ev] else []) + SentTo(steps[1..], h)
  }

  function LoopsAt(steps: seq<Step>, h: HubId): nat {
    if steps == [] then 0 else (if steps[0].Loop? && steps[0].hub == h then 1 else 0) + LoopsAt(steps[1..], h)
  }

  function ReceivesAt(steps: seq<Step>, h: HubId): nat {
    if steps == [] then 0 else (if steps[0].Receive? && steps[0].hub == h then 1 else 0) + ReceivesAt(steps[1..], h)
  }

  lemma StepOnChannels(s: State, step: Step, h: HubId)
    requires Enabled(s, step) && h in s.queues && h in s.inboxes
    ensures var u := Apply(s, step);
      && h in u.queues && h in u.inboxes && s.published <= u.published
      && u.queues[h] == (if step.Send? && step.hub == h then s.queues[h] + [step.ev]
                         else if step.Loop? && step.hub == h then s.queues[h][1..] else s.queues[h])
      && (step.Loop? && step.hub == h ==> s.queues[h] != [])
      && (step.Transmit? && step.arrives ==>
            u.published == s.published + [s.sending[step.k]] && u.inboxes[h] == s.inboxes[h] + [s.sending[step.k]])
      && (!step.Transmit? ==>
            (u.published == s.published
             && u.inboxes[h] == if step.Receive? && step.hub == h then s.inboxes[h][1..] else s.inboxes[h]))
      && (step.Receive? && step.hub == h ==> s.inboxes[h] != [])
  {
    hide Marked, Sweeps, Duplicate;
  }

  lemma DropTwice<T>(given: seq<T>, n: nat)
    requires n < |given|
    ensures given[1..][n..] == given[n + 1..]
  {
  }

  lemma {:induction false} QueuesAreFifo(start: State, steps: seq<Step>, end: State, h: HubId)
    requires Runs(start, steps, end) && h in start.queues && h in start.inboxes
    ensures h in end.queues && h in end.inboxes && LoopsAt(steps, h) <= |start.queues[h] + SentTo(steps, h)|
    ensures end.queues[h] == (start.queues[h] + SentTo(steps, h))[LoopsAt(steps, h)..]
    decreases |steps|
  {
    hide Apply, Enabled;
    if steps != [] {
      var next := Apply(start, steps[0]);
      StepOnChannels(start, steps[0], h);
      QueuesAreFifo(next, steps[1..], end, h);
      var given, later := start.queues[h] + SentTo(steps, h), next.queues[h] + SentTo(steps[1..], h);
      if steps[0].Loop? && steps[0].hub == h {
        assert later == given[1..];
        DropTwice(given, LoopsAt(steps[1..], h));
      } else {
        assert later == given;
      }
    }
  }

  lemma {:induction false} InboxesAreFifo(start: State, steps: seq<Step>, end: State, h: HubId)
    requires Runs(start, steps, end) && AllArrive(steps) && h in start.inboxes && h in start.queues
    ensures h in end.inboxes && start.published <= end.published
    ensures var given := start.inboxes[h] + end.published[|start.published|..];
      ReceivesAt(steps, h) <= |given| && end.inboxes[h] == given[ReceivesAt(steps, h)..]
    decreases |steps|
  {
    hide Apply, Enabled;
    if steps == [] {
      assert end.published[|start.published|..] == [];
    } else {
      var next := Apply(start, steps[0]);
      StepOnChannels(start, steps[0], h);
      InboxesAreFifo(next, steps[1..], end, h);
      var given, later := start.inboxes[h] + end.published[|start.published|..], next.inboxes[h] + end.published[|next.published|..];
      if steps[0].Receive? && steps[0].hub == h {
        assert later == given[1..];
        DropTwice(given, ReceivesAt(steps[1..], h));
      } else {
        assert later == given;
      }
    }
  }

  /**
   * First in, first out: a hub handles the events it is given in their order, each once, and if Redis loses nothing it
   * takes all published messages in the order of their publication, each once.
   */
  lemma ChannelsKeepOrder(hubs: set<HubId>, steps: seq<Step>, s: State, h: HubId)
    requires Runs(Empty(hubs), steps, s) && h in hubs
    ensures h in s.queues && h in s.inboxes
    ensures LoopsAt(steps, h) <= |SentTo(steps, h)| && s.queues[h] == SentTo(steps, h)[LoopsAt(steps, h)..]
    ensures AllArrive(steps) ==>
      ReceivesAt(steps, h) <= |s.published| && s.inboxes[h] == s.published[ReceivesAt(steps, h)..]
  {
    QueuesAreFifo(Empty(hubs), steps, s, h);
    assert [] + SentTo(steps, h) == SentTo(steps, h);
    if AllArrive(steps) {
      InboxesAreFifo(Empty(hubs), steps, s, h);
      assert [] + s.published[0..] == s.published;
    }
  }

  // ----- every hub is reached

  /** Hub `h` has fanned the ID out and noted it. */
  ghost predicate Reached(s: State, h: HubId, id: EventId) {
    exists i :: 0 <= i < |s.log| && s.log[i].hub == h && s.log[i].id == id && s.log[i].marked
  }

  /** A published message is still in the hub's inbox, or the hub has fanned its ID out. */
  ghost predicate OnItsWay(s: State, h: HubId, m: Message)
    requires h in s.inboxes
  {
    m in s.inboxes[h] || Reached(s, h, m.id)
  }

  ghost predicate AllOnTheirWay(s: State) {
    forall h, k :: h in s.inboxes && 0 <= k < |s.published| ==> OnItsWay(s, h, s.published[k])
  }

  lemma StillReached(s: State, u: State, h: HubId, id: EventId)
    requires Reached(s, h, id) && s.log <= u.log
    ensures Reached(u, h, id)
  {
    var i :| 0 <= i < |s.log| && s.log[i].hub == h && s.log[i].id == id && s.log[i].marked;
    assert u.log[i] == s.log[i];
  }

  /** Taking a message either fans its ID out, or finds that this was done. */
  lemma ReceivingReaches(s: State, h: HubId, now: int)
    requires SeenIsHistory(s) && AllCaused(s) && Enabled(s, Receive(h, now))
    ensures Reached(Apply(s, Receive(h, now)), h, s.inboxes[h][0].id)
  {
    hide Marked, Sweeps;
    var m, u := s.inboxes[h][0], Apply(s, Receive(h, now));
    assert Caused(s, m);
    if Duplicate(s.seen[h], m.id) {
      var i: nat :| StemsFrom(s, h, m.id, i);
      assert u.log[i].marked;
    } else {
      assert u.log[|s.log|].marked;
    }
  }

  lemma StepKeepsOnTheirWay(s: State, step: Step)
    requires AllOnTheirWay(s) && SeenIsHistory(s) && AllCaused(s) && Enabled(s, step) && (step.Transmit? ==> step.arrives)
    ensures AllOnTheirWay(Apply(s, step)) && Apply(s, step).inboxes.Keys == s.inboxes.Keys
  {
    hide Marked, Sweeps, Reached, SeenIsHistory, AllCaused, Duplicate;
    var u := Apply(s, step);
    assert s.log <= u.log;
    forall h, k | h in u.inboxes && 0 <= k < |u.published| ensures OnItsWay(u, h, u.published[k]) {
      var m := u.published[k];
      if k == |s.published| {
        assert u.inboxes[h] == s.inboxes[h] + [m];
      } else {
        assert OnItsWay(s, h, m);
        if Reached(s, h, m.id) {
          StillReached(s, u, h, m.id);
        } else if step.Receive? && step.hub == h {
          assert s.inboxes[h] == [s.inboxes[h][0]] + u.inboxes[h];
          if m == s.inboxes[h][0] { ReceivingReaches(s, h, step.now); }
        } else if step.Transmit? {
          assert u.inboxes[h] == s.inboxes[h] + [s.sending[step.k]];
        }
      }
    }
  }

  lemma {:induction false} RunsKeepOnTheirWay(start: State, steps: seq<Step>, end: State)
    requires Suppressing(start) && AllCaused(start) && SeenIsHistory(start) && AllOnTheirWay(start)
    requires Runs(start, steps, end) && AllArrive(steps)
    ensures AllOnTheirWay(end) && end.inboxes.Keys == start.inboxes.Keys
    decreases |steps|
  {
    if steps != [] {
      hide Suppressing, AllCaused, SeenIsHistory, AllOnTheirWay, Apply;
      StepKeepsSuppressing(start, steps[0]);
      StepKeepsCauses(start, steps[0]);
      StepKeepsHistory(start, steps[0]);
      StepKeepsOnTheirWay(start, steps[0]);
      RunsKeepOnTheirWay(Apply(start, steps[0]), steps[1..], end);
    }
  }

  /**
   * If Redis loses nothing, then over every run and at every hub, the publisher's own included: a published message
   * waits in the hub's inbox, or the hub has fanned its ID out; to the message's room, if that is the only room the
   * ID was broadcast to.
   */
  lemma EveryHubIsReached(hubs: set<HubId>, steps: seq<Step>, s: State, h: HubId, m: Message)
    requires Runs(Empty(hubs), steps, s) && AllArrive(steps) && h in hubs && m in s.published
    ensures s.inboxes.Keys == hubs
    ensures m in s.inboxes[h]
      || exists f :: (f in s.log && f.hub == h && f.id == m.id && f.marked
                      && ((forall e :: e in s.sent && e.id == m.id ==> e.room == m.channel) ==> f.room == m.channel))
  {
    hide Runs;
    RunsKeepOnTheirWay(Empty(hubs), steps, s);
    RoomsAreKept(Empty(hubs), steps, s);
    assert h in s.inboxes.Keys;
    var k: nat :| 0 <= k < |s.published| && s.published[k] == m;
    assert OnItsWay(s, h, s.published[k]);
    if m !in s.inboxes[h] {
      var i :| 0 <= i < |s.log| && s.log[i].hub == h && s.log[i].id == m.id && s.log[i].marked;
      assert s.log[i] in s.log && Event(s.log[i].id, s.log[i].room) in s.sent;
    }
  }

  lemma {:induction false} QueueFanCounts(log: seq<Fan>, f: Fan)
    requires f in log && f.fromQueue && f.room != 0
    ensures f.id in QueueFans(log)
  {
    var last := log[|log| - 1];
    if last != f {
      assert log == log[..|log| - 1] + [last];
      QueueFanCounts(log[..|log| - 1], f);
    }
  }

  lemma {:induction false} CountedId(ms: seq<Message>, id: EventId) returns (m: Message)
    requires id in Ids(ms)
    ensures m in ms && m.id == id
  {
    m := ms[|ms| - 1];
    if m.id != id { m := CountedId(ms[..|ms| - 1], id); }
  }

  /** Once nothing is on its way, every event that some hub was given for a room has been fanned out at all hubs. */
  lemma QuietMeansDelivered(hubs: set<HubId>, steps: seq<Step>, s: State, f: Fan, h: HubId)
    requires Runs(Empty(hubs), steps, s) && AllArrive(steps) && h in hubs
    requires s.sending == [] && forall g :: g in s.inboxes ==> s.inboxes[g] == []
    requires f in s.log && f.fromQueue && f.room != 0
    ensures Reached(s, h, f.id)
  {
    assert PublishedOnce(Empty(hubs));
    assert Ids([]) == multiset{};
    hide Runs, QueueFans, Ids;
    PublishedExactlyOnce(Empty(hubs), steps, s);
    QueueFanCounts(s.log, f);
    var m := CountedId(s.published, f.id);
    EveryHubIsReached(hubs, steps, s, h, m);
  }

  /** One hub broadcasts one event, publishes it and receives its own message. */
  function EchoRun(ev: Event, at: int, echoAt: int, newId: EventId): seq<Step> {
    [Send(0, ev), Loop(0, at, newId), Transmit(0, true), Receive(0, echoAt)]
  }

  /** In this run the hub fans its own event out a second time exactly when the event came without an ID. */
  lemma EchoOfOneEvent(ev: Event, at: int, echoAt: int, newId: EventId) returns (s: State)
    requires ev.room != 0 && 0 <= at <= echoAt && newId != 0 && newId != ev.id
    ensures Runs(Empty({0}), EchoRun(ev, at, echoAt, newId), s)
    ensures |s.log| == (if ev.id == 0 then 2 else 1)
    ensures ev.id == 0 ==> s.log[0].hub == s.log[1].hub && s.log[0].id == s.log[1].id && s.log[0].room == s.log[1].room
  {
    var run := EchoRun(ev, at, echoAt, newId);
    var s0 := Empty({0});
    var s1 := Apply(s0, run[0]);
    var s2 := Apply(s1, run[1]);
    var s3 := Apply(s2, run[2]);
    s := Apply(s3, run[3]);
    assert run[1..][1..] == run[2..] && run[1..][1..][1..] == run[3..] && run[1..][1..][1..][1..] == [];
    assert Runs(s, run[1..][1..][1..][1..], s);
    assert Runs(s3, run[3..], s);
    assert Runs(s2, run[2..], s);
    assert Runs(s1, run[1..], s);
  }

  // ----- the loops of one hub as steps of the whole

  /** What a hub did in a step from `s` to `u`: its map, what it offered to clients, what it publishes. */
  ghost predicate Matches(hub: Hub, h: HubId, s: State, u: State, before: seq<Delivery>, p: Publication)
    reads hub
  {
    && h in u.seen && hub.seen == u.seen[h]
    && (if |u.log| == |s.log| then u.log == s.log && hub.deliveries == before && p == Nothing && u.sending == s.sending
        else
          && |u.log| == |s.log| + 1 && s.log <= u.log
          && var f := u.log[|s.log|];
             && hub.deliveries == before + [Delivery(Event(f.id, f.room), hub.Members(f.room))]
             && u.sending == s.sending + if p.Publish? then [Message(p.channel, p.id, f)] else [])
  }

  /** Run takes the next event from the channel: the step Loop. */
  method TakeBroadcast(hub: Hub, ghost s: State, h: HubId, ev: Event, now: int, newId: EventId) returns (p: Publication)
    requires Enabled(s, Loop(h, now, newId)) && ev == s.queues[h][0] && hub.redis && hub.seen == s.seen[h]
    modifies hub`seen, hub`deliveries
    ensures Matches(hub, h, s, Apply(s, Loop(h, now, newId)), old(hub.deliveries), p)
  {
    hide Evicted, Sweeps;
    p := hub.HandleBroadcast(ev, now, newId);
  }

  /** The subscriber takes the next message: its event comes without a room, which is the channel's. The step Receive. */
  method TakeMessage(hub: Hub, ghost s: State, h: HubId, id: EventId, channel: Room, now: int, newId: EventId)
    requires Enabled(s, Receive(h, now)) && AllCaused(s) && hub.seen == s.seen[h]
    requires s.inboxes[h][0].id == id && s.inboxes[h][0].channel == channel
    modifies hub`seen, hub`deliveries
    ensures Matches(hub, h, s, Apply(s, Receive(h, now)), old(hub.deliveries), Nothing)
  {
    hide Evicted, Sweeps;
    assert Caused(s, s.inboxes[h][0]);
    var ev := Event(id, 0);
    if ev.room == 0 { ev := ev.(room := channel); }
    hub.BroadcastLocal(ev, now, newId);
  }
}
