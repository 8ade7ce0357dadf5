/** Commits and reveals arriving on any number of server threads, with the queue put after the lock is released. */
module MailboxRuns {
  import opened Board
  import opened Audit
  import opened Mailbox

  /** A message let through by the lock, with the commitment it was checked against. */
  datatype Delivery = Delivery(message: Message, against: Option<Message>)

  /** The boxes, the reveals between lock and queue, the queue the runtime drains, and every put so far. */
  datatype World = World(boxes: Boxes, inFlight: seq<Delivery>, turns: seq<Message>, log: seq<Delivery>)

  datatype Event = Commit(message: Message) | Lock(message: Message, now: real) | Put(thread: nat) | Take

  predicate Possible(w: World, e: Event) {
    (e.Put? ==> e.thread < |w.inFlight|) && (e.Take? ==> w.turns != [])
  }

  function Pending(b: Boxes, id: string): Option<Message> {
    if id in b.pending then Some(b.pending[id]) else None
  }

  function Next(w: World, e: Event): World
    requires Possible(w, e)
  {
    match e
    case Commit(m) => w.(boxes := Committed(w.boxes, m).0)
    case Lock(m, now) =>
      var (boxes, ack) := Unlocked(w.boxes, m, now);
      if ack == Revealed then w.(boxes := boxes, inFlight := w.inFlight + [Delivery(m, Pending(w.boxes, m.id))])
      else w.(boxes := boxes)
    case Put(k) =>
      var d := w.inFlight[k];
      w.(inFlight := w.inFlight[..k] + w.inFlight[k + 1..], turns := w.turns + [d.message], log := w.log + [d])
    case Take => w.(turns := w.turns[1..])
  }

  const EMPTY: World := World(Boxes(map[], {}), [], [], [])

  ghost predicate IsRun(worlds: seq<World>, events: seq<Event>) {
    |worlds| == |events| + 1 && worlds[0] == EMPTY &&
    forall i :: 0 <= i < |events| ==> Possible(worlds[i], events[i]) && worlds[i + 1] == Next(worlds[i], events[i])
  }

  lemma RunPrefix(worlds: seq<World>, events: seq<Event>)
    requires IsRun(worlds, events) && events != []
    ensures IsRun(worlds[..|events|], events[..|events| - 1])
  {
    hide Next;
  }

  // ----- exactly once -----

  function Count(ds: seq<Delivery>, id: string): nat {
    if ds == [] then 0 else Count(ds[..|ds| - 1], id) + if ds[|ds| - 1].message.id == id then 1 else 0
  }

  lemma {:induction false} CountConcat(a: seq<Delivery>, b: seq<Delivery>, id: string)
    ensures Count(a + b, id) == Count(a, id) + Count(b, id)
  {
    if b == [] {
      assert a + b == a;
    } else {
      assert (a + b)[..|a + b| - 1] == a + b[..|b| - 1];
      CountConcat(a, b[..|b| - 1], id);
    }
  }

  lemma CountOne(d: Delivery, id: string)
    ensures Count([d], id) == if d.message.id == id then 1 else 0
  {
    assert [d][..0] == [];
  }

  lemma CountRemoved(ds: seq<Delivery>, k: nat, id: string)
    requires k < |ds|
    ensures Count(ds[..k] + ds[k + 1..], id) + Count([ds[k]], id) == Count(ds, id)
  {
    assert ds == ds[..k] + [ds[k]] + ds[k + 1..];
    CountConcat(ds[..k], [ds[k]], id);
    CountConcat(ds[..k] + [ds[k]], ds[k + 1..], id);
    CountConcat(ds[..k], ds[k + 1..], id);
  }

  /** An id is marked delivered exactly when one reveal of it is on its way to the queue or was put there. */
  ghost predicate OnceEach(w: World) {
    forall id :: id != "" ==> Count(w.inFlight, id) + Count(w.log, id) == (if id in w.boxes.delivered then 1 else 0)
  }

  ghost predicate AllMatch(ds: seq<Delivery>) {
    forall i :: 0 <= i < |ds| && ds[i].against.Some? ==> Matches(ds[i].against.value, ds[i].message)
  }

  ghost predicate Taken(w: World) {
    |w.turns| <= |w.log| && forall i :: 0 <= i < |w.turns| ==> w.turns[i] == w.log[|w.log| - |w.turns| + i].message
  }

  ghost predicate Kept(w: World) {
    OnceEach(w) && AllMatch(w.inFlight) && AllMatch(w.log) && Taken(w) &&
    forall id :: id in w.boxes.pending ==> id != "" && w.boxes.pending[id].id == id
  }

  lemma NextOnce(w: World, e: Event, id: string)
    requires Possible(w, e) && id != ""
    requires Count(w.inFlight, id) + Count(w.log, id) == if id in w.boxes.delivered then 1 else 0
    ensures var after := Next(w, e);
            Count(after.inFlight, id) + Count(after.log, id) == if id in after.boxes.delivered then 1 else 0
  {
    hide Count, Matches, Expired;
    match e {
      case Lock(m, now) =>
        var d := Delivery(m, Pending(w.boxes, m.id));
        CountConcat(w.inFlight, [d], id);
        CountOne(d, id);
      case Put(k) =>
        CountRemoved(w.inFlight, k, id);
        CountConcat(w.log, [w.inFlight[k]], id);
      case Commit(m) =>
      case Take =>
    }
  }

  lemma NextKeeps(w: World, e: Event)
    requires Possible(w, e) && Kept(w)
    ensures Kept(Next(w, e))
  {
    hide Count, Matches, Expired, OnceEach;
    var after := Next(w, e);
    assert OnceEach(after) by {
      NextKeepsOnce(w, e);
    }
  }

  lemma NextKeepsOnce(w: World, e: Event)
    requires Possible(w, e) && OnceEach(w)
    ensures OnceEach(Next(w, e))
  {
    hide Count, Next;
    forall id | id != ""
      ensures Count(Next(w, e).inFlight, id) + Count(Next(w, e).log, id)
           == if id in Next(w, e).boxes.delivered then 1 else 0
    {
      NextOnce(w, e, id);
    }
  }

  /**
   * Over every interleaving each non-empty id reaches the queue at most once, no accepted reveal is lost, and a
   * reveal checked against a commitment carries its hash and recorded envelope.
   */
  lemma {:induction false} EveryRunDeliversOnce(worlds: seq<World>, events: seq<Event>)
    requires IsRun(worlds, events)
    ensures Kept(worlds[|events|]) && forall id :: id != "" ==> Count(worlds[|events|].log, id) <= 1
    decreases |events|
  {
    hide Next, OnceEach, AllMatch, Taken;
    if events == [] {
      assert Kept(EMPTY) by { EmptyKept(); }
    } else {
      RunPrefix(worlds, events);
      EveryRunDeliversOnce(worlds[..|events|], events[..|events| - 1]);
      NextKeeps(worlds[|events| - 1], events[|events| - 1]);
    }
    AtMostOnce(worlds[|events|]);
  }

  lemma AtMostOnce(w: World)
    requires OnceEach(w)
    ensures forall id :: id != "" ==> Count(w.log, id) <= 1
  {
    hide Count;
  }

  lemma EmptyKept()
    ensures Kept(EMPTY)
  {
  }

  // ----- an acknowledged hash binds -----

  predicate LetThrough(w: World, e: Event, id: string) {
    e.Lock? && e.message.id == id && Unlocked(w.boxes, e.message, e.now).1 == Revealed
  }

  /** A reveal that matches the acknowledged commitment but comes too late: rejected, yet the commitment is spent. */
  predicate SpentLate(w: World, e: Event, id: string) {
    e.Lock? && e.message.id == id && id !in w.boxes.delivered && id in w.boxes.pending &&
    Matches(w.boxes.pending[id], e.message) && Expired(e.message, e.now)
  }

  /** A pending commitment ends only by a matching reveal, let through or late; until then its hash stands. */
  lemma PendingEndsIff(w: World, e: Event, id: string)
    requires Possible(w, e) && id in w.boxes.pending && id != ""
    ensures var after := Next(w, e).boxes;
            (id !in after.pending <==> LetThrough(w, e, id) || SpentLate(w, e, id)) &&
            (id in after.pending ==> after.pending[id].Field("commit") == w.boxes.pending[id].Field("commit"))
  {
    hide Matches, Expired;
  }

  /**
   * Once a commitment is acknowledged, the first reveal of its id that is let through carries that hash, however
   * many commits and reveals come between, unless a matching reveal came late in between.
   */
  lemma {:induction false} AcknowledgedHashBinds(worlds: seq<World>, events: seq<Event>, acknowledged: nat,
                                                 revealed: nat)
    requires IsRun(worlds, events) && acknowledged < revealed < |events|
    requires events[acknowledged].Commit? &&
             Committed(worlds[acknowledged].boxes, events[acknowledged].message).1 == Acknowledged
    requires var id := events[acknowledged].message.id;
             LetThrough(worlds[revealed], events[revealed], id) &&
             forall k :: acknowledged < k < revealed ==>
             !LetThrough(worlds[k], events[k], id) && !SpentLate(worlds[k], events[k], id)
    ensures events[revealed].message.Field("commit") == events[acknowledged].message.Field("commit")
  {
    hide Matches, Expired, LetThrough, SpentLate, IsRun;
    var id := events[acknowledged].message.id;
    RunStep(worlds, events, revealed);
    StillPending(worlds, events, acknowledged, revealed);
    RevealMatchesPending(worlds[revealed], events[revealed], id);
  }

  lemma RevealMatchesPending(w: World, e: Event, id: string)
    requires LetThrough(w, e, id) && id in w.boxes.pending && id != ""
    ensures Matches(w.boxes.pending[id], e.message) && w.boxes.pending[id].Field("commit") == e.message.Field("commit")
  {
    hide Expired;
  }

  lemma RunStep(worlds: seq<World>, events: seq<Event>, i: nat)
    requires IsRun(worlds, events) && i < |events|
    ensures Possible(worlds[i], events[i]) && worlds[i + 1] == Next(worlds[i], events[i]) && |worlds| == |events| + 1
  {
    hide Next;
  }

  lemma {:induction false} StillPending(worlds: seq<World>, events: seq<Event>, acknowledged: nat, at: nat)
    requires IsRun(worlds, events) && acknowledged < at < |events|
    requires events[acknowledged].Commit? &&
             Committed(worlds[acknowledged].boxes, events[acknowledged].message).1 == Acknowledged
    requires var id := events[acknowledged].message.id;
             forall k :: acknowledged < k < at ==>
             !LetThrough(worlds[k], events[k], id) && !SpentLate(worlds[k], events[k], id)
    ensures var id := events[acknowledged].message.id;
            id != "" && id in worlds[at].boxes.pending &&
            worlds[at].boxes.pending[id].Field("commit") == events[acknowledged].message.Field("commit")
    decreases at
  {
    hide Matches, Expired, LetThrough, SpentLate, IsRun;
    RunStep(worlds, events, at - 1);
    if at - 1 > acknowledged {
      StillPending(worlds, events, acknowledged, at - 1);
      PendingEndsIff(worlds[at - 1], events[at - 1], events[acknowledged].message.id);
    }
  }

  /**
   * Why the exception is needed: a matching reveal that came late is refused but spends the commitment, so a reveal
   * with another hash is then delivered.
   */
  lemma LateRevealFreesTheHash(id: string, hash: Json, other: Json)
    requires id != "" && hash.Truthy() && hash != other
    ensures var commitment := Message(id, map["commit" := hash], Never);
            var late, second := commitment.(expiry := At(1.0)), Message(id, map["commit" := other], Never);
            var w1 := Next(EMPTY, Commit(commitment));
            var w2 := Next(w1, Lock(late, 2.0));
            var w3 := Next(w2, Lock(second, 2.0));
            Committed(EMPTY.boxes, commitment).1 == Acknowledged &&
            Unlocked(w1.boxes, late, 2.0).1.Rejected? && w3.inFlight == [Delivery(second, None)]
  {
    var commitment := Message(id, map["commit" := hash], Never);
    var late := commitment.(expiry := At(1.0));
    assert forall key :: key in commitment.fields ==> key == "commit";
  }

  // ----- the two locked sections, told field by field -----

  /** If the commitment recorded this field, the reveal carries the same value in it. */
  predicate SameWhereRecorded(key: string, commitment: Message, m: Message) {
    key in commitment.fields ==> m.Field(key) == commitment.fields[key]
  }

  /** The acknowledged hash, and the five fields that say which turn of which game is meant. */
  predicate Agrees(commitment: Message, m: Message) {
    m.Field("commit") == commitment.Field("commit") &&
    SameWhereRecorded("schema_version", commitment, m) && SameWhereRecorded("game_id", commitment, m) &&
    SameWhereRecorded("sub_game_number", commitment, m) && SameWhereRecorded("step", commitment, m) &&
    SameWhereRecorded("sender", commitment, m)
  }

  /** An expiry that is no number, or a time other than zero that has passed. */
  predicate Late(m: Message, now: real) {
    match m.expiry
    case Never => false
    case Unreadable => true
    case At(epoch) => epoch != 0.0 && epoch < now
  }

  lemma MatchesMeansAgrees(commitment: Message, m: Message)
    ensures Matches(commitment, m) <==> Agrees(commitment, m)
  {
    assert ENVELOPE[0] == "schema_version" && ENVELOPE[1] == "game_id" && ENVELOPE[2] == "sub_game_number" &&
           ENVELOPE[3] == "step" && ENVELOPE[4] == "sender";
    assert ENVELOPE[0] in ENVELOPE && ENVELOPE[1] in ENVELOPE && ENVELOPE[2] in ENVELOPE && ENVELOPE[3] in ENVELOPE &&
           ENVELOPE[4] in ENVELOPE;
  }

  /**
   * A reveal goes on to the queue exactly when it has no id, or its id was not delivered before, it agrees with the
   * pending commitment of that id if there is one, and it is not late; what was delivered or does not agree changes
   * nothing, and any other reveal with an id spends the commitment.
   */
  lemma RevealDecided(w: World, m: Message, now: real)
    ensures var after, pending := Next(w, Lock(m, now)), w.boxes.pending;
            var agrees := m.id in pending ==> Agrees(pending[m.id], m);
            var repeated := m.id in w.boxes.delivered;
            var against := if m.id in pending then Some(pending[m.id]) else None;
            (after.inFlight == (if m.id == "" || (!repeated && agrees && !Late(m, now))
                                then w.inFlight + [Delivery(m, against)] else w.inFlight)) &&
            (after.boxes.pending == if m.id == "" || repeated || !agrees then pending else pending - {m.id}) &&
            (after.boxes.delivered == if m.id != "" && !repeated && agrees && !Late(m, now)
                                      then w.boxes.delivered + {m.id} else w.boxes.delivered) &&
            after.turns == w.turns && after.log == w.log
  {
    hide Matches, Agrees;
    if m.id in w.boxes.pending {
      MatchesMeansAgrees(w.boxes.pending[m.id], m);
    }
  }

  /**
   * A commitment becomes the pending one of its id exactly when it has an id and a hash, and no other hash is pending
   * under that id; otherwise nothing changes.
   */
  lemma CommitDecided(w: World, m: Message)
    ensures var after, pending := Next(w, Commit(m)), w.boxes.pending;
            after == if m.id != "" && m.Field("commit").Truthy() &&
                        (m.id in pending ==> pending[m.id].Field("commit") == m.Field("commit"))
                     then w.(boxes := Boxes(pending[m.id := m], w.boxes.delivered)) else w
  {
  }

  ghost predicate AllAgree(ds: seq<Delivery>) {
    forall i :: 0 <= i < |ds| && ds[i].against.Some? ==> Agrees(ds[i].against.value, ds[i].message)
  }

  /** In every run each reveal that was checked against a commitment carries its hash and its five recorded fields. */
  lemma EveryDeliveryAgrees(worlds: seq<World>, events: seq<Event>)
    requires IsRun(worlds, events)
    ensures AllAgree(worlds[|events|].inFlight) && AllAgree(worlds[|events|].log)
  {
    hide Next, Matches, Agrees, OnceEach, Taken;
    EveryRunDeliversOnce(worlds, events);
    var w := worlds[|events|];
    forall d | d in w.inFlight + w.log && d.against.Some?
      ensures Agrees(d.against.value, d.message)
    {
      MatchesMeansAgrees(d.against.value, d.message);
    }
    assert forall i :: 0 <= i < |w.inFlight| ==> w.inFlight[i] in w.inFlight + w.log;
    assert forall i :: 0 <= i < |w.log| ==> w.log[i] in w.inFlight + w.log;
  }
}
