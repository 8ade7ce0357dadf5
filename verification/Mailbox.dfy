/** The peer's mailboxes: acknowledged commitments and reveals that are queued exactly once. */
module Mailbox {
  import opened Audit

  /** The expiry a reveal asks for: none, a time, or something that is no number. */
  datatype Expiry = Never | At(epoch: real) | Unreadable

  /** A commit or reveal; the id is its message_id as text, empty when absent. */
  datatype Message = Message(id: string, fields: map<string, Json>, expiry: Expiry)
  {
    /** An absent field reads as null. */
    function Field(key: string): Json {
      if key in fields then fields[key] else Null
    }
  }

  const ENVELOPE: seq<string> := ["schema_version", "game_id", "sub_game_number", "step", "sender"]

  /** The reveal carries the acknowledged hash and every envelope field that the commitment recorded. */
  predicate Matches(commitment: Message, m: Message) {
    commitment.Field("commit") == m.Field("commit") &&
    forall key :: key in ENVELOPE && key in commitment.fields ==> commitment.fields[key] == m.Field(key)
  }

  predicate Expired(m: Message, now: real) {
    m.expiry.Unreadable? || (m.expiry.At? && m.expiry.epoch != 0.0 && now > m.expiry.epoch)
  }

  /** What the commit lock protects. */
  datatype Boxes = Boxes(pending: map<string, Message>, delivered: set<string>)

  datatype Ack = Acknowledged | Revealed | Duplicate | Rejected(reason: string)

  function Committed(b: Boxes, m: Message): (Boxes, Ack) {
    if m.id == "" || !m.Field("commit").Truthy() then (b, Rejected("commit requires message_id and commit"))
    else if m.id in b.pending && b.pending[m.id].Field("commit") != m.Field("commit")
    then (b, Rejected("conflicting duplicate commitment"))
    else (b.(pending := b.pending[m.id := m]), Acknowledged)
  }

  /** The locked section of a reveal; only a Revealed message goes on to the queue. */
  function Unlocked(b: Boxes, m: Message, now: real): (Boxes, Ack) {
    if m.id == "" then (b, Revealed)
    else if m.id in b.delivered then (b, Duplicate)
    else if m.id in b.pending && !Matches(b.pending[m.id], m)
    then (b, Rejected("reveal does not match acknowledged commitment"))
    else
      var popped := b.(pending := b.pending - {m.id});
      if Expired(m, now) then (popped, Rejected("reveal expired before delivery"))
      else (popped.(delivered := b.delivered + {m.id}), Revealed)
  }

  class PeerInboxes {
    var turns: seq<Message>
    var pending: map<string, Message>
    var delivered: set<string>

    ghost function Model(): Boxes
      reads this
    {
      Boxes(pending, delivered)
    }

    constructor ()
      ensures turns == [] && Model() == Boxes(map[], {})
    {
      turns, pending, delivered := [], map[], {};
    }

    method AcceptCommit(m: Message) returns (ack: Ack)
      modifies this`pending
      ensures (Model(), ack) == Committed(old(Model()), m)
    {
      if m.id == "" || !m.Field("commit").Truthy() {
        return Rejected("commit requires message_id and commit");
      }
      if m.id in pending && pending[m.id].Field("commit") != m.Field("commit") {
        return Rejected("conflicting duplicate commitment");
      }
      pending := pending[m.id := m];
      return Acknowledged;
    }

    /** The part of a reveal that holds the lock. */
    method RevealLocked(m: Message, now: real) returns (ack: Ack)
      requires m.id != ""
      modifies this`pending, this`delivered
      ensures (Model(), ack) == Unlocked(old(Model()), m, now)
    {
      if m.id in delivered {
        return Duplicate;
      }
      if m.id in pending {
        var commitment := pending[m.id];
        if commitment.Field("commit") != m.Field("commit") {
          return Rejected("reveal does not match acknowledged commitment");
        }
        for i := 0 to |ENVELOPE|
          invariant forall j :: 0 <= j < i && ENVELOPE[j] in commitment.fields ==>
                    commitment.fields[ENVELOPE[j]] == m.Field(ENVELOPE[j])
        {
          if ENVELOPE[i] in commitment.fields && commitment.fields[ENVELOPE[i]] != m.Field(ENVELOPE[i]) {
            assert ENVELOPE[i] in ENVELOPE && !Matches(commitment, m);
            return Rejected("reveal does not match acknowledged commitment");
          }
        }
        assert Matches(commitment, m);
        pending := pending - {m.id};
      }
      assert pending == old(pending) - {m.id};
      if m.expiry.Unreadable? || (m.expiry.At? && m.expiry.epoch != 0.0 && now > m.expiry.epoch) {
        return Rejected("reveal expired before delivery");
      }
      delivered := delivered + {m.id};
      return Revealed;
    }

    /** Lock, release, and only then queue. */
    method AcceptReveal(m: Message, now: real) returns (ack: Ack)
      modifies this
      ensures (Model(), ack) == Unlocked(old(Model()), m, now)
      ensures turns == if ack == Revealed then old(turns) + [m] else old(turns)
    {
      if m.id == "" {
        turns := turns + [m];
        return Revealed;
      }
      ack := RevealLocked(m, now);
      if ack == Revealed {
        turns := turns + [m];
      }
    }
  }
}
