/** The pending table of the message bus as it is updated in place. */
module MessageBuses {
  import opened Basics
  import opened HubMessage
  import opened PendingTable

  class MessageBus {
    var pending: map<Text, Pending>
    /** The channels to the callers, by the order of their registration. */
    var outputs: seq<Output>

    ghost function Value(): Table
      reads this
    {
      Table(pending, outputs)
    }

    constructor ()
      ensures Value() == Empty
    {
      pending, outputs := map[], [];
    }

    method Deliver(entry: Pending, replies: seq<Reply>, open: bool)
      modifies this`outputs
      ensures outputs == Sent(old(outputs), entry.handle, replies, open)
    {
      if entry.handle < |outputs| {
        outputs := outputs[entry.handle := Output(outputs[entry.handle].replies + replies, open)];
      }
    }

    /** `register_pending` and `register_stream`. */
    method Register(id: Text, kind: Kind) returns (handle: nat)
      modifies this
      ensures Value() == Registered(old(Value()), id, kind) && handle == |old(outputs)|
    {
      handle := |outputs|;
      if id in pending {
        Deliver(pending[id], [], false);
      }
      outputs := outputs + [Output([], true)];
      pending := pending[id := Pending(kind, handle)];
    }

    method CompleteInvocation(id: Text, result: Reply)
      modifies this
      ensures Value() == Completed(old(Value()), id, result)
    {
      if id in pending {
        var entry := pending[id];
        pending := pending - {id};
        match entry.kind {
          case Single => Deliver(entry, [result], false);
          case Stream => Deliver(entry, if result.Err? then [result] else [], false);
        }
      }
    }

    method SendStreamItem(id: Text, item: Json)
      modifies this`outputs
      ensures Value() == ItemSent(old(Value()), id, item)
    {
      if id in pending && pending[id].kind == Stream {
        Deliver(pending[id], [Ok(item)], true);
      }
    }

    method RemovePending(id: Text) returns (removed: bool)
      modifies this
      ensures removed == (id in old(pending))
      ensures Value() == Removed(old(Value()), id)
    {
      removed := id in pending;
      if removed {
        var entry := pending[id];
        pending := pending - {id};
        Deliver(entry, [], false);
      }
    }

    /** Takes the entries out in any order and fails each of them. */
    method CancelAllPending(error: Text)
      requires Inv(Value())
      modifies this
      ensures Value() == Cancelled(old(Value()), error)
      ensures Inv(Value())
    {
      hide Inv, Failed, Sent, Held;
      ghost var before := Value();
      ApplyKeeps(before, CancelAll(error));
      var drained := pending;
      ghost var done: set<nat> := {};
      pending := map[];
      NothingHeld(outputs, error);
      while drained != map[]
        invariant pending == map[]
        invariant PartOf(drained, before.pending)
        invariant outputs == Failed(before.outputs, done, error)
        invariant done !! Held(drained) && done + Held(drained) == Held(before.pending)
        decreases |drained|
      {
        var id :| id in drained;
        var entry := drained[id];
        OneLess(before, drained, id);
        FailedOneMore(before.outputs, done, entry.handle, error);
        Deliver(entry, [Err(error)], false);
        done := done + {entry.handle};
        drained := drained - {id};
      }
    }
  }

  predicate PartOf(part: map<Text, Pending>, all: map<Text, Pending>)
  {
    part.Keys <= all.Keys && forall id | id in part :: part[id] == all[id]
  }

  lemma NothingHeld(outputs: seq<Output>, error: Text)
    ensures Failed(outputs, {}, error) == outputs && Held(map[]) == {}
  {
  }

  lemma OneLess(t: Table, drained: map<Text, Pending>, id: Text)
    requires Inv(t) && id in drained
    requires PartOf(drained, t.pending)
    ensures PartOf(drained - {id}, t.pending)
    ensures drained[id].handle in Held(drained) && drained[id].handle < |t.outputs|
    ensures Held(drained - {id}) == Held(drained) - {drained[id].handle}
  {
    forall h | h in Held(drained) && h != drained[id].handle ensures h in Held(drained - {id}) {
      var k :| k in drained && drained[k].handle == h;
      assert k in drained - {id} && (drained - {id})[k].handle == h;
    }
  }

  lemma FailedOneMore(outputs: seq<Output>, done: set<nat>, h: nat, error: Text)
    requires h !in done && h < |outputs|
    ensures Sent(Failed(outputs, done, error), h, [Err(error)], false) == Failed(outputs, done + {h}, error)
  {
  }
}
