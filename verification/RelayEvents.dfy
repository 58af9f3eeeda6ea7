/** packages/relay/src/events.ts: the synchronous in-process event bus. */
module RelayEvents {
  import opened RelayRepo

  /** A published event. The informational `at` stamp is left out. */
  datatype Event =
    | Received(envelope: Envelope, receivedAt: int, expiresAt: int)
    | Acked(envelopeIds: seq<string>, agentId: string)
    | Expired(envelopeId: string, recipientId: string)

  /** Listeners are named by subscription number; `delivered` is what each
      listener has been called with so far, in order. */
  class RelayEventBus {
    var listeners: seq<nat>
    var delivered: map<nat, seq<Event>>
    var nextListener: nat
    ghost var log: seq<Event>
    ghost var joined: map<nat, nat>

    /** Every live listener has seen exactly what was published since it
        subscribed. */
    ghost predicate Valid()
      reads this
    {
      && (forall i, j :: 0 <= i < j < |listeners| ==> listeners[i] != listeners[j])
      && (forall l :: l in delivered ==> l < nextListener)
      && (forall l :: l in listeners ==>
            l in delivered && l in joined && joined[l] <= |log| && delivered[l] == log[joined[l]..])
    }

    constructor ()
      ensures Valid() && log == [] && listeners == []
    {
      listeners, delivered, nextListener, log, joined := [], map[], 0, [], map[];
    }

    method Subscribe() returns (l: nat)
      requires Valid()
      modifies this
      ensures Valid() && log == old(log)
      ensures l !in old(listeners) && listeners == old(listeners) + [l]
      ensures joined == old(joined)[l := |log|]
    {
      l := nextListener;
      assert forall i :: 0 <= i < |listeners| ==> listeners[i] in listeners;
      nextListener := l + 1;
      listeners := listeners + [l];
      delivered := delivered[l := []];
      joined := joined[l := |log|];
    }

    method Unsubscribe(l: nat)
      requires Valid()
      modifies this`listeners
      ensures Valid()
      ensures forall m :: m in listeners <==> m in old(listeners) && m != l
    {
      var kept := [];
      for i := 0 to |listeners|
        invariant forall m :: m in kept <==> m in listeners[..i] && m != l
        invariant forall a, b :: 0 <= a < b < |kept| ==> kept[a] != kept[b]
      {
        if listeners[i] != l {
          assert forall a :: 0 <= a < |kept| ==> kept[a] in kept;
          kept := kept + [listeners[i]];
        }
      }
      assert listeners[..|listeners|] == listeners;
      listeners := kept;
    }

    method Publish(event: Event)
      requires Valid()
      modifies this`delivered, this`log
      ensures Valid()
      ensures log == old(log) + [event]
      ensures delivered.Keys == old(delivered).Keys
      ensures forall l :: l in delivered && l !in listeners ==> delivered[l] == old(delivered)[l]
    {
      log := log + [event];
      var called := listeners;
      for i := 0 to |called|
        invariant log == old(log) + [event]
        invariant forall l :: l in delivered <==> l in old(delivered)
        invariant forall k :: 0 <= k < i ==> delivered[called[k]] == old(delivered[called[k]]) + [event]
        invariant forall l :: l in delivered && l !in called[..i] ==> delivered[l] == old(delivered)[l]
      {
        var l := called[i];
        assert l in listeners;
        delivered := delivered[l := delivered[l] + [event]];
      }
      assert called[..|called|] == called;
    }
  }
}
